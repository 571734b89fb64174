/** One backend's request side: ids from an atomic counter, the shared `pending`
    map, the reader task that demultiplexes replies, per-request timeouts, and
    the end-of-stream clear.

    Every request is a little program that other tasks interleave with. Each
    atomic action is one event, so a sequence of enabled events is one
    interleaving of any number of requests with the reader and the timer. */
module RequestDemux {
  import opened Prelude
  import opened JsonValue
  import Decimal
  import Breaker

  datatype Outcome = Answered(message: Json) | TimedOut | Closed | SendFailed

  /** Where one call of `request` stands. */
  datatype Stage =
    | Minted                     // id fetched, not yet in `pending`
    | Registered                 // in `pending`, frame not yet written
    | Waiting                    // frame written, awaiting the one-shot channel
    | Elapsed                    // timer fired, own entry not yet removed
    | Done(outcome: Outcome)

  /** The one-shot channel as its receiver sees it. */
  datatype Slot = Empty | Filled(message: Json) | Dropped

  datatype Call = Call(stage: Stage, slot: Slot)

  /** `calls[n]` is the request that fetched counter value n; `pending` maps an
      id to the call whose sender it holds. `ops` and `startup` are history. */
  datatype Handle = Handle(
    id: string,
    nextId: nat,
    pending: map<string, nat>,
    calls: seq<Call>,
    timed: bool,
    ended: bool,
    breaker: Option<Breaker.Cell>,
    ops: seq<Breaker.Op>,
    startup: nat)

  datatype Event =
    | Mint
    | Register(call: nat)
    | Written(call: nat)
    | WriteFailed(call: nat)
    | Receive(message: Json)
    | Elapse(call: nat)
    | Expire(call: nat, at: real)
    | Wake(call: nat, at: real)
    | Eof
    | Probe(at: real)
    | StartupFailure(at: real)

  function Mid(id: string, n: nat): string {
    id + "-" + Decimal.Render(n)
  }

  lemma MidInjective(id: string, m: nat, n: nat)
    ensures Mid(id, m) == Mid(id, n) ==> m == n
  {
    if Mid(id, m) == Mid(id, n) {
      Decimal.TaggedInjective(id + "-", m, n);
    }
  }

  function Fresh(id: string, timed: bool, breaker: Option<Breaker.Cell>): Handle {
    Handle(id, 0, map[], [], timed, false, breaker, [], 0)
  }

  /** The receiving end still exists: `request` has not returned or given up. */
  predicate Alive(c: Call) {
    c.stage.Minted? || c.stage.Registered? || c.stage.Waiting?
  }

  /** `tx.send(message)`: lost when the receiver is gone. */
  function Offer(c: Call, message: Json): Call {
    if Alive(c) then c.(slot := Filled(message)) else c
  }

  function Hangup(c: Call): Call {
    if Alive(c) then c.(slot := Dropped) else c
  }

  predicate Responds(h: Handle, message: Json) {
    GetStr(message, "id").Some? && GetStr(message, "id").value in h.pending
  }

  /** Record one outcome on the breaker, when there is one. */
  function Record(h: Handle, op: Breaker.Op): Handle {
    if h.breaker.Some?
    then h.(breaker := Some(Breaker.Apply(h.breaker.value, op)), ops := h.ops + [op])
    else h
  }

  function At(h: Handle, c: nat, stage: Stage): Handle
    requires c < |h.calls|
  {
    h.(calls := h.calls[c := h.calls[c].(stage := stage)])
  }

  predicate Enabled(h: Handle, e: Event) {
    match e
    case Mint => true
    case Register(c) => c < |h.calls| && h.calls[c].stage.Minted?
    case Written(c) => c < |h.calls| && h.calls[c].stage.Registered?
    case WriteFailed(c) => c < |h.calls| && h.calls[c].stage.Registered?
    case Receive(message) => !h.ended && (Responds(h, message) ==> h.pending[GetStr(message, "id").value] < |h.calls|)
    case Elapse(c) => c < |h.calls| && h.timed && h.calls[c].stage.Waiting? && h.calls[c].slot.Empty?
    case Expire(c, _) => c < |h.calls| && h.calls[c].stage.Elapsed?
    case Wake(c, _) => c < |h.calls| && h.calls[c].stage.Waiting? && !h.calls[c].slot.Empty?
    case Eof => !h.ended
    case Probe(_) => true
    case StartupFailure(_) => true
  }

  function Step(h: Handle, e: Event): Handle
    requires Enabled(h, e)
  {
    match e
    case Mint => h.(nextId := h.nextId + 1, calls := h.calls + [Call(Minted, Empty)])
    case Register(c) => At(h, c, Registered).(pending := h.pending[Mid(h.id, c) := c])
    case Written(c) => At(h, c, Waiting)
    case WriteFailed(c) => At(h, c, Done(SendFailed))
    case Receive(message) =>
      if Responds(h, message) then
        var key := GetStr(message, "id").value;
        var c := h.pending[key];
        h.(pending := h.pending - {key}, calls := h.calls[c := Offer(h.calls[c], message)])
      else h
    case Elapse(c) => At(h, c, Elapsed)
    case Expire(c, at) =>
      Record(At(h, c, Done(TimedOut)).(pending := h.pending - {Mid(h.id, c)}), Breaker.Failure(at))
    case Wake(c, at) =>
      if h.calls[c].slot.Filled?
      then Record(At(h, c, Done(Answered(h.calls[c].slot.message))), Breaker.Success)
      else Record(At(h, c, Done(Closed)), Breaker.Failure(at))
    case Eof =>
      h.(ended := true,
         calls := seq(|h.calls|, i requires 0 <= i < |h.calls| =>
           if i in h.pending.Values then Hangup(h.calls[i]) else h.calls[i]),
         pending := map[])
    case Probe(at) => Record(h, Breaker.Query(at))
    case StartupFailure(at) => Record(h, Breaker.Failure(at)).(startup := h.startup + 1)
  }

  ghost predicate Reaches(h: Handle, es: seq<Event>, h': Handle)
    decreases |es|
  {
    if es == [] then h == h'
    else Enabled(h, es[0]) && Reaches(Step(h, es[0]), es[1..], h')
  }

  // ---- Counting requests by fate ----

  datatype Fate = InProgress | WasAnswered | WasTimedOut | WasClosed | WasSendFailed

  function FateOf(c: Call): Fate {
    if !c.stage.Done? then InProgress
    else match c.stage.outcome
      case Answered(_) => WasAnswered
      case TimedOut => WasTimedOut
      case Closed => WasClosed
      case SendFailed => WasSendFailed
  }

  function Count(calls: seq<Call>, f: Fate): nat {
    if calls == [] then 0
    else Count(calls[..|calls| - 1], f) + (if FateOf(calls[|calls| - 1]) == f then 1 else 0)
  }

  lemma {:induction false} CountPartition(calls: seq<Call>)
    ensures |calls| == Count(calls, InProgress) + Count(calls, WasAnswered) + Count(calls, WasTimedOut)
                     + Count(calls, WasClosed) + Count(calls, WasSendFailed)
  {
    if calls != [] {
      CountPartition(calls[..|calls| - 1]);
    }
  }

  lemma {:induction false} CountUpdate(calls: seq<Call>, i: nat, c: Call, f: Fate)
    requires i < |calls|
    ensures Count(calls[i := c], f)
         == Count(calls, f) - (if FateOf(calls[i]) == f then 1 else 0) + (if FateOf(c) == f then 1 else 0)
  {
    var n := |calls| - 1;
    if i == n {
      assert calls[i := c][..n] == calls[..n];
    } else {
      assert calls[i := c][..n] == calls[..n][i := c];
      CountUpdate(calls[..n], i, c, f);
    }
  }

  lemma {:induction false} CountPointwise(xs: seq<Call>, ys: seq<Call>, f: Fate)
    requires |xs| == |ys|
    requires forall i :: 0 <= i < |xs| ==> FateOf(xs[i]) == FateOf(ys[i])
    ensures Count(xs, f) == Count(ys, f)
  {
    if xs != [] {
      CountPointwise(xs[..|xs| - 1], ys[..|ys| - 1], f);
    }
  }

  function Successes(ops: seq<Breaker.Op>): nat {
    if ops == [] then 0
    else Successes(ops[..|ops| - 1]) + (if ops[|ops| - 1].Success? then 1 else 0)
  }

  function Failures(ops: seq<Breaker.Op>): nat {
    if ops == [] then 0
    else Failures(ops[..|ops| - 1]) + (if ops[|ops| - 1].Failure? then 1 else 0)
  }

  // ---- What every reachable state satisfies ----

  /** A live request with nothing delivered is in `pending`, so some event can
      still resolve it; anything delivered or returned carries its own id; a
      finished request left no entry behind, unless its write failed. */
  ghost predicate CallOk(h: Handle, c: nat)
    requires c < |h.calls|
  {
    var call := h.calls[c];
    var mid := Mid(h.id, c);
    && (mid in h.pending ==> h.pending[mid] == c)
    && (call.stage.Minted? ==> call.slot.Empty? && mid !in h.pending)
    && (call.stage.Registered? || call.stage.Waiting? ==> (call.slot.Empty? <==> mid in h.pending))
    && (call.stage.Done? && mid in h.pending ==> call.stage.outcome.SendFailed?)
    && (call.slot.Filled? ==> GetStr(call.slot.message, "id") == Some(mid))
    && (call.stage.Done? && call.stage.outcome.Answered? ==>
          GetStr(call.stage.outcome.message, "id") == Some(mid))
  }

  ghost predicate PendingOk(h: Handle) {
    forall k :: k in h.pending ==> h.pending[k] < |h.calls| && k == Mid(h.id, h.pending[k])
  }

  ghost predicate LogOk(h: Handle, birth: Option<Breaker.Cell>) {
    if birth.None? then h.breaker.None? && h.ops == []
    else && h.breaker == Some(Breaker.Run(birth.value, h.ops))
         && Successes(h.ops) == Count(h.calls, WasAnswered)
         && Failures(h.ops) == Count(h.calls, WasTimedOut) + Count(h.calls, WasClosed) + h.startup
  }

  ghost predicate Inv(h: Handle, birth: Option<Breaker.Cell>) {
    && |h.calls| == h.nextId
    && PendingOk(h)
    && (forall c :: 0 <= c < |h.calls| ==> CallOk(h, c))
    && LogOk(h, birth)
  }

  lemma FreshInv(id: string, timed: bool, birth: Option<Breaker.Cell>)
    ensures Inv(Fresh(id, timed, birth), birth)
  {
  }

  lemma RecordOne(h: Handle, op: Breaker.Op, birth: Option<Breaker.Cell>)
    requires birth.Some? && h.breaker == Some(Breaker.Run(birth.value, h.ops))
    ensures var g := Record(h, op);
            && g.breaker == Some(Breaker.Run(birth.value, g.ops))
            && Successes(g.ops) == Successes(h.ops) + (if op.Success? then 1 else 0)
            && Failures(g.ops) == Failures(h.ops) + (if op.Failure? then 1 else 0)
  {
    assert (h.ops + [op])[..|h.ops|] == h.ops;
  }

  /** An event that touches one call and at most that call's own entry keeps
      every other call as it was. */
  lemma LocalChange(h: Handle, h': Handle, c: nat)
    requires PendingOk(h) && forall d :: 0 <= d < |h.calls| ==> CallOk(h, d)
    requires h'.id == h.id && c < |h.calls| == |h'.calls|
    requires h'.calls == h.calls[c := h'.calls[c]]
    requires forall k :: k != Mid(h.id, c) ==> (k in h'.pending <==> k in h.pending)
    requires forall k :: k != Mid(h.id, c) && k in h.pending ==> h'.pending[k] == h.pending[k]
    requires CallOk(h', c)
    ensures PendingOk(h') && forall d :: 0 <= d < |h'.calls| ==> CallOk(h', d)
  {
    forall d | 0 <= d < |h'.calls| ensures CallOk(h', d) {
      assert CallOk(h, d);
      MidInjective(h.id, c, d);
    }
  }

  lemma MintKeepsCalls(h: Handle)
    requires PendingOk(h) && forall d :: 0 <= d < |h.calls| ==> CallOk(h, d)
    ensures var h' := Step(h, Mint);
            PendingOk(h') && forall d :: 0 <= d < |h'.calls| ==> CallOk(h', d)
  {
    var h' := Step(h, Mint);
    if Mid(h.id, |h.calls|) in h.pending {
      MidInjective(h.id, |h.calls|, h.pending[Mid(h.id, |h.calls|)]);
    }
    forall c | 0 <= c < |h'.calls| ensures CallOk(h', c) {
      if c < |h.calls| { assert CallOk(h, c); }
    }
  }

  /** The clear at end of stream reaches exactly the calls held in `pending`. */
  lemma HeldExactly(h: Handle, c: nat)
    requires PendingOk(h) && forall d :: 0 <= d < |h.calls| ==> CallOk(h, d)
    requires c < |h.calls|
    ensures c in h.pending.Values <==> Mid(h.id, c) in h.pending
  {
    assert CallOk(h, c);
    if c in h.pending.Values {
      var k :| k in h.pending && h.pending[k] == c;
    }
    if Mid(h.id, c) in h.pending {
      assert h.pending[Mid(h.id, c)] in h.pending.Values;
    }
  }

  lemma EofKeepsCalls(h: Handle)
    requires PendingOk(h) && forall d :: 0 <= d < |h.calls| ==> CallOk(h, d)
    requires !h.ended
    ensures var h' := Step(h, Eof);
            PendingOk(h') && forall d :: 0 <= d < |h'.calls| ==> CallOk(h', d)
  {
    var h' := Step(h, Eof);
    forall c | 0 <= c < |h'.calls| ensures CallOk(h', c) {
      assert CallOk(h, c);
      HeldExactly(h, c);
    }
  }

  lemma ReceiveKeepsCalls(h: Handle, message: Json)
    requires PendingOk(h) && forall d :: 0 <= d < |h.calls| ==> CallOk(h, d)
    requires Enabled(h, Receive(message))
    ensures var h' := Step(h, Receive(message));
            PendingOk(h') && forall d :: 0 <= d < |h'.calls| ==> CallOk(h', d)
  {
    if Responds(h, message) {
      var c := h.pending[GetStr(message, "id").value];
      assert CallOk(h, c);
      LocalChange(h, Step(h, Receive(message)), c);
    }
  }

  lemma AdvanceKeepsCalls(h: Handle, e: Event, c: nat)
    requires PendingOk(h) && forall d :: 0 <= d < |h.calls| ==> CallOk(h, d)
    requires e == Register(c) || e == Written(c) || e == WriteFailed(c) || e == Elapse(c)
    requires Enabled(h, e)
    ensures var h' := Step(h, e);
            PendingOk(h') && forall d :: 0 <= d < |h'.calls| ==> CallOk(h', d)
  {
    assert CallOk(h, c);
    LocalChange(h, Step(h, e), c);
  }

  lemma ExpireKeepsCalls(h: Handle, c: nat, at: real)
    requires PendingOk(h) && forall d :: 0 <= d < |h.calls| ==> CallOk(h, d)
    requires Enabled(h, Expire(c, at))
    ensures var h' := Step(h, Expire(c, at));
            PendingOk(h') && forall d :: 0 <= d < |h'.calls| ==> CallOk(h', d)
  {
    assert CallOk(h, c);
    LocalChange(h, Step(h, Expire(c, at)), c);
  }

  lemma WakeKeepsCalls(h: Handle, c: nat, at: real)
    requires PendingOk(h) && forall d :: 0 <= d < |h.calls| ==> CallOk(h, d)
    requires Enabled(h, Wake(c, at))
    ensures var h' := Step(h, Wake(c, at));
            PendingOk(h') && forall d :: 0 <= d < |h'.calls| ==> CallOk(h', d)
  {
    assert CallOk(h, c);
    LocalChange(h, Step(h, Wake(c, at)), c);
  }

  lemma StepKeepsPending(h: Handle, e: Event)
    requires PendingOk(h) && forall d :: 0 <= d < |h.calls| ==> CallOk(h, d)
    requires Enabled(h, e)
    ensures var h' := Step(h, e);
            PendingOk(h') && forall d :: 0 <= d < |h'.calls| ==> CallOk(h', d)
  {
    match e
    case Mint => MintKeepsCalls(h);
    case Eof => EofKeepsCalls(h);
    case Receive(message) => ReceiveKeepsCalls(h, message);
    case Expire(c, at) => ExpireKeepsCalls(h, c, at);
    case Wake(c, at) => WakeKeepsCalls(h, c, at);
    case Probe(_) => SameCalls(h, Step(h, e));
    case StartupFailure(_) => SameCalls(h, Step(h, e));
    case _ => AdvanceKeepsCalls(h, e, e.call);
  }

  lemma StepKeepsCalls(h: Handle, e: Event)
    requires |h.calls| == h.nextId
    requires PendingOk(h) && forall d :: 0 <= d < |h.calls| ==> CallOk(h, d)
    requires Enabled(h, e)
    ensures var h' := Step(h, e);
            && h'.id == h.id && |h'.calls| == h'.nextId
            && PendingOk(h') && forall d :: 0 <= d < |h'.calls| ==> CallOk(h', d)
  {
    StepKeepsPending(h, e);
  }

  lemma SameCalls(h: Handle, h': Handle)
    requires PendingOk(h) && forall d :: 0 <= d < |h.calls| ==> CallOk(h, d)
    requires h'.id == h.id && h'.calls == h.calls && h'.pending == h.pending
    ensures PendingOk(h') && forall d :: 0 <= d < |h'.calls| ==> CallOk(h', d)
  {
    forall d | 0 <= d < |h'.calls| ensures CallOk(h', d) {
      assert CallOk(h, d);
    }
  }

  function Tally(h: Handle): (nat, nat, nat) {
    (Count(h.calls, WasAnswered), Count(h.calls, WasTimedOut), Count(h.calls, WasClosed))
  }

  lemma TallyMoves(h: Handle, c: nat, call: Call)
    requires c < |h.calls| && FateOf(h.calls[c]) == InProgress
    ensures Tally(h.(calls := h.calls[c := call]))
         == (Tally(h).0 + (if FateOf(call) == WasAnswered then 1 else 0),
             Tally(h).1 + (if FateOf(call) == WasTimedOut then 1 else 0),
             Tally(h).2 + (if FateOf(call) == WasClosed then 1 else 0))
  {
    CountUpdate(h.calls, c, call, WasAnswered);
    CountUpdate(h.calls, c, call, WasTimedOut);
    CountUpdate(h.calls, c, call, WasClosed);
  }

  lemma TallySame(h: Handle, h': Handle)
    requires |h.calls| == |h'.calls|
    requires forall i :: 0 <= i < |h.calls| ==> FateOf(h.calls[i]) == FateOf(h'.calls[i])
    ensures Tally(h) == Tally(h')
  {
    CountPointwise(h.calls, h'.calls, WasAnswered);
    CountPointwise(h.calls, h'.calls, WasTimedOut);
    CountPointwise(h.calls, h'.calls, WasClosed);
  }

  lemma QuietKeepsLog(h: Handle, e: Event, birth: Option<Breaker.Cell>)
    requires LogOk(h, birth) && Enabled(h, e)
    requires !e.Expire? && !e.Wake? && !e.Probe? && !e.StartupFailure?
    ensures LogOk(Step(h, e), birth)
  {
    var h' := Step(h, e);
    assert LogFields(h') == LogFields(h);
    if e.Mint? {
      assert h'.calls[..|h.calls|] == h.calls;
    } else if e.WriteFailed? {
      TallyMoves(h, e.call, h'.calls[e.call]);
    } else {
      TallySame(h, h');
    }
  }

  function LogFields(h: Handle): (Option<Breaker.Cell>, seq<Breaker.Op>, nat) {
    (h.breaker, h.ops, h.startup)
  }

  /** One request finishes and the breaker hears of it. */
  lemma VerdictKeepsLog(h: Handle, c: nat, call: Call, op: Breaker.Op, pending: map<string, nat>,
      birth: Option<Breaker.Cell>)
    requires LogOk(h, birth) && c < |h.calls| && FateOf(h.calls[c]) == InProgress
    requires (op.Success? && FateOf(call) == WasAnswered)
          || (op.Failure? && (FateOf(call) == WasTimedOut || FateOf(call) == WasClosed))
    ensures LogOk(Record(h.(calls := h.calls[c := call], pending := pending), op), birth)
  {
    TallyMoves(h, c, call);
    if birth.Some? {
      RecordOne(h.(calls := h.calls[c := call], pending := pending), op, birth);
    }
  }

  lemma StepKeepsLog(h: Handle, e: Event, birth: Option<Breaker.Cell>)
    requires LogOk(h, birth) && Enabled(h, e)
    ensures LogOk(Step(h, e), birth)
  {
    match e
    case Expire(c, at) =>
      VerdictKeepsLog(h, c, h.calls[c].(stage := Done(TimedOut)), Breaker.Failure(at), h.pending - {Mid(h.id, c)},
        birth);
    case Wake(c, at) =>
      var call := h.calls[c];
      if call.slot.Filled? {
        VerdictKeepsLog(h, c, call.(stage := Done(Answered(call.slot.message))), Breaker.Success, h.pending, birth);
      } else {
        VerdictKeepsLog(h, c, call.(stage := Done(Closed)), Breaker.Failure(at), h.pending, birth);
      }
    case Probe(at) => if birth.Some? { RecordOne(h, Breaker.Query(at), birth); }
    case StartupFailure(at) => if birth.Some? { RecordOne(h, Breaker.Failure(at), birth); }
    case _ => QuietKeepsLog(h, e, birth);
  }

  lemma {:induction false} Safety(h: Handle, es: seq<Event>, h': Handle, birth: Option<Breaker.Cell>)
    requires Inv(h, birth) && Reaches(h, es, h')
    ensures Inv(h', birth)
    decreases |es|
  {
    if es != [] {
      StepKeepsCalls(h, es[0]);
      StepKeepsLog(h, es[0], birth);
      Safety(Step(h, es[0]), es[1..], h', birth);
    }
  }

  // ---- Main results, over every run ----

  /** Every request ever issued is in progress or met exactly one fate, and the
      breaker was told of success once per answer and of failure once per
      timeout or closed stream (plus each failed start-up). */
  lemma RequestsAreConserved(id: string, timed: bool, birth: Option<Breaker.Cell>, es: seq<Event>, h: Handle)
    requires Reaches(Fresh(id, timed, birth), es, h)
    ensures h.nextId == Count(h.calls, InProgress) + Count(h.calls, WasAnswered) + Count(h.calls, WasTimedOut)
                      + Count(h.calls, WasClosed) + Count(h.calls, WasSendFailed)
    ensures birth.Some? ==>
      && Successes(h.ops) == Count(h.calls, WasAnswered)
      && Failures(h.ops) == Count(h.calls, WasTimedOut) + Count(h.calls, WasClosed) + h.startup
  {
    FreshInv(id, timed, birth);
    Safety(Fresh(id, timed, birth), es, h, birth);
    CountPartition(h.calls);
  }

  /** A backend is available exactly when its own outcome history says so. */
  lemma AvailabilityFollowsOutcomes(id: string, timed: bool, threshold: nat, reset: real, es: seq<Event>, h: Handle,
      now: real)
    requires Reaches(Fresh(id, timed, Some(Breaker.Fresh(threshold, reset))), es, h)
    requires Breaker.OrderedUpTo(h.ops, now)
    ensures h.breaker.Some?
    ensures Breaker.Allow(h.breaker.value, now) <==> Breaker.HistoryAllows(h.ops, threshold, reset, now)
  {
    var birth := Some(Breaker.Fresh(threshold, reset));
    FreshInv(id, timed, birth);
    Safety(Fresh(id, timed, birth), es, h, birth);
    Breaker.AllowIsHistory(h.ops, threshold, reset, now);
  }

  /** A new id never overwrites a waiting entry, and an answer always carries
      the id of the very request it answers. */
  lemma IdsNeverCollide(id: string, timed: bool, birth: Option<Breaker.Cell>, es: seq<Event>, h: Handle, c: nat)
    requires Reaches(Fresh(id, timed, birth), es, h) && c < |h.calls|
    ensures Enabled(h, Register(c)) ==> Mid(h.id, c) !in h.pending
    ensures FateOf(h.calls[c]) == WasAnswered ==>
              GetStr(h.calls[c].stage.outcome.message, "id") == Some(Mid(h.id, c))
  {
    FreshInv(id, timed, birth);
    Safety(Fresh(id, timed, birth), es, h, birth);
    assert CallOk(h, c);
  }

  /** The fate of a call, and anything its channel received, is final. */
  ghost predicate Settled(before: Call, after: Call) {
    && (before.stage.Done? ==> after == before)
    && (!before.slot.Empty? ==> after.slot == before.slot)
  }

  lemma StepSettles(h: Handle, e: Event, c: nat)
    requires PendingOk(h) && forall d :: 0 <= d < |h.calls| ==> CallOk(h, d)
    requires Enabled(h, e) && c < |h.calls|
    ensures c < |Step(h, e).calls| && Settled(h.calls[c], Step(h, e).calls[c])
  {
    assert CallOk(h, c);
    if e.Eof? {
      HeldExactly(h, c);
    }
  }

  /** A request is resolved at most once: no later event of any kind changes
      its outcome or replaces what was delivered to it. */
  lemma {:induction false} ResolvedAtMostOnce(h: Handle, es: seq<Event>, h': Handle, birth: Option<Breaker.Cell>,
      c: nat)
    requires Inv(h, birth) && Reaches(h, es, h') && c < |h.calls|
    ensures c < |h'.calls| && Settled(h.calls[c], h'.calls[c])
    decreases |es|
  {
    if es != [] {
      StepSettles(h, es[0], c);
      StepKeepsCalls(h, es[0]);
      StepKeepsLog(h, es[0], birth);
      ResolvedAtMostOnce(Step(h, es[0]), es[1..], h', birth, c);
    }
  }

  /** A message from the backend reaches at most the request whose id it
      carries; a reply that comes too late reaches none. */
  lemma ReplyReachesItsOwnerOnly(h: Handle, message: Json, birth: Option<Breaker.Cell>, c: nat)
    requires Inv(h, birth) && Enabled(h, Receive(message)) && c < |h.calls|
    ensures var h' := Step(h, Receive(message));
            && |h'.calls| == |h.calls|
            && (h'.calls[c] != h.calls[c] ==>
                  && GetStr(message, "id") == Some(Mid(h.id, c))
                  && Alive(h.calls[c]) && h.calls[c].slot.Empty?
                  && h'.calls[c].slot == Filled(message))
  {
    if Responds(h, message) {
      assert CallOk(h, h.pending[GetStr(message, "id").value]);
    }
  }

  /** And it does reach that one: while the reader runs, a message that carries
      the id of a request still awaiting its reply fills that request's channel,
      takes its entry, touches nothing else, and is what the request returns. */
  lemma ReplyIsDelivered(h: Handle, message: Json, birth: Option<Breaker.Cell>, c: nat, at: real)
    requires Inv(h, birth) && !h.ended && c < |h.calls| && h.calls[c].slot.Empty?
    requires h.calls[c].stage.Registered? || h.calls[c].stage.Waiting?
    requires GetStr(message, "id") == Some(Mid(h.id, c))
    ensures Enabled(h, Receive(message))
    ensures Step(h, Receive(message)) ==
      h.(pending := h.pending - {Mid(h.id, c)}, calls := h.calls[c := h.calls[c].(slot := Filled(message))])
    ensures h.calls[c].stage.Waiting? ==> var h' := Step(h, Receive(message));
      Enabled(h', Wake(c, at)) && Step(h', Wake(c, at)).calls[c].stage == Done(Answered(message))
  {
    assert CallOk(h, c);
  }

  /** What end of stream decides for a call that was still awaiting a reply. */
  ghost predicate DecidedByEof(c: Call) {
    && c.slot.Dropped?
    && (c.stage.Registered? || c.stage.Waiting? || c.stage == Done(Closed) || c.stage == Done(SendFailed))
  }

  lemma DecidedStep(h: Handle, e: Event, c: nat)
    requires PendingOk(h) && forall d :: 0 <= d < |h.calls| ==> CallOk(h, d)
    requires Enabled(h, e) && c < |h.calls| && DecidedByEof(h.calls[c])
    ensures c < |Step(h, e).calls| && DecidedByEof(Step(h, e).calls[c])
  {
    StepSettles(h, e, c);
  }

  lemma {:induction false} DecidedStays(h: Handle, es: seq<Event>, h': Handle, birth: Option<Breaker.Cell>, c: nat)
    requires Inv(h, birth) && Reaches(h, es, h') && c < |h.calls| && DecidedByEof(h.calls[c])
    ensures c < |h'.calls| && DecidedByEof(h'.calls[c])
    decreases |es|
  {
    if es != [] {
      DecidedStep(h, es[0], c);
      StepKeepsCalls(h, es[0]);
      StepKeepsLog(h, es[0], birth);
      DecidedStays(Step(h, es[0]), es[1..], h', birth, c);
    }
  }

  /** The end-of-stream step resolves every request then waiting: its channel is
      closed, waking it yields Closed, and no run makes it end any other way
      (one whose frame is still unwritten may instead fail to write). */
  lemma EofResolvesAllWaiting(h: Handle, birth: Option<Breaker.Cell>, es: seq<Event>, h': Handle, c: nat, at: real)
    requires Inv(h, birth) && Enabled(h, Eof) && Reaches(Step(h, Eof), es, h')
    requires c < |h.calls| && (h.calls[c].stage.Registered? || h.calls[c].stage.Waiting?) && h.calls[c].slot.Empty?
    ensures c < |h'.calls| && DecidedByEof(h'.calls[c])
    ensures h'.calls[c].stage.Waiting? ==>
              Enabled(h', Wake(c, at)) && Step(h', Wake(c, at)).calls[c].stage == Done(Closed)
  {
    assert CallOk(h, c);
    HeldExactly(h, c);
    StepKeepsCalls(h, Eof);
    StepKeepsLog(h, Eof, birth);
    DecidedStays(Step(h, Eof), es, h', birth, c);
  }

  ghost predicate Stranded(h: Handle, c: nat) {
    && h.ended && !h.timed && c < |h.calls| && h.calls[c].slot.Empty?
    && (h.calls[c].stage.Minted? || h.calls[c].stage.Registered? || h.calls[c].stage.Waiting?
        || h.calls[c].stage == Done(SendFailed))
  }

  /** The clear happens once. A request that had not yet entered `pending` when
      the reader ended, on a backend without a timeout, is never answered,
      never closed and never timed out, whatever happens next. */
  lemma {:induction false} RequestAfterEofIsNotCovered(h: Handle, es: seq<Event>, h': Handle, c: nat)
    requires Stranded(h, c) && Reaches(h, es, h')
    ensures Stranded(h', c)
    decreases |es|
  {
    if es != [] {
      RequestAfterEofIsNotCovered(Step(h, es[0]), es[1..], h', c);
    }
  }

  /** The input: on a backend without a timeout, a request issued after the
      reader ended is written out, waits, and is stranded. */
  lemma StrandedIsReached(id: string) returns (h: Handle)
    ensures Reaches(Fresh(id, false, None), [Eof, Mint, Register(0), Written(0)], h)
    ensures Stranded(h, 0) && h.calls[0].stage.Waiting?
  {
    var h1 := Step(Fresh(id, false, None), Eof);
    var h2 := Step(h1, Mint);
    var h3 := Step(h2, Register(0));
    h := Step(h3, Written(0));
    assert Reaches(h, [], h);
    ReachesVia(h3, Written(0), [], h);
    ReachesVia(h2, Register(0), [Written(0)], h);
    ReachesVia(h1, Mint, [Register(0), Written(0)], h);
    ReachesVia(Fresh(id, false, None), Eof, [Mint, Register(0), Written(0)], h);
    assert [Eof] + [Mint, Register(0), Written(0)] == [Eof, Mint, Register(0), Written(0)];
    assert [Mint] + [Register(0), Written(0)] == [Mint, Register(0), Written(0)];
    assert [Register(0)] + [Written(0)] == [Register(0), Written(0)];
    assert [Written(0)] + [] == [Written(0)];
  }

  lemma ReachesVia(h: Handle, e: Event, es: seq<Event>, h': Handle)
    requires Enabled(h, e) && Reaches(Step(h, e), es, h')
    ensures Reaches(h, [e] + es, h')
  {
    assert ([e] + es)[1..] == es;
  }

  /** `request` has returned to its caller with an answer, a timeout or a close. */
  predicate Returned(h: Handle, c: nat) {
    c < |h.calls| && h.calls[c].stage.Done? && !h.calls[c].stage.outcome.SendFailed?
  }

  /** Some continuation brings the request to such an end. */
  ghost predicate CanEnd(h: Handle, c: nat) {
    exists es, h' {:trigger Reaches(h, es, h')} :: Reaches(h, es, h') && Returned(h', c)
  }

  lemma CanEndVia(h: Handle, e: Event, c: nat)
    requires Enabled(h, e) && CanEnd(Step(h, e), c)
    ensures CanEnd(h, c)
  {
    var es, h' :| Reaches(Step(h, e), es, h') && Returned(h', c);
    ReachesVia(h, e, es, h');
  }

  /** A timer, something in the channel, or a timer already fired: each is
      enough to bring a request home. */
  lemma {:induction false} WaysToEnd(h: Handle, c: nat)
    requires c < |h.calls| && !h.calls[c].stage.Done?
    requires h.timed || !h.calls[c].slot.Empty? || h.calls[c].stage.Elapsed?
    ensures CanEnd(h, c)
    decreases match h.calls[c].stage case Minted => 4 case Registered => 3 case Waiting => 2 case _ => 1
  {
    match h.calls[c].stage
    case Minted =>
      WaysToEnd(Step(h, Register(c)), c);
      CanEndVia(h, Register(c), c);
    case Registered =>
      WaysToEnd(Step(h, Written(c)), c);
      CanEndVia(h, Written(c), c);
    case Waiting =>
      if h.calls[c].slot.Empty? {
        WaysToEnd(Step(h, Elapse(c)), c);
        CanEndVia(h, Elapse(c), c);
      } else {
        EndsBy(h, Wake(c, 0.0), c);
      }
    case Elapsed => EndsBy(h, Expire(c, 0.0), c);
  }

  lemma EndsBy(h: Handle, e: Event, c: nat)
    requires Enabled(h, e) && Returned(Step(h, e), c)
    ensures CanEnd(h, c)
  {
    var h' := Step(h, e);
    assert Reaches(h', [], h');
    ReachesVia(h, e, [], h');
  }

  /** The exact condition, once the reader has ended: an unfinished request can
      still return if and only if the backend has a timeout, or its channel was
      filled or closed before, or its timer has fired already. */
  lemma ReturnsAfterEofExactly(h: Handle, c: nat)
    requires h.ended && c < |h.calls| && !h.calls[c].stage.Done?
    ensures CanEnd(h, c) <==> h.timed || !h.calls[c].slot.Empty? || h.calls[c].stage.Elapsed?
  {
    if h.timed || !h.calls[c].slot.Empty? || h.calls[c].stage.Elapsed? {
      WaysToEnd(h, c);
    } else {
      assert Stranded(h, c);
      forall es, h' {:trigger Reaches(h, es, h')} | Reaches(h, es, h') ensures !Returned(h', c) {
        RequestAfterEofIsNotCovered(h, es, h', c);
      }
    }
  }

  /** As a caller sees it: a request issued after the reader ended can return if
      and only if the backend was given a timeout. */
  lemma LateRequestReturnsExactly(h: Handle)
    requires h.ended
    ensures CanEnd(Step(h, Mint), |h.calls|) <==> h.timed
  {
    ReturnsAfterEofExactly(Step(h, Mint), |h.calls|);
  }

  // ---- The shared state itself ----

  /** The request-able state of one backend, updated in place by the route loop,
      the health pinger and the reader task. Each method is one atomic action. */
  class BackendHandle {
    const id: string
    const timed: bool
    const breaker: Breaker.CircuitBreaker?
    var nextId: nat
    var pending: map<string, nat>
    var calls: seq<Call>
    var ended: bool
    ghost var ops: seq<Breaker.Op>
    ghost var startup: nat

    ghost function State(): Handle
      reads this, breaker
    {
      Handle(id, nextId, pending, calls, timed, ended,
             if breaker == null then None else Some(breaker.Fields()), ops, startup)
    }

    /** The step is one the state allows. */
    ghost predicate Can(e: Event)
      reads this, breaker
    {
      Enabled(State(), e)
    }

    constructor (id: string, timed: bool, breaker: Breaker.CircuitBreaker?)
      ensures this.breaker == breaker
      ensures State() == Fresh(id, timed, if breaker == null then None else Some(breaker.Fields()))
    {
      this.id, this.timed, this.breaker := id, timed, breaker;
      nextId, pending, calls, ended := 0, map[], [], false;
      ops, startup := [], 0;
    }

    method FetchId() returns (n: nat)
      modifies this
      ensures State() == Step(old(State()), Mint)
      ensures n == old(nextId)
    {
      n := nextId;
      nextId := nextId + 1;
      calls := calls + [Call(Minted, Empty)];
    }

    method InsertPending(n: nat)
      requires Can(Register(n))
      modifies this
      ensures State() == Step(old(State()), Register(n))
    {
      pending := pending[Mid(id, n) := n];
      calls := calls[n := calls[n].(stage := Registered)];
    }

    /** The frame was written, or the write failed and `request` returned early:
        the entry stays behind and the breaker is not told. */
    method Sent(n: nat, ok: bool)
      requires Can(Written(n))
      modifies this
      ensures State() == Step(old(State()), if ok then Written(n) else WriteFailed(n))
    {
      calls := calls[n := calls[n].(stage := if ok then Waiting else Done(SendFailed))];
    }

    /** The reader's lookup: true when `message` was taken as a reply. */
    method TakeReply(message: Json) returns (taken: bool)
      requires Can(Receive(message))
      modifies this
      ensures State() == Step(old(State()), Receive(message))
      ensures taken == Responds(old(State()), message)
    {
      var key := GetStr(message, "id");
      taken := key.Some? && key.value in pending;
      if taken {
        var c := pending[key.value];
        pending := pending - {key.value};
        calls := calls[c := Offer(calls[c], message)];
      }
    }

    method TimerFired(n: nat)
      requires Can(Elapse(n))
      modifies this
      ensures State() == Step(old(State()), Elapse(n))
    {
      calls := calls[n := calls[n].(stage := Elapsed)];
    }

    method GiveUp(n: nat, now: real)
      requires Can(Expire(n, now))
      modifies this, breaker
      ensures State() == Step(old(State()), Expire(n, now))
    {
      pending := pending - {Mid(id, n)};
      calls := calls[n := calls[n].(stage := Done(TimedOut))];
      if breaker != null {
        breaker.RecordFailure(now);
        ops := ops + [Breaker.Failure(now)];
      }
    }

    method Resume(n: nat, now: real) returns (outcome: Outcome)
      requires Can(Wake(n, now))
      modifies this, breaker
      ensures State() == Step(old(State()), Wake(n, now))
      ensures calls[n].stage == Done(outcome)
    {
      outcome := if calls[n].slot.Filled? then Answered(calls[n].slot.message) else Closed;
      calls := calls[n := calls[n].(stage := Done(outcome))];
      if breaker != null {
        if outcome.Answered? {
          breaker.RecordSuccess();
          ops := ops + [Breaker.Success];
        } else {
          breaker.RecordFailure(now);
          ops := ops + [Breaker.Failure(now)];
        }
      }
    }

    method ReaderEnded()
      requires Can(Eof)
      modifies this
      ensures State() == Step(old(State()), Eof)
    {
      ended := true;
      var held := pending.Values;
      var was := calls;
      calls := seq(|was|, i requires 0 <= i < |was| => if i in held then Hangup(was[i]) else was[i]);
      pending := map[];
    }

    method Available(now: real) returns (ok: bool)
      modifies this, breaker
      ensures State() == Step(old(State()), Probe(now))
      ensures ok == (old(State()).breaker.Some? ==> Breaker.Allow(old(State()).breaker.value, now))
    {
      ok := true;
      if breaker != null {
        ok := breaker.Allows(now);
        ops := ops + [Breaker.Query(now)];
      }
    }
  }
}
