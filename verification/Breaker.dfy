/** The per-backend circuit breaker. Its lazy three-state machine is proved to
    answer exactly what a query over the plain history of outcomes answers. */
module Breaker {

  datatype CircuitState = Closed | Open | HalfOpen

  /** The breaker's fields. */
  datatype Cell = Cell(threshold: nat, reset: real, state: CircuitState, failures: nat, openedAt: real)

  function Fresh(threshold: nat, reset: real): Cell {
    Cell(threshold, reset, Closed, 0, 0.0)
  }

  function Poll(c: Cell, now: real): Cell {
    if c.state.Open? && now - c.openedAt >= c.reset then c.(state := HalfOpen) else c
  }

  predicate Allow(c: Cell, now: real) {
    !Poll(c, now).state.Open?
  }

  function Succeed(c: Cell): Cell {
    c.(failures := 0, state := Closed)
  }

  function Trip(c: Cell, now: real): Cell {
    c.(state := Open, openedAt := now, failures := c.threshold)
  }

  function Fail(c: Cell, now: real): Cell {
    var p := Poll(c, now);
    if p.state.HalfOpen? then Trip(p, now)
    else if p.failures + 1 >= p.threshold then Trip(p, now)
    else p.(failures := p.failures + 1)
  }

  class CircuitBreaker {
    const threshold: nat
    const reset: real
    var state: CircuitState
    var failures: nat
    var openedAt: real

    function Fields(): Cell
      reads this
    {
      Cell(threshold, reset, state, failures, openedAt)
    }

    constructor (threshold: nat, reset: real)
      ensures Fields() == Fresh(threshold, reset)
    {
      this.threshold := threshold;
      this.reset := reset;
      state, failures, openedAt := Closed, 0, 0.0;
    }

    method State(now: real) returns (s: CircuitState)
      modifies this
      ensures Fields() == Poll(old(Fields()), now)
      ensures s == Fields().state
    {
      if state == Open && now - openedAt >= reset {
        state := HalfOpen;
      }
      s := state;
    }

    method Allows(now: real) returns (ok: bool)
      modifies this
      ensures Fields() == Poll(old(Fields()), now)
      ensures ok == Allow(old(Fields()), now)
    {
      var s := State(now);
      ok := s != Open;
    }

    method RecordSuccess()
      modifies this
      ensures Fields() == Succeed(old(Fields()))
    {
      failures := 0;
      state := Closed;
    }

    method RecordFailure(now: real)
      modifies this
      ensures Fields() == Fail(old(Fields()), now)
    {
      var s := State(now);
      if s == HalfOpen {
        TripAt(now);
        return;
      }
      failures := failures + 1;
      if failures >= threshold {
        TripAt(now);
      }
    }

    method TripAt(now: real)
      modifies this
      ensures Fields() == Trip(old(Fields()), now)
    {
      state := Open;
      openedAt := now;
      failures := threshold;
    }
  }

  // ---- The history a breaker refines ----

  datatype Op = Query(at: real) | Success | Failure(at: real)

  function Apply(c: Cell, op: Op): Cell {
    match op
    case Query(at) => Poll(c, at)
    case Success => Succeed(c)
    case Failure(at) => Fail(c, at)
  }

  function Run(c: Cell, ops: seq<Op>): Cell {
    if ops == [] then c else Apply(Run(c, ops[..|ops| - 1]), ops[|ops| - 1])
  }

  /** Failures recorded after the last success. */
  function Streak(ops: seq<Op>): nat {
    if ops == [] then 0
    else match ops[|ops| - 1]
      case Query(_) => Streak(ops[..|ops| - 1])
      case Success => 0
      case Failure(_) => Streak(ops[..|ops| - 1]) + 1
  }

  /** The time of the latest failure, 0 when there was none. */
  function LastFailure(ops: seq<Op>): real {
    if ops == [] then 0.0
    else match ops[|ops| - 1]
      case Failure(at) => at
      case _ => LastFailure(ops[..|ops| - 1])
  }

  /** What availability means, read off the history alone. */
  predicate HistoryAllows(ops: seq<Op>, threshold: nat, reset: real, now: real) {
    || Streak(ops) == 0
    || Streak(ops) < threshold
    || now - LastFailure(ops) >= reset
  }

  /** Every clock reading in `ops` is at most `now`, and they never go back. */
  ghost predicate OrderedUpTo(ops: seq<Op>, now: real) {
    ops == [] ||
    match ops[|ops| - 1]
    case Success => OrderedUpTo(ops[..|ops| - 1], now)
    case Query(at) => at <= now && OrderedUpTo(ops[..|ops| - 1], at)
    case Failure(at) => at <= now && OrderedUpTo(ops[..|ops| - 1], at)
  }

  lemma {:induction false} OrderedLater(ops: seq<Op>, now: real, later: real)
    requires OrderedUpTo(ops, now) && now <= later
    ensures OrderedUpTo(ops, later)
  {
    if ops != [] && ops[|ops| - 1].Success? {
      OrderedLater(ops[..|ops| - 1], now, later);
    }
  }

  ghost predicate Tracks(c: Cell, ops: seq<Op>, threshold: nat, reset: real, now: real) {
    && c.threshold == threshold && c.reset == reset
    && if Streak(ops) == 0 || Streak(ops) < threshold
       then c.state.Closed? && c.failures == Streak(ops)
       else && c.failures == threshold
            && c.openedAt == LastFailure(ops)
            && !c.state.Closed?
            && (c.state.HalfOpen? ==> now - c.openedAt >= reset)
  }

  lemma {:induction false} RunTracks(ops: seq<Op>, threshold: nat, reset: real, now: real)
    requires OrderedUpTo(ops, now)
    ensures Tracks(Run(Fresh(threshold, reset), ops), ops, threshold, reset, now)
  {
    if ops != [] {
      var rest := ops[..|ops| - 1];
      match ops[|ops| - 1]
      case Success => RunTracks(rest, threshold, reset, now);
      case Query(at) => RunTracks(rest, threshold, reset, at);
      case Failure(at) => RunTracks(rest, threshold, reset, at);
    }
  }

  /** Whatever mix of queries, successes and failures a breaker has seen, at
      nondecreasing times, its answer is the history's answer. */
  lemma AllowIsHistory(ops: seq<Op>, threshold: nat, reset: real, now: real)
    requires OrderedUpTo(ops, now)
    ensures Allow(Run(Fresh(threshold, reset), ops), now) <==> HistoryAllows(ops, threshold, reset, now)
  {
    RunTracks(ops, threshold, reset, now);
  }

  /** The state itself is the history's: closed while the failures since the last
      success are below the threshold (or none), then open until `reset` has passed
      since the last of them, and half-open from then on. */
  lemma StateIsHistory(ops: seq<Op>, threshold: nat, reset: real, now: real)
    requires OrderedUpTo(ops, now)
    ensures Poll(Run(Fresh(threshold, reset), ops), now).state ==
      if Streak(ops) == 0 || Streak(ops) < threshold then Closed
      else if now - LastFailure(ops) >= reset then HalfOpen
      else Open
  {
    RunTracks(ops, threshold, reset, now);
  }

  function WithoutQueries(ops: seq<Op>): seq<Op> {
    if ops == [] then []
    else if ops[|ops| - 1].Query? then WithoutQueries(ops[..|ops| - 1])
    else WithoutQueries(ops[..|ops| - 1]) + [ops[|ops| - 1]]
  }

  lemma {:induction false} WithoutQueriesSame(ops: seq<Op>, now: real)
    requires OrderedUpTo(ops, now)
    ensures Streak(WithoutQueries(ops)) == Streak(ops)
    ensures LastFailure(WithoutQueries(ops)) == LastFailure(ops)
    ensures OrderedUpTo(WithoutQueries(ops), now)
  {
    if ops != [] {
      var rest := ops[..|ops| - 1];
      var last := ops[|ops| - 1];
      WithoutQueriesSame(rest, if last.Success? then now else last.at);
      if last.Query? {
        OrderedLater(WithoutQueries(rest), last.at, now);
      } else {
        assert (WithoutQueries(rest) + [last])[..|WithoutQueries(rest)|] == WithoutQueries(rest);
      }
    }
  }

  /** Asking for the state, which may move Open to HalfOpen, never changes a
      later answer. */
  lemma QueriesAreInvisible(ops: seq<Op>, threshold: nat, reset: real, now: real)
    requires OrderedUpTo(ops, now)
    ensures Allow(Run(Fresh(threshold, reset), ops), now)
         == Allow(Run(Fresh(threshold, reset), WithoutQueries(ops)), now)
  {
    WithoutQueriesSame(ops, now);
    AllowIsHistory(ops, threshold, reset, now);
    AllowIsHistory(WithoutQueries(ops), threshold, reset, now);
  }

  /** Time going backwards breaks the law: the half-open state a late query
      left behind still answers yes at an earlier time. */
  lemma ClockMustNotGoBack()
    ensures var ops := [Failure(0.0), Query(10.0)];
            && Allow(Run(Fresh(1, 10.0), ops), 5.0)
            && !HistoryAllows(ops, 1, 10.0, 5.0)
  {
    var ops := [Failure(0.0), Query(10.0)];
    assert ops[..1] == [Failure(0.0)];
    assert [Failure(0.0)][..0] == [];
    assert Run(Fresh(1, 10.0), []) == Fresh(1, 10.0);
    assert Run(Fresh(1, 10.0), [Failure(0.0)]) == Apply(Fresh(1, 10.0), Failure(0.0));
    assert Streak([Failure(0.0)]) == 1;
  }
}
