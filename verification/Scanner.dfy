/** The content scanner: each block's payload goes to the bridge, rewrites are
    written back one after another through the paths of the original message,
    and the first deny or quarantine ends the scan. */
module Scanner {
  import opened Prelude
  import opened JsonValue
  import opened JsonPath
  import opened Content
  import Filters
  import Base64
  import Hex

  type Provenance = map<string, Json>

  /** Text encoding, and the bridge's answer for the block at a position. */
  datatype Env = Env(utf8: string -> seq<byte>, lossy: seq<byte> -> string, scan: (nat, seq<byte>) -> Json)

  function Payload(env: Env, b: Block): Option<seq<byte>> {
    if b.bytes.Str? then Some(Hex.Lenient(b.bytes.s))
    else if b.text.Str? then Some(env.utf8(b.text.s))
    else None
  }

  function ApplyMutation(env: Env, message: Json, b: Block, hex: string): Json {
    var bytes := Hex.Lenient(hex);
    if !b.bytes.Null? then SetBytes(message, b.path, bytes) else SetText(message, b.path, env.lossy(bytes))
  }

  /** Merge provenance into `_meta` of the result, or of `params` without one. */
  function Annotate(message: Json, provenance: Provenance): Json {
    if !message.Obj? then message
    else
      var key := if Index(message, "result").Obj? then "result" else "params";
      var held := Index(message, key);
      var holder := if held.Obj? then held.fields else map[];
      var meta := if "_meta" in holder && holder["_meta"].Obj? then holder["_meta"].fields else map[];
      Obj(message.fields[key := Obj(holder["_meta" := Obj(meta + provenance)])])
  }

  function NewBytes(verdict: Json): Option<string> {
    if Filters.KindOf(verdict) == Filters.MUTATE then GetStr(verdict, "bytes") else None
  }

  function NewProvenance(verdict: Json): Provenance {
    var given := Index(verdict, "provenance");
    if given.Obj? then given.fields else map[]
  }

  /** The answer for block `k`; a block without a payload is never sent. */
  function Answer(env: Env, bs: seq<Block>, k: nat): Json
    requires k < |bs|
  {
    var payload := Payload(env, bs[k]);
    if payload.Some? then env.scan(k, payload.value) else Null
  }

  /** The scan's locals after some blocks, or its outcome. */
  datatype Progress = Going(working: Json, provenance: Provenance) | Done(outcome: Json)

  function Turn(env: Env, message: Json, bs: seq<Block>, k: nat, p: Progress): Progress
    requires k < |bs|
  {
    if p.Done? || Payload(env, bs[k]).None? then p
    else
      var verdict := Answer(env, bs, k);
      if Filters.Stops(verdict) then Done(Filters.Blocked(message, verdict))
      else
        var hex := NewBytes(verdict);
        var working := if hex.Some? then ApplyMutation(env, p.working, bs[k], hex.value) else p.working;
        Going(working, p.provenance + NewProvenance(verdict))
  }

  function After(env: Env, message: Json, bs: seq<Block>, n: nat): Progress
    requires n <= |bs|
  {
    if n == 0 then Going(message, map[]) else Turn(env, message, bs, n - 1, After(env, message, bs, n - 1))
  }

  function Finish(p: Progress): Json {
    match p
    case Done(outcome) => outcome
    case Going(working, provenance) =>
      Filters.Forward(if provenance == map[] then working else Annotate(working, provenance))
  }

  function Scan(env: Env, message: Json): Json {
    Finish(After(env, message, Blocks(message), |Blocks(message)|))
  }

  /** A block that stopped the scan stays the outcome whatever follows. */
  lemma {:induction false} DoneStays(env: Env, message: Json, bs: seq<Block>, j: nat, n: nat)
    requires j <= n <= |bs| && After(env, message, bs, j).Done?
    ensures After(env, message, bs, n) == After(env, message, bs, j)
  {
    for m := j to n
      invariant After(env, message, bs, m) == After(env, message, bs, j)
    {
    }
  }

  /** One turn of the loop, from its locals. */
  lemma TurnFrom(env: Env, message: Json, bs: seq<Block>, k: nat, working: Json, provenance: Provenance)
    requires k < |bs| && After(env, message, bs, k) == Going(working, provenance)
    ensures After(env, message, bs, k + 1) ==
      if Payload(env, bs[k]).None? then Going(working, provenance)
      else
        var verdict := env.scan(k, Payload(env, bs[k]).value);
        var hex := NewBytes(verdict);
        if Filters.Stops(verdict) then Done(Filters.Blocked(message, verdict))
        else Going(if hex.Some? then ApplyMutation(env, working, bs[k], hex.value) else working,
                   provenance + NewProvenance(verdict))
  {
  }

  method ScanLoop(env: Env, message: Json) returns (outcome: Json)
    ensures outcome == Scan(env, message)
  {
    var blocks := BlocksLoop(message);
    var working := message;
    var provenance: Provenance := map[];
    for k := 0 to |blocks|
      invariant After(env, message, blocks, k) == Going(working, provenance)
    {
      TurnFrom(env, message, blocks, k, working, provenance);
      var payload := Payload(env, blocks[k]);
      if payload.Some? {
        var verdict := env.scan(k, payload.value);
        if Filters.Stops(verdict) {
          DoneStays(env, message, blocks, k + 1, |blocks|);
          return Filters.Blocked(message, verdict);
        }
        if NewBytes(verdict).Some? {
          working := ApplyMutation(env, working, blocks[k], NewBytes(verdict).value);
        }
        provenance := provenance + NewProvenance(verdict);
      }
    }
    if provenance != map[] {
      working := Annotate(working, provenance);
    }
    return Filters.Forward(working);
  }

  // ---- When a scan blocks ----

  lemma {:induction false} GoingExactly(env: Env, message: Json, bs: seq<Block>, n: nat)
    requires n <= |bs|
    ensures After(env, message, bs, n).Going? <==> forall k :: 0 <= k < n ==> !Filters.Stops(Answer(env, bs, k))
  {
    for m := 0 to n
      invariant After(env, message, bs, m).Going? <==> forall k :: 0 <= k < m ==> !Filters.Stops(Answer(env, bs, k))
    {
      assert Payload(env, bs[m]).None? ==> !Filters.Stops(Answer(env, bs, m));
    }
  }

  ghost predicate FirstStop(env: Env, bs: seq<Block>, k: nat)
    requires k < |bs|
  {
    Filters.Stops(Answer(env, bs, k)) && forall j :: 0 <= j < k ==> !Filters.Stops(Answer(env, bs, j))
  }

  lemma FirstStopDecides(env: Env, message: Json, k: nat)
    requires k < |Blocks(message)| && FirstStop(env, Blocks(message), k)
    ensures Scan(env, message) == Filters.Blocked(message, Answer(env, Blocks(message), k))
  {
    var bs := Blocks(message);
    GoingExactly(env, message, bs, k);
    DoneStays(env, message, bs, k + 1, |bs|);
  }

  /** The first deny or quarantine is the outcome, and nothing else blocks. */
  lemma ScanBlocksExactly(env: Env, message: Json)
    ensures var bs := Blocks(message);
      && ((forall k :: 0 <= k < |bs| ==> !Filters.Stops(Answer(env, bs, k))) <==>
        Get(Scan(env, message), "message").Some?)
      && forall k :: 0 <= k < |bs| && FirstStop(env, bs, k) ==>
        Scan(env, message) == Filters.Blocked(message, Answer(env, bs, k))
  {
    var bs := Blocks(message);
    GoingExactly(env, message, bs, |bs|);
    DoneIsBlock(env, message, bs, |bs|);
    forall k | 0 <= k < |bs| && FirstStop(env, bs, k)
      ensures Scan(env, message) == Filters.Blocked(message, Answer(env, bs, k))
    {
      FirstStopDecides(env, message, k);
    }
  }

  lemma {:induction false} DoneIsBlock(env: Env, message: Json, bs: seq<Block>, n: nat)
    requires n <= |bs|
    ensures After(env, message, bs, n).Done? ==> Get(After(env, message, bs, n).outcome, "message").None?
  {
    for m := 0 to n
      invariant After(env, message, bs, m).Done? ==> Get(After(env, message, bs, m).outcome, "message").None?
    {
    }
  }

  // ---- What a scan that forwards rewrites ----

  /** Block `k` is rewritten: it was sent, and the answer carries new bytes. */
  predicate Rewrites(env: Env, bs: seq<Block>, k: nat)
    requires k < |bs|
  {
    Payload(env, bs[k]).Some? && NewBytes(Answer(env, bs, k)).Some?
  }

  /** Binary blocks read back the new bytes in hex, text blocks their lossy text. */
  function Rewritten(env: Env, bs: seq<Block>, k: nat): Block
    requires k < |bs|
  {
    if !Rewrites(env, bs, k) then bs[k]
    else
      var bytes := Hex.Lenient(NewBytes(Answer(env, bs, k)).value);
      if bs[k].bytes.Str? then bs[k].(bytes := Str(Hex.ToHex(bytes))) else bs[k].(text := Str(env.lossy(bytes)))
  }

  /** The blocks part way: the first `n` may be rewritten, the rest are original. */
  function Upto(env: Env, bs: seq<Block>, n: nat): seq<Block>
    requires n <= |bs|
  {
    seq(|bs|, k requires 0 <= k < |bs| => if k < n then Rewritten(env, bs, k) else bs[k])
  }

  /** Provenance of the first `n` blocks; a later block wins a key. */
  function Gathered(env: Env, bs: seq<Block>, n: nat): Provenance
    requires n <= |bs|
  {
    if n == 0 then map[] else Gathered(env, bs, n - 1) + NewProvenance(Answer(env, bs, n - 1))
  }

  lemma MutationIsRead(env: Env, message: Json, bs: seq<Block>, k: nat)
    requires k < |bs| == |Blocks(message)| && Blocks(message)[k] == bs[k] && Rewrites(env, bs, k)
    ensures var hex := NewBytes(Answer(env, bs, k)).value;
      Blocks(ApplyMutation(env, message, bs[k], hex)) == Blocks(message)[k := Rewritten(env, bs, k)]
  {
    var bytes := Hex.Lenient(NewBytes(Answer(env, bs, k)).value);
    BlockForms(message, k);
    if bs[k].bytes.Str? {
      WriteThroughPath(message, k, Base64.Encode(bytes));
      BytesFieldOfEncoded(bytes);
    } else {
      WriteThroughPath(message, k, env.lossy(bytes));
    }
  }

  /** Nodes at or below a slot that one of the first `n` blocks rewrote. */
  ghost predicate Touched(env: Env, bs: seq<Block>, n: nat, at: Path)
    requires n <= |bs|
  {
    exists k :: 0 <= k < n && Rewrites(env, bs, k) && bs[k].path <= at
  }

  /** The loop's invariant: paths taken from the original message still lead to
      the same blocks after the earlier rewrites, and nothing else moved. */
  ghost predicate InStep(env: Env, message: Json, bs: seq<Block>, n: nat)
    requires n <= |bs|
  {
    var p := After(env, message, bs, n);
    && p.Going?
    && Blocks(p.working) == Upto(env, bs, n)
    && p.provenance == Gathered(env, bs, n)
    && forall at {:trigger Sees(p.working, at)} :: !Touched(env, bs, n, at) ==> Sees(p.working, at) == Sees(message, at)
  }

  lemma StepWithout(env: Env, message: Json, bs: seq<Block>, n: nat)
    requires n < |bs| && InStep(env, message, bs, n)
    requires !Filters.Stops(Answer(env, bs, n)) && !Rewrites(env, bs, n)
    ensures InStep(env, message, bs, n + 1)
  {
    var p, q := After(env, message, bs, n), After(env, message, bs, n + 1);
    assert q.working == p.working;
    assert Upto(env, bs, n + 1) == Upto(env, bs, n);
    assert q.provenance == p.provenance + NewProvenance(Answer(env, bs, n)) by {
      assert p.provenance + map[] == p.provenance;
    }
    forall at | !Touched(env, bs, n + 1, at) ensures !Touched(env, bs, n, at) {
    }
  }

  lemma StepWith(env: Env, message: Json, bs: seq<Block>, n: nat)
    requires n < |bs| && InStep(env, message, bs, n)
    requires !Filters.Stops(Answer(env, bs, n)) && Rewrites(env, bs, n)
    ensures InStep(env, message, bs, n + 1)
  {
    var p, q := After(env, message, bs, n), After(env, message, bs, n + 1);
    var hex := NewBytes(Answer(env, bs, n)).value;
    assert q.working == ApplyMutation(env, p.working, bs[n], hex);
    MutationIsRead(env, p.working, bs, n);
    assert Upto(env, bs, n)[n := Rewritten(env, bs, n)] == Upto(env, bs, n + 1);
    forall at | !Touched(env, bs, n + 1, at) ensures Sees(q.working, at) == Sees(message, at) {
      assert !(bs[n].path <= at);
      assert !Touched(env, bs, n, at);
      MutationFrame(env, p.working, bs[n], hex, at);
    }
  }

  lemma MutationFrame(env: Env, working: Json, b: Block, hex: string, at: Path)
    requires !(b.path <= at)
    ensures Sees(ApplyMutation(env, working, b, hex), at) == Sees(working, at)
  {
    var bytes := Hex.Lenient(hex);
    SetFrame(working, b.path, Str(Base64.Encode(bytes)), at);
    SetFrame(working, b.path, Str(env.lossy(bytes)), at);
  }

  lemma NextInStep(env: Env, message: Json, bs: seq<Block>, n: nat)
    requires 0 < n <= |bs| && InStep(env, message, bs, n - 1) && !Filters.Stops(Answer(env, bs, n - 1))
    ensures InStep(env, message, bs, n)
  {
    if Rewrites(env, bs, n - 1) {
      StepWith(env, message, bs, n - 1);
    } else {
      StepWithout(env, message, bs, n - 1);
    }
  }

  lemma StartsInStep(env: Env, message: Json)
    ensures InStep(env, message, Blocks(message), 0)
  {
    assert Upto(env, Blocks(message), 0) == Blocks(message);
  }

  lemma {:induction false} InStepUpTo(env: Env, message: Json, bs: seq<Block>, n: nat)
    requires bs == Blocks(message) && n <= |bs| && forall k :: 0 <= k < n ==> !Filters.Stops(Answer(env, bs, k))
    ensures InStep(env, message, bs, n)
  {
    if n == 0 {
      StartsInStep(env, message);
    } else {
      InStepUpTo(env, message, bs, n - 1);
      NextInStep(env, message, bs, n);
    }
  }

  lemma StaysInStep(env: Env, message: Json, bs: seq<Block>)
    requires bs == Blocks(message) && forall k :: 0 <= k < |bs| ==> !Filters.Stops(Answer(env, bs, k))
    ensures InStep(env, message, bs, |bs|)
  {
    InStepUpTo(env, message, bs, |bs|);
  }

  // ---- Annotation ----

  const RESULT: Path := [Key("result")]
  const META: Path := [Key("result"), Key("_meta")]

  lemma AnnotateFrame(message: Json, provenance: Provenance, at: Path)
    requires Index(message, "result").Obj? && at != RESULT && !(META <= at)
    ensures Sees(Annotate(message, provenance), at) == Sees(message, at)
  {
    var noted := Annotate(message, provenance);
    if at != [] && at[0] == Key("result") {
      var r, r', tail := Index(message, "result"), Index(noted, "result"), at[1..];
      assert at == [at[0]] + tail;
      assert tail[0] == at[1] && at[..2] == [at[0], at[1]];
      assert At(message, at) == At(r, tail) && At(noted, at) == At(r', tail);
      assert At(r', tail) == At(r, tail);
    }
  }

  lemma AnnotateKeepsBlocks(message: Json, provenance: Provenance)
    requires Index(message, "result").Obj?
    ensures Blocks(Annotate(message, provenance)) == Blocks(message)
  {
    assert ItemsOf(Annotate(message, provenance), "content") == ItemsOf(message, "content");
    assert ItemsOf(Annotate(message, provenance), "contents") == ItemsOf(message, "contents");
  }

  lemma {:induction false} ProvenanceNeedsPayload(env: Env, bs: seq<Block>, n: nat) returns (k: nat)
    requires n <= |bs| && Gathered(env, bs, n) != map[]
    ensures k < n && Payload(env, bs[k]).Some?
  {
    if Payload(env, bs[n - 1]).Some? {
      k := n - 1;
    } else {
      assert Gathered(env, bs, n - 1) + map[] == Gathered(env, bs, n - 1);
      k := ProvenanceNeedsPayload(env, bs, n - 1);
    }
  }

  lemma SeesResult(v: Json)
    ensures Sees(v, RESULT) == if v.Obj? && "result" in v.fields then Face(v.fields["result"]) else Missing
  {
    assert RESULT[1..] == [] && RESULT[0] == Key("result");
    if v.Obj? && "result" in v.fields {
      assert At(v, RESULT) == At(v.fields["result"], []) == Some(v.fields["result"]);
    }
  }

  lemma ResultStays(message: Json, working: Json)
    requires Sees(working, RESULT) == Sees(message, RESULT)
    requires Index(message, "result").Obj?
    ensures Index(working, "result").Obj? && Face(Index(working, "result")) == Face(Index(message, "result"))
  {
    SeesResult(message);
    SeesResult(working);
  }

  lemma {:induction false} PathsAreDeep(f: (nat, Json) -> seq<Block>, items: seq<Json>, n: nat)
    requires n <= |items|
    requires forall i: nat, v {:trigger f(i, v)} :: |f(i, v)| <= 1 && forall b :: b in f(i, v) ==> |b.path| >= 3
    ensures forall b :: b in Gather(f, items, n) ==> |b.path| >= 3
  {
    if n > 0 { PathsAreDeep(f, items, n - 1); }
  }

  lemma RewrittenPathsAreDeep(message: Json, k: nat)
    requires k < |Blocks(message)|
    ensures |Blocks(message)[k].path| >= 3
  {
    PathsAreDeep(ContentBlock, ItemsOf(message, "content"), |ItemsOf(message, "content")|);
    PathsAreDeep(ResourceBlock, ItemsOf(message, "contents"), |ItemsOf(message, "contents")|);
    assert Blocks(message)[k] in Blocks(message);
  }

  lemma ResultUntouched(env: Env, message: Json, n: nat)
    requires n <= |Blocks(message)|
    ensures !Touched(env, Blocks(message), n, RESULT)
  {
    forall k | 0 <= k < |Blocks(message)| ensures |Blocks(message)[k].path| >= 3 {
      RewrittenPathsAreDeep(message, k);
    }
  }

  /** The frame law. A scan that forwards leaves a message whose blocks are the
      original ones with exactly the rewritten payloads replaced, whose tree
      looks as it did at every node outside the rewritten slots and, when there
      is provenance, outside the result's `_meta`. */
  lemma ScanFrame(env: Env, message: Json)
    requires forall k :: 0 <= k < |Blocks(message)| ==> !Filters.Stops(Answer(env, Blocks(message), k))
    ensures var bs := Blocks(message);
      var n := |bs|;
      var told := Gathered(env, bs, n);
      && Get(Scan(env, message), "message").Some?
      && var out := Get(Scan(env, message), "message").value;
        && Blocks(out) == Upto(env, bs, n)
        && (forall at :: !Touched(env, bs, n, at) && (told == map[] || (at != RESULT && !(META <= at))) ==>
              Sees(out, at) == Sees(message, at))
  {
    var bs := Blocks(message);
    var n := |bs|;
    StaysInStep(env, message, bs);
    var working, told := After(env, message, bs, n).working, Gathered(env, bs, n);
    if told != map[] {
      var k := ProvenanceNeedsPayload(env, bs, n);
      BlockForms(message, k);
      ResultUntouched(env, message, n);
      ResultStays(message, working);
      AnnotateKeepsBlocks(working, told);
      forall at | !Touched(env, bs, n, at) && at != RESULT && !(META <= at)
        ensures Sees(Annotate(working, told), at) == Sees(message, at)
      {
        AnnotateFrame(working, told, at);
      }
    }
  }

  lemma AnnotateAdds(working: Json, told: Provenance)
    requires Index(working, "result").Obj?
    ensures var after := Index(Annotate(working, told), "result");
      && after.Obj?
      && after.fields.Keys == Index(working, "result").fields.Keys + {"_meta"}
      && after.fields["_meta"].Obj?
      && forall key :: key in told ==>
        key in after.fields["_meta"].fields && after.fields["_meta"].fields[key] == told[key]
  {
  }

  /** With provenance, the result's `_meta` gains it and `result` gains no other key. */
  lemma ScanProvenance(env: Env, message: Json)
    requires forall k :: 0 <= k < |Blocks(message)| ==> !Filters.Stops(Answer(env, Blocks(message), k))
    requires Gathered(env, Blocks(message), |Blocks(message)|) != map[]
    ensures var out := Index(Scan(env, message), "message");
      var before, after := Index(message, "result"), Index(out, "result");
      && before.Obj? && after.Obj?
      && after.fields.Keys == before.fields.Keys + {"_meta"}
      && after.fields["_meta"].Obj?
      && var (told, meta) := (Gathered(env, Blocks(message), |Blocks(message)|), after.fields["_meta"].fields);
        forall key :: key in told ==> key in meta && meta[key] == told[key]
  {
    var bs := Blocks(message);
    var n := |bs|;
    StaysInStep(env, message, bs);
    var working := After(env, message, bs, n).working;
    var k := ProvenanceNeedsPayload(env, bs, n);
    BlockForms(message, k);
    ResultUntouched(env, message, n);
    assert Sees(working, RESULT) == Sees(message, RESULT);
    ResultStays(message, working);
    AnnotateAdds(working, Gathered(env, bs, n));
  }

  /** A second scan is sent exactly what the first one wrote. */
  lemma RewriteIsRescanned(env: Env, message: Json, k: nat, bytes: seq<byte>)
    requires k < |Blocks(message)| && Rewrites(env, Blocks(message), k)
    requires NewBytes(Answer(env, Blocks(message), k)) == Some(Hex.ToHex(bytes))
    ensures Payload(env, Rewritten(env, Blocks(message), k)) ==
      Some(if Blocks(message)[k].bytes.Str? then bytes else env.utf8(env.lossy(bytes)))
  {
    Hex.HexRoundTrip(bytes);
    BlockForms(message, k);
  }
}
