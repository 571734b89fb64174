/** Two ways to fold a list of verdicts into a message: as they come, stopping at
    the first that ends the chain, and afterwards from the collected list. */
module Folds {
  import opened Prelude
  import opened JsonValue

  /** Stage `i` may have something to say of the message it is shown. */
  datatype Machine = Machine(
    size: nat,
    start: Json,
    cares: nat -> bool,
    says: (nat, Json) -> Json,
    apply: (Json, Json) -> Json,
    stops: Json -> bool)

  datatype Result = Stopped(verdict: Json) | Passed(message: Json)

  // ---- From the collected list ----

  /** The message after the first `n` verdicts. */
  function Fold(apply: (Json, Json) -> Json, verdicts: seq<Json>, start: Json, n: nat): Json
    requires n <= |verdicts|
  {
    if n == 0 then start else apply(verdicts[n - 1], Fold(apply, verdicts, start, n - 1))
  }

  /** The first stopping verdict at or after `from`, or the length. */
  function FirstStop(stops: Json -> bool, verdicts: seq<Json>, from: nat): (k: nat)
    requires from <= |verdicts|
    ensures from <= k <= |verdicts| && (k < |verdicts| ==> stops(verdicts[k]))
    ensures forall i :: from <= i < k ==> !stops(verdicts[i])
    decreases |verdicts| - from
  {
    if from == |verdicts| || stops(verdicts[from]) then from else FirstStop(stops, verdicts, from + 1)
  }

  function Decide(apply: (Json, Json) -> Json, stops: Json -> bool, verdicts: seq<Json>, start: Json): Result {
    var k := FirstStop(stops, verdicts, 0);
    if k < |verdicts| then Stopped(verdicts[k]) else Passed(Fold(apply, verdicts, start, k))
  }

  // ---- As they come ----

  /** The message stage `n` is shown when nothing has stopped the chain. */
  function Shown(m: Machine, n: nat): Json {
    if n == 0 then m.start
    else if m.cares(n - 1) then m.apply(m.says(n - 1, Shown(m, n - 1)), Shown(m, n - 1))
    else Shown(m, n - 1)
  }

  /** What stage `n` says of the message it is shown. */
  function Says(m: Machine, n: nat): Json {
    m.says(n, Shown(m, n))
  }

  predicate Halts(m: Machine, n: nat) {
    m.cares(n) && m.stops(Says(m, n))
  }

  ghost predicate Clear(m: Machine, n: nat) {
    forall k: nat {:trigger Halts(m, k)} :: k < n ==> !Halts(m, k)
  }

  /** The first stage at or after `from` that stops the chain, or the size. */
  function FirstHalt(m: Machine, from: nat): (k: nat)
    requires from <= m.size
    ensures from <= k <= m.size && (k < m.size ==> Halts(m, k))
    ensures forall i: nat {:trigger Halts(m, i)} :: from <= i < k ==> !Halts(m, i)
    decreases m.size - from
  {
    if from == m.size || Halts(m, from) then from else FirstHalt(m, from + 1)
  }

  /** The verdicts of the first `n` stages, nothing having stopped the chain. */
  function Pushed(m: Machine, n: nat): seq<Json> {
    if n == 0 then []
    else if m.cares(n - 1) then Pushed(m, n - 1) + [Says(m, n - 1)]
    else Pushed(m, n - 1)
  }

  lemma {:induction false} FoldLocal(apply: (Json, Json) -> Json, a: seq<Json>, b: seq<Json>, start: Json, n: nat)
    requires n <= |a| && n <= |b| && forall i :: 0 <= i < n ==> a[i] == b[i]
    ensures Fold(apply, a, start, n) == Fold(apply, b, start, n)
  {
    if n > 0 { FoldLocal(apply, a, b, start, n - 1); }
  }

  lemma FoldSnoc(apply: (Json, Json) -> Json, verdicts: seq<Json>, v: Json, start: Json)
    ensures Fold(apply, verdicts + [v], start, |verdicts| + 1) == apply(v, Fold(apply, verdicts, start, |verdicts|))
  {
    FoldLocal(apply, verdicts, verdicts + [v], start, |verdicts|);
  }

  lemma FirstStopSnoc(stops: Json -> bool, verdicts: seq<Json>, v: Json)
    requires FirstStop(stops, verdicts, 0) == |verdicts|
    ensures FirstStop(stops, verdicts + [v], 0) == if stops(v) then |verdicts| else |verdicts| + 1
  {
    var all := verdicts + [v];
    assert forall i :: 0 <= i < |verdicts| ==> all[i] == verdicts[i];
    assert all[|verdicts|] == v;
  }

  /** Without a stop, the verdicts pushed so far fold to the message shown next. */
  lemma {:induction false} PushedFolds(m: Machine, n: nat)
    requires Clear(m, n)
    ensures FirstStop(m.stops, Pushed(m, n), 0) == |Pushed(m, n)|
    ensures Fold(m.apply, Pushed(m, n), m.start, |Pushed(m, n)|) == Shown(m, n)
  {
    if n > 0 {
      PushedFolds(m, n - 1);
      if m.cares(n - 1) {
        assert !Halts(m, n - 1);
        FoldSnoc(m.apply, Pushed(m, n - 1), Says(m, n - 1), m.start);
        FirstStopSnoc(m.stops, Pushed(m, n - 1), Says(m, n - 1));
      }
    }
  }

  /** The verdicts a loop ends up with: all, or up to the first that stops it. */
  function Collected(m: Machine): seq<Json> {
    var k := FirstHalt(m, 0);
    Pushed(m, if k < m.size then k + 1 else k)
  }

  /** The two folds agree: deciding from the collected verdicts gives the loop's
      own message when nothing stopped it, and the stopping verdict otherwise. */
  lemma FoldsAgree(m: Machine)
    ensures Decide(m.apply, m.stops, Collected(m), m.start) ==
      if FirstHalt(m, 0) < m.size then Stopped(Says(m, FirstHalt(m, 0))) else Passed(Shown(m, m.size))
  {
    var k := FirstHalt(m, 0);
    PushedFolds(m, k);
    if k < m.size {
      FirstStopSnoc(m.stops, Pushed(m, k), Says(m, k));
      assert Pushed(m, k + 1)[|Pushed(m, k)|] == Says(m, k);
    }
  }
}
