/** Collision strategies over a composed tool surface: keep the best-ranked copy
    of each original name, or rename explicitly. */
module Collision {
  import opened Prelude
  import opened JsonValue

  type Splitter = string -> Option<(string, string)>

  /** What `apply_priority` is configured with. */
  datatype Ranking = Ranking(split: Splitter, priority: seq<string>, field: string)

  /** The rank map built from the priority list: a later duplicate wins. */
  function RankMap(priority: seq<string>): map<string, nat> {
    if priority == [] then map[]
    else RankMap(priority[..|priority| - 1])[priority[|priority| - 1] := |priority| - 1]
  }

  function Labeled(r: Ranking, tool: Json): string {
    OrEmpty(GetStr(tool, r.field))
  }

  function OriginalOf(r: Ranking, tool: Json): string {
    match r.split(Labeled(r, tool))
    case Some((_, original)) => original
    case None => Labeled(r, tool)
  }

  function RankOf(r: Ranking, tool: Json): nat {
    match r.split(Labeled(r, tool))
    case Some((backend, _)) => if backend in RankMap(r.priority) then RankMap(r.priority)[backend] else |r.priority|
    case None => |r.priority|
  }

  /** Where an id stands in the priority list: at its last place there, or behind
      every listed id. */
  ghost predicate StandsAt(priority: seq<string>, id: string, rank: nat) {
    if id in priority then
      rank < |priority| && priority[rank] == id && forall j :: rank < j < |priority| ==> priority[j] != id
    else rank == |priority|
  }

  lemma {:induction false} RankMapStands(priority: seq<string>, id: string)
    ensures id in RankMap(priority) <==> id in priority
    ensures id in RankMap(priority) ==> StandsAt(priority, id, RankMap(priority)[id])
  {
    if priority != [] {
      var n := |priority| - 1;
      RankMapStands(priority[..n], id);
      assert priority == priority[..n] + [priority[n]];
    }
  }

  /** A labelled tool is compared under its original name, by where its backend
      stands; an unlabelled one under its own name, behind every listed backend. */
  lemma RankedByBackend(r: Ranking, tool: Json)
    ensures var text := if GetStr(tool, r.field).Some? then GetStr(tool, r.field).value else "";
      match r.split(text)
      case Some((id, original)) => OriginalOf(r, tool) == original && StandsAt(r.priority, id, RankOf(r, tool))
      case None => OriginalOf(r, tool) == text && RankOf(r, tool) == |r.priority|
  {
    var split := r.split(Labeled(r, tool));
    if split.Some? {
      RankMapStands(r.priority, split.value.0);
    }
  }

  /** A tool with the original name and rank its label gives it. */
  datatype Ranked = Ranked(original: string, rank: nat, tool: Json)

  function Rank(r: Ranking, tool: Json): Ranked {
    Ranked(OriginalOf(r, tool), RankOf(r, tool), tool)
  }

  function View(r: Ranking, tools: seq<Json>): seq<Ranked> {
    seq(|tools|, i requires 0 <= i < |tools| => Rank(r, tools[i]))
  }

  function Tools(xs: seq<Ranked>): seq<Json> {
    seq(|xs|, i requires 0 <= i < |xs| => xs[i].tool)
  }

  // ---- What is kept ----

  predicate Named(xs: seq<Ranked>, o: string) {
    exists i :: 0 <= i < |xs| && xs[i].original == o
  }

  /** Where the entry named `o` stands, `|xs|` when there is none. */
  ghost function Pos(xs: seq<Ranked>, o: string): (k: nat)
    ensures k < |xs| <==> Named(xs, o)
    ensures k < |xs| ==> xs[k].original == o
    ensures k <= |xs|
  {
    if Named(xs, o) then
      var k :| 0 <= k < |xs| && xs[k].original == o;
      k
    else |xs|
  }

  /** One more tool meets the tools kept so far. */
  ghost function Merge(kept: seq<Ranked>, x: Ranked): seq<Ranked> {
    var k := Pos(kept, x.original);
    if k == |kept| then kept + [x]
    else if x.rank < kept[k].rank then kept[k := x]
    else kept
  }

  /** What that meeting discards. */
  ghost function Spill(kept: seq<Ranked>, x: Ranked): seq<Ranked> {
    var k := Pos(kept, x.original);
    if k == |kept| then []
    else if x.rank < kept[k].rank then [kept[k]]
    else [x]
  }

  /** What the first `n` tools leave. */
  ghost function Keep(xs: seq<Ranked>, n: nat): seq<Ranked>
    requires n <= |xs|
  {
    if n == 0 then [] else Merge(Keep(xs, n - 1), xs[n - 1])
  }

  /** Everything the first `n` tools hand to `on_discard`, in order. */
  ghost function Discard(xs: seq<Ranked>, n: nat): seq<Ranked>
    requires n <= |xs|
  {
    if n == 0 then [] else Discard(xs, n - 1) + Spill(Keep(xs, n - 1), xs[n - 1])
  }

  ghost predicate DistinctNames(xs: seq<Ranked>) {
    forall i, j :: 0 <= i < j < |xs| ==> xs[i].original != xs[j].original
  }

  /** Among the first `n`, index `i` holds the earliest of least rank named `o`. */
  ghost predicate IsArgmin(xs: seq<Ranked>, n: nat, o: string, i: nat)
    requires n <= |xs|
  {
    && i < n && xs[i].original == o
    && (forall j :: 0 <= j < n && xs[j].original == o ==> xs[i].rank <= xs[j].rank)
    && (forall j :: 0 <= j < i && xs[j].original == o ==> xs[i].rank < xs[j].rank)
  }

  /** `i` is the first place where `o` occurs. */
  ghost predicate IsFirst(xs: seq<Ranked>, o: string, i: nat) {
    i < |xs| && xs[i].original == o && forall j :: 0 <= j < i ==> xs[j].original != o
  }

  ghost predicate Best(xs: seq<Ranked>, n: nat, x: Ranked)
    requires n <= |xs|
  {
    exists i: nat :: IsArgmin(xs, n, x.original, i) && x == xs[i]
  }

  ghost predicate FirstBefore(xs: seq<Ranked>, o: string, bound: nat) {
    exists i: nat :: i < bound && IsFirst(xs, o, i)
  }

  /** `o` first occurs before `p` does. */
  ghost predicate Precedes(xs: seq<Ranked>, n: nat, o: string, p: string) {
    exists j: nat :: j < n && IsFirst(xs, p, j) && FirstBefore(xs, o, j)
  }

  /** The relation between the first `n` tools and those kept. */
  ghost predicate Summarises(kept: seq<Ranked>, xs: seq<Ranked>, n: nat)
    requires n <= |xs|
  {
    && DistinctNames(kept)
    && (forall i {:trigger Named(kept, xs[i].original)} :: 0 <= i < n ==> Named(kept, xs[i].original))
    && (forall k {:trigger Best(xs, n, kept[k])} :: 0 <= k < |kept| ==> Best(xs, n, kept[k]))
    && (forall a, b {:trigger Precedes(xs, n, kept[a].original, kept[b].original)} ::
          0 <= a < b < |kept| ==> Precedes(xs, n, kept[a].original, kept[b].original))
  }

  lemma MergeKeepsName(kept: seq<Ranked>, x: Ranked, o: string)
    requires Named(kept, o) || o == x.original
    ensures Named(Merge(kept, x), o)
  {
    var k := Pos(kept, o);
    assert Merge(kept, x)[k].original == o;
  }

  lemma MergeDistinct(kept: seq<Ranked>, x: Ranked)
    requires DistinctNames(kept)
    ensures DistinctNames(Merge(kept, x))
    ensures forall k :: 0 <= k < |kept| ==> Merge(kept, x)[k].original == kept[k].original
    ensures |Merge(kept, x)| > |kept| ==> Merge(kept, x) == kept + [x] && !Named(kept, x.original)
    ensures |Merge(kept, x)| >= |kept|
  {
  }

  lemma ArgminStays(xs: seq<Ranked>, n: nat, o: string, j: nat)
    requires n < |xs| && IsArgmin(xs, n, o, j) && (xs[n].original == o ==> xs[j].rank <= xs[n].rank)
    ensures IsArgmin(xs, n + 1, o, j)
  {
  }

  lemma ArgminMoves(xs: seq<Ranked>, n: nat, o: string, j: nat)
    requires n < |xs| && IsArgmin(xs, n, o, j) && xs[n].original == o && xs[n].rank < xs[j].rank
    ensures IsArgmin(xs, n + 1, o, n)
  {
  }

  lemma PosIs(kept: seq<Ranked>, k: nat)
    requires DistinctNames(kept) && k < |kept|
    ensures Pos(kept, kept[k].original) == k
  {
  }

  lemma ArgminSnoc(kept: seq<Ranked>, xs: seq<Ranked>, n: nat, k: nat)
    requires n < |xs| && DistinctNames(kept) && k < |kept| && Best(xs, n, kept[k])
    ensures Best(xs, n + 1, Merge(kept, xs[n])[k])
  {
    var x := xs[n];
    var j: nat :| IsArgmin(xs, n, kept[k].original, j) && kept[k] == xs[j];
    PosIs(kept, k);
    if kept[k].original == x.original && x.rank < kept[k].rank {
      ArgminMoves(xs, n, x.original, j);
    } else {
      ArgminStays(xs, n, kept[k].original, j);
      assert Merge(kept, x)[k] == kept[k];
    }
  }

  lemma ArgminNew(kept: seq<Ranked>, xs: seq<Ranked>, n: nat)
    requires n < |xs| && Summarises(kept, xs, n) && !Named(kept, xs[n].original)
    ensures Best(xs, n + 1, xs[n])
  {
    forall i | 0 <= i < n ensures xs[i].original != xs[n].original {
      assert Named(kept, xs[i].original);
    }
    assert IsArgmin(xs, n + 1, xs[n].original, n);
  }

  lemma {:induction false} FirstOf(xs: seq<Ranked>, o: string, m: nat) returns (i: nat)
    requires m < |xs| && xs[m].original == o
    ensures i <= m && IsFirst(xs, o, i)
  {
    if j: nat :| j < m && xs[j].original == o {
      i := FirstOf(xs, o, j);
    } else {
      i := m;
    }
  }

  lemma OrderSnoc(kept: seq<Ranked>, xs: seq<Ranked>, n: nat, a: nat, b: nat)
    requires n < |xs| && Summarises(kept, xs, n) && a < b < |Merge(kept, xs[n])|
    ensures Precedes(xs, n + 1, Merge(kept, xs[n])[a].original, Merge(kept, xs[n])[b].original)
  {
    var x := xs[n];
    MergeDistinct(kept, x);
    if b < |kept| {
      assert Precedes(xs, n, kept[a].original, kept[b].original);
    } else {
      assert Best(xs, n, kept[a]);
      var m: nat :| IsArgmin(xs, n, kept[a].original, m) && kept[a] == xs[m];
      var i := FirstOf(xs, kept[a].original, m);
      forall j | 0 <= j < n ensures xs[j].original != x.original {
        assert Named(kept, xs[j].original);
      }
      assert IsFirst(xs, x.original, n);
    }
  }

  lemma MergedNames(kept: seq<Ranked>, xs: seq<Ranked>, n: nat)
    requires n < |xs| && Summarises(kept, xs, n)
    ensures forall i {:trigger Named(Merge(kept, xs[n]), xs[i].original)} :: 0 <= i < n + 1 ==>
      Named(Merge(kept, xs[n]), xs[i].original)
  {
    forall i | 0 <= i < n + 1 ensures Named(Merge(kept, xs[n]), xs[i].original) {
      MergeKeepsName(kept, xs[n], xs[i].original);
    }
  }

  lemma MergedBest(kept: seq<Ranked>, xs: seq<Ranked>, n: nat, k: nat)
    requires n < |xs| && Summarises(kept, xs, n) && k < |Merge(kept, xs[n])|
    ensures Best(xs, n + 1, Merge(kept, xs[n])[k])
  {
    MergeDistinct(kept, xs[n]);
    if k < |kept| {
      assert Best(xs, n, kept[k]);
      ArgminSnoc(kept, xs, n, k);
    } else {
      ArgminNew(kept, xs, n);
    }
  }

  lemma SummarisesSnoc(xs: seq<Ranked>, n: nat, kept: seq<Ranked>, out: seq<Ranked>)
    requires 0 < n <= |xs| && Summarises(kept, xs, n - 1) && out == Merge(kept, xs[n - 1])
    ensures Summarises(out, xs, n)
  {
    MergeDistinct(kept, xs[n - 1]);
    MergedNames(kept, xs, n - 1);
    forall k | 0 <= k < |out| ensures Best(xs, n, out[k]) {
      MergedBest(kept, xs, n - 1, k);
    }
    forall a, b | 0 <= a < b < |out| ensures Precedes(xs, n, out[a].original, out[b].original) {
      OrderSnoc(kept, xs, n - 1, a, b);
    }
  }

  ghost predicate KeptWell(xs: seq<Ranked>, n: nat)
    requires n <= |xs|
  {
    Summarises(Keep(xs, n), xs, n)
  }

  lemma {:induction false} KeepSummarises(xs: seq<Ranked>, n: nat)
    requires n <= |xs|
    ensures KeptWell(xs, n)
  {
    if n > 0 {
      KeepSummarises(xs, n - 1);
      SummarisesSnoc(xs, n, Keep(xs, n - 1), Keep(xs, n));
    }
  }

  lemma MergeConserves(kept: seq<Ranked>, x: Ranked)
    ensures multiset(Merge(kept, x)) + multiset(Spill(kept, x)) == multiset(kept) + multiset{x}
  {
  }

  lemma ConserveStep(kept: seq<Ranked>, disc: seq<Ranked>, pre: seq<Ranked>, x: Ranked, kept': seq<Ranked>,
      disc': seq<Ranked>)
    requires multiset(kept) + multiset(disc) == multiset(pre)
    requires kept' == Merge(kept, x) && disc' == disc + Spill(kept, x)
    ensures multiset(kept') + multiset(disc') == multiset(pre + [x])
  {
    MergeConserves(kept, x);
  }

  ghost predicate Conserves(xs: seq<Ranked>, n: nat)
    requires n <= |xs|
  {
    multiset(Keep(xs, n)) + multiset(Discard(xs, n)) == multiset(xs[..n])
  }

  lemma ConservesNone(xs: seq<Ranked>)
    ensures Conserves(xs, 0)
  {
    assert xs[..0] == [];
  }

  lemma KeepStep(xs: seq<Ranked>, n: nat)
    requires 0 < n <= |xs|
    ensures Keep(xs, n) == Merge(Keep(xs, n - 1), xs[n - 1])
    ensures Discard(xs, n) == Discard(xs, n - 1) + Spill(Keep(xs, n - 1), xs[n - 1])
  {
  }

  lemma PrefixStep<T>(xs: seq<T>, n: nat)
    requires 0 < n <= |xs|
    ensures xs[..n] == xs[..n - 1] + [xs[n - 1]]
  {
  }

  lemma ConservesSnoc(xs: seq<Ranked>, n: nat)
    requires 0 < n <= |xs| && Conserves(xs, n - 1)
    ensures Conserves(xs, n)
  {
    KeepStep(xs, n);
    PrefixStep(xs, n);
    ConserveStep(Keep(xs, n - 1), Discard(xs, n - 1), xs[..n - 1], xs[n - 1], Keep(xs, n), Discard(xs, n));
  }

  lemma {:induction false} KeepConserves(xs: seq<Ranked>, n: nat)
    requires n <= |xs|
    ensures Conserves(xs, n)
  {
    if n == 0 {
      ConservesNone(xs);
    } else {
      KeepConserves(xs, n - 1);
      ConservesSnoc(xs, n);
    }
  }

  ghost predicate Untouched(xs: seq<Ranked>, n: nat)
    requires n <= |xs|
  {
    Keep(xs, n) == xs[..n] && Discard(xs, n) == []
  }

  lemma MergeNew(kept: seq<Ranked>, x: Ranked)
    requires !Named(kept, x.original)
    ensures Merge(kept, x) == kept + [x] && Spill(kept, x) == []
  {
  }

  lemma NewName(xs: seq<Ranked>, n: nat)
    requires DistinctNames(xs) && n < |xs|
    ensures !Named(xs[..n], xs[n].original)
  {
  }

  lemma UntouchedSnoc(xs: seq<Ranked>, n: nat)
    requires DistinctNames(xs) && 0 < n <= |xs| && Untouched(xs, n - 1)
    ensures Untouched(xs, n)
  {
    NewName(xs, n - 1);
    MergeNew(xs[..n - 1], xs[n - 1]);
    KeepStep(xs, n);
    PrefixStep(xs, n);
  }

  lemma {:induction false} DistinctUntouched(xs: seq<Ranked>, n: nat)
    requires DistinctNames(xs) && n <= |xs|
    ensures Untouched(xs, n)
  {
    if n > 0 {
      DistinctUntouched(xs, n - 1);
      UntouchedSnoc(xs, n);
    }
  }

  ghost function Output(r: Ranking, tools: seq<Json>): seq<Json> {
    Tools(Keep(View(r, tools), |tools|))
  }

  ghost function Discards(r: Ranking, tools: seq<Json>): seq<Json> {
    Tools(Discard(View(r, tools), |tools|))
  }

  /** The outcome is the argmin: distinct original names in first-seen order,
      every input name present, each with its earliest tool of least rank. */
  lemma PriorityIsArgmin(r: Ranking, tools: seq<Json>)
    ensures Summarises(View(r, Output(r, tools)), View(r, tools), |tools|)
  {
    OutputView(r, tools);
    KeepSummarises(View(r, tools), |tools|);
  }

  /** Ranking the output again gives back the entries that were kept. */
  lemma OutputView(r: Ranking, tools: seq<Json>)
    ensures View(r, Output(r, tools)) == Keep(View(r, tools), |tools|)
  {
    var xs := View(r, tools);
    var ks := Keep(xs, |xs|);
    KeepSummarises(xs, |xs|);
    forall k | 0 <= k < |ks| ensures Rank(r, ks[k].tool) == ks[k] {
      assert Best(xs, |xs|, ks[k]);
    }
  }

  lemma RemoveOne(xs: seq<Ranked>, z: Ranked) returns (xs': seq<Ranked>)
    requires z in xs
    ensures |xs'| == |xs| - 1
    ensures multiset(xs) == multiset(xs') + multiset{z}
    ensures multiset(Tools(xs)) == multiset(Tools(xs')) + multiset{z.tool}
  {
    var i :| 0 <= i < |xs| && xs[i] == z;
    xs' := xs[..i] + xs[i + 1..];
    assert xs == xs[..i] + [z] + xs[i + 1..];
    assert Tools(xs) == Tools(xs[..i]) + [z.tool] + Tools(xs[i + 1..]);
    assert Tools(xs') == Tools(xs[..i]) + Tools(xs[i + 1..]);
  }

  /** Rearranging ranked entries rearranges their tools. */
  lemma {:induction false} ToolsMultiset(xs: seq<Ranked>, ys: seq<Ranked>)
    requires multiset(xs) == multiset(ys)
    ensures multiset(Tools(xs)) == multiset(Tools(ys))
    decreases |xs|
  {
    if xs == [] {
      assert |multiset(ys)| == 0;
    } else {
      assert xs[0] in multiset(ys);
      var xs' := RemoveOne(xs, xs[0]);
      var ys' := RemoveOne(ys, xs[0]);
      assert multiset(xs') == multiset(xs) - multiset{xs[0]} == multiset(ys');
      ToolsMultiset(xs', ys');
    }
  }

  /** Nothing is lost or invented: what is kept and what is discarded together
      are exactly the tools that came in. */
  lemma PriorityConserves(r: Ranking, tools: seq<Json>)
    ensures multiset(Output(r, tools)) + multiset(Discards(r, tools)) == multiset(tools)
  {
    var xs := View(r, tools);
    var ks, ds := Keep(xs, |xs|), Discard(xs, |xs|);
    KeepConserves(xs, |xs|);
    assert xs[..|xs|] == xs;
    ToolsMultiset(ks + ds, xs);
    assert Tools(ks + ds) == Tools(ks) + Tools(ds) && Tools(xs) == tools;
  }

  /** A second application changes and discards nothing. */
  lemma PriorityIdempotent(r: Ranking, tools: seq<Json>)
    ensures Output(r, Output(r, tools)) == Output(r, tools)
    ensures Discards(r, Output(r, tools)) == []
  {
    OutputView(r, tools);
    var ks := Keep(View(r, tools), |tools|);
    KeepSummarises(View(r, tools), |tools|);
    DistinctUntouched(ks, |ks|);
    assert ks[..|ks|] == ks;
  }

  /** The loop's collections hold the kept entries, by name. */
  ghost predicate Holds(ks: seq<Ranked>, order: seq<string>, best: map<string, nat>, kept: map<string, Json>) {
    && DistinctNames(ks) && |order| == |ks|
    && (forall k :: 0 <= k < |ks| ==>
          && order[k] == ks[k].original
          && order[k] in best && best[order[k]] == ks[k].rank
          && order[k] in kept && kept[order[k]] == ks[k].tool)
    && (forall o :: o in best ==> Named(ks, o))
  }

  lemma HoldsLookup(ks: seq<Ranked>, order: seq<string>, best: map<string, nat>, kept: map<string, Json>, o: string)
    requires Holds(ks, order, best, kept)
    ensures o in best <==> Named(ks, o)
    ensures o in best ==> o in kept && ks[Pos(ks, o)] == Ranked(o, best[o], kept[o])
  {
    if Named(ks, o) {
      assert order[Pos(ks, o)] == o;
    }
  }

  lemma HoldsReplaced(ks: seq<Ranked>, order: seq<string>, best: map<string, nat>, kept: map<string, Json>, x: Ranked)
    requires Holds(ks, order, best, kept) && x.original in best && x.rank < best[x.original]
    ensures Holds(Merge(ks, x), order, best[x.original := x.rank], kept[x.original := x.tool])
  {
    HoldsLookup(ks, order, best, kept, x.original);
    var p := Pos(ks, x.original);
    assert Merge(ks, x) == ks[p := x];
    forall o | o in best ensures Named(ks[p := x], o) {
      var i := Pos(ks, o);
      assert ks[p := x][i].original == o;
    }
  }

  lemma HoldsAppended(ks: seq<Ranked>, order: seq<string>, best: map<string, nat>, kept: map<string, Json>, x: Ranked)
    requires Holds(ks, order, best, kept) && x.original !in best
    ensures Holds(Merge(ks, x), order + [x.original], best[x.original := x.rank], kept[x.original := x.tool])
  {
    HoldsLookup(ks, order, best, kept, x.original);
    forall o | o in best || o == x.original ensures Named(ks + [x], o) {
      var i := Pos(ks, o);
      assert (ks + [x])[i].original == o;
    }
  }

  lemma HoldsMerge(ks: seq<Ranked>, order: seq<string>, best: map<string, nat>, kept: map<string, Json>, x: Ranked)
    requires Holds(ks, order, best, kept)
    ensures if x.original !in best then
              Holds(Merge(ks, x), order + [x.original], best[x.original := x.rank], kept[x.original := x.tool])
            else if x.rank < best[x.original] then
              Holds(Merge(ks, x), order, best[x.original := x.rank], kept[x.original := x.tool])
            else Merge(ks, x) == ks
  {
    if x.original !in best {
      HoldsAppended(ks, order, best, kept, x);
    } else if x.rank < best[x.original] {
      HoldsReplaced(ks, order, best, kept, x);
    } else {
      HoldsLookup(ks, order, best, kept, x.original);
    }
  }

  lemma HoldsTools(ks: seq<Ranked>, order: seq<string>, best: map<string, nat>, kept: map<string, Json>, out: seq<Json>)
    requires Holds(ks, order, best, kept)
    requires |out| == |order| && forall k :: 0 <= k < |order| && order[k] in kept ==> out[k] == kept[order[k]]
    ensures out == Tools(ks)
  {
  }

  /** The loop's collections. */
  datatype Loop = Loop(order: seq<string>, best: map<string, nat>, kept: map<string, Json>, discarded: seq<Json>)

  /** What the loop's body makes of them. */
  ghost function Offered(s: Loop, x: Ranked): Loop {
    if x.original !in s.best then
      Loop(s.order + [x.original], s.best[x.original := x.rank], s.kept[x.original := x.tool], s.discarded)
    else if x.rank < s.best[x.original] && x.original in s.kept then
      Loop(s.order, s.best[x.original := x.rank], s.kept[x.original := x.tool], s.discarded + [s.kept[x.original]])
    else s.(discarded := s.discarded + [x.tool])
  }

  /** What the loop has done after `i` tools. */
  ghost predicate Progress(xs: seq<Ranked>, i: nat, s: Loop)
    requires i <= |xs|
  {
    Holds(Keep(xs, i), s.order, s.best, s.kept) && s.discarded == Tools(Discard(xs, i))
  }

  lemma ProgressStep(xs: seq<Ranked>, i: nat, s: Loop)
    requires i < |xs| && Progress(xs, i, s)
    ensures xs[i].original in s.best ==> xs[i].original in s.kept
    ensures Progress(xs, i + 1, Offered(s, xs[i]))
  {
    var ks, x := Keep(xs, i), xs[i];
    HoldsLookup(ks, s.order, s.best, s.kept, x.original);
    HoldsMerge(ks, s.order, s.best, s.kept, x);
    SpillTools(ks, s, x);
    assert Tools(Discard(xs, i) + Spill(ks, x)) == Tools(Discard(xs, i)) + Tools(Spill(ks, x));
  }

  lemma SpillTools(ks: seq<Ranked>, s: Loop, x: Ranked)
    requires Holds(ks, s.order, s.best, s.kept)
    ensures Offered(s, x).discarded == s.discarded + Tools(Spill(ks, x))
  {
    HoldsLookup(ks, s.order, s.best, s.kept, x.original);
    assert s.discarded + [] == s.discarded;
  }

  /** The body of the loop. */
  method Offer(order: seq<string>, best: map<string, nat>, kept: map<string, Json>, discarded: seq<Json>,
      original: string, rank: nat, tool: Json)
    returns (order': seq<string>, best': map<string, nat>, kept': map<string, Json>, discarded': seq<Json>)
    requires original in best ==> original in kept
    ensures Loop(order', best', kept', discarded') ==
      Offered(Loop(order, best, kept, discarded), Ranked(original, rank, tool))
  {
    order', best', kept', discarded' := order, best, kept, discarded;
    if original !in best {
      best' := best[original := rank];
      kept' := kept[original := tool];
      order' := order + [original];
    } else if rank < best[original] {
      discarded' := discarded + [kept[original]];
      best' := best[original := rank];
      kept' := kept[original := tool];
    } else {
      discarded' := discarded + [tool];
    }
  }

  lemma ViewAt(r: Ranking, tools: seq<Json>, i: nat)
    requires i < |tools|
    ensures |View(r, tools)| == |tools| && View(r, tools)[i] == Rank(r, tools[i])
  {
  }

  method RankTool(r: Ranking, tool: Json) returns (original: string, rank: nat)
    ensures Ranked(original, rank, tool) == Rank(r, tool)
  {
    original, rank := OriginalOf(r, tool), RankOf(r, tool);
  }

  /** One turn of the loop takes `inv` from `i` to `i + 1`. */
  ghost predicate Carries(inv: (nat, Loop) -> bool, r: Ranking, tools: seq<Json>, i: nat, s: Loop)
    requires i < |tools|
  {
    inv(i, s) ==>
      && (OriginalOf(r, tools[i]) in s.best ==> OriginalOf(r, tools[i]) in s.kept)
      && inv(i + 1, Offered(s, Rank(r, tools[i])))
  }

  /** The loop of `apply_priority`, over its three collections. */
  method OfferAll(r: Ranking, tools: seq<Json>, ghost inv: (nat, Loop) -> bool)
    returns (order: seq<string>, best: map<string, nat>, kept: map<string, Json>, discarded: seq<Json>)
    requires inv(0, Loop([], map[], map[], []))
    requires forall i, s {:trigger Carries(inv, r, tools, i, s)} :: 0 <= i < |tools| ==> Carries(inv, r, tools, i, s)
    ensures inv(|tools|, Loop(order, best, kept, discarded))
  {
    order, best, kept, discarded := [], map[], map[], [];
    for i := 0 to |tools|
      invariant inv(i, Loop(order, best, kept, discarded))
    {
      assert Carries(inv, r, tools, i, Loop(order, best, kept, discarded));
      var original, rank := RankTool(r, tools[i]);
      order, best, kept, discarded := Offer(order, best, kept, discarded, original, rank, tools[i]);
    }
  }

  ghost function ProgressOf(xs: seq<Ranked>): (nat, Loop) -> bool {
    (i: nat, s: Loop) => i <= |xs| && Progress(xs, i, s)
  }

  lemma ProgressStarts(xs: seq<Ranked>)
    ensures ProgressOf(xs)(0, Loop([], map[], map[], []))
  {
  }

  lemma ProgressCarries(r: Ranking, tools: seq<Json>, i: nat, s: Loop)
    requires i < |tools|
    ensures Carries(ProgressOf(View(r, tools)), r, tools, i, s)
  {
    ViewAt(r, tools, i);
    if Progress(View(r, tools), i, s) { ProgressStep(View(r, tools), i, s); }
  }

  method ApplyPriority(r: Ranking, tools: seq<Json>) returns (out: seq<Json>, discarded: seq<Json>)
    ensures out == Output(r, tools)
    ensures discarded == Discards(r, tools)
  {
    ghost var xs := View(r, tools);
    ProgressStarts(xs);
    forall i, s | 0 <= i < |tools| ensures Carries(ProgressOf(xs), r, tools, i, s) {
      ProgressCarries(r, tools, i, s);
    }
    var order, best, kept, dropped := OfferAll(r, tools, ProgressOf(xs));
    discarded := dropped;
    HoldsKept(Keep(xs, |xs|), order, best, kept);
    out := InOrder(order, kept);
    HoldsTools(Keep(xs, |xs|), order, best, kept, out);
  }

  lemma HoldsKept(ks: seq<Ranked>, order: seq<string>, best: map<string, nat>, kept: map<string, Json>)
    requires Holds(ks, order, best, kept)
    ensures forall k :: 0 <= k < |order| ==> order[k] in kept
  {
  }

  /** `order.into_iter().map(|original| kept.remove(&original).unwrap())`. */
  method InOrder(order: seq<string>, kept: map<string, Json>) returns (out: seq<Json>)
    requires forall k :: 0 <= k < |order| ==> order[k] in kept
    ensures |out| == |order| && forall k :: 0 <= k < |order| ==> out[k] == kept[order[k]]
  {
    out := seq(|order|, k requires 0 <= k < |order| && order[k] in kept => kept[order[k]]);
  }

  // ---- Explicit renames ----

  datatype Renaming = Renamed(exposed: map<string, string>) | Clash(name: string, other: string, target: string)

  function TargetOf(name: string, overrides: map<string, string>): string {
    if name in overrides then overrides[name] else name
  }

  /** Two different listed names are exposed under one name. */
  ghost predicate Clashing(names: seq<string>, overrides: map<string, string>) {
    exists i, j :: 0 <= i < |names| && 0 <= j < |names| && names[i] != names[j]
                && TargetOf(names[i], overrides) == TargetOf(names[j], overrides)
  }

  /** The first `i` names are exposed as their targets. */
  ghost predicate Exposes(exposed: map<string, string>, names: seq<string>, overrides: map<string, string>, i: nat)
    requires i <= |names|
  {
    exposed == map n | n in names[..i] :: TargetOf(n, overrides)
  }

  /** Each target is claimed by the one name among the first `i` that has it. */
  ghost predicate Claims(seen: map<string, string>, names: seq<string>, overrides: map<string, string>, i: nat)
    requires i <= |names|
  {
    && (forall t :: t in seen ==> seen[t] in names[..i] && TargetOf(seen[t], overrides) == t)
    && (forall n :: n in names[..i] ==> TargetOf(n, overrides) in seen && seen[TargetOf(n, overrides)] == n)
  }

  lemma ExposesNext(exposed: map<string, string>, names: seq<string>, overrides: map<string, string>, i: nat)
    requires i < |names| && Exposes(exposed, names, overrides, i)
    ensures Exposes(exposed[names[i] := TargetOf(names[i], overrides)], names, overrides, i + 1)
  {
    PrefixStep(names, i + 1);
  }

  lemma ClaimsNext(seen: map<string, string>, names: seq<string>, overrides: map<string, string>, i: nat)
    requires i < |names| && Claims(seen, names, overrides, i)
    requires TargetOf(names[i], overrides) in seen ==> seen[TargetOf(names[i], overrides)] == names[i]
    ensures Claims(seen[TargetOf(names[i], overrides) := names[i]], names, overrides, i + 1)
  {
    PrefixStep(names, i + 1);
  }

  lemma ClaimedTwice(seen: map<string, string>, names: seq<string>, overrides: map<string, string>, i: nat)
    requires i < |names| && Claims(seen, names, overrides, i)
    requires TargetOf(names[i], overrides) in seen && seen[TargetOf(names[i], overrides)] != names[i]
    ensures var other := seen[TargetOf(names[i], overrides)];
      other in names && TargetOf(other, overrides) == TargetOf(names[i], overrides) && Clashing(names, overrides)
  {
    var other := seen[TargetOf(names[i], overrides)];
    var k :| 0 <= k < i && names[k] == other;
    assert names[i] != names[k] && TargetOf(names[i], overrides) == TargetOf(names[k], overrides);
  }

  lemma ClaimsAll(seen: map<string, string>, names: seq<string>, overrides: map<string, string>)
    requires Claims(seen, names, overrides, |names|)
    ensures !Clashing(names, overrides)
  {
    assert names[..|names|] == names;
  }

  method ResolveManual(names: seq<string>, overrides: map<string, string>) returns (r: Renaming)
    ensures r.Clash? <==> Clashing(names, overrides)
    ensures r.Clash? ==>
              && r.name in names && r.other in names && r.name != r.other
              && TargetOf(r.name, overrides) == TargetOf(r.other, overrides) == r.target
    ensures r.Renamed? ==> r.exposed == map n | n in names :: TargetOf(n, overrides)
  {
    var exposed: map<string, string> := map[];
    var seen: map<string, string> := map[];
    for i := 0 to |names|
      invariant Exposes(exposed, names, overrides, i)
      invariant Claims(seen, names, overrides, i)
    {
      var name := names[i];
      var target := if name in overrides then overrides[name] else name;
      if target in seen && seen[target] != name {
        ClaimedTwice(seen, names, overrides, i);
        return Clash(name, seen[target], target);
      }
      ClaimsNext(seen, names, overrides, i);
      ExposesNext(exposed, names, overrides, i);
      seen := seen[target := name];
      exposed := exposed[name := target];
    }
    ClaimsAll(seen, names, overrides);
    assert names[..|names|] == names;
    r := Renamed(exposed);
  }
}
