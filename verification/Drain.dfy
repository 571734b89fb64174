/** A client that keeps following `nextCursor` drains every backend: one request
    per page of the longest backend, each backend page fetched once, and every
    backend's own list delivered whole and in order. */
module Drain {
  import opened Prelude
  import opened JsonValue
  import opened Listing
  import Namespace
  import Variants

  /** A backend's finite list: page k is answered to cursor k - 1 and names
      cursor k, except that the last page names none. */
  datatype Chain = Chain(pages: seq<Json>, cursors: seq<string>)

  ghost predicate ChainOk(c: Chain) {
    && |c.pages| == |c.cursors| + 1
    && forall k :: 0 <= k < |c.pages| ==>
         GetStr(c.pages[k], "nextCursor") == if k < |c.cursors| then Some(c.cursors[k]) else None
  }

  function CursorAt(c: Chain, k: nat): Option<Json>
    requires k <= |c.cursors|
  {
    if k == 0 then None else Some(Str(c.cursors[k - 1]))
  }

  ghost predicate Serves(cfg: Config, env: Env, q: Query, i: nat, c: Chain)
    requires ChainOk(c)
  {
    forall k :: 0 <= k < |c.pages| ==>
      && env.fetch(i, ParamsWith(cfg, q, CursorAt(c, k))).Some?
      && ResultOf(env.fetch(i, ParamsWith(cfg, q, CursorAt(c, k))).value) == c.pages[k]
  }

  ghost predicate BackendOk(cfg: Config, env: Env, q: Query, i: nat, c: Chain)
    requires WellFormed(cfg, env) && i < |cfg.ids|
  {
    env.available[i] && env.still[i] && env.keywordOk(i) && ChainOk(c) && Serves(cfg, env, q, i, c)
  }

  /** Distinct backends, all available throughout, each serving a finite list. */
  ghost predicate World(cfg: Config, env: Env, q: Query, chains: seq<Chain>) {
    && WellFormed(cfg, env) && Distinct(cfg.ids) && Variants.Faithful(cfg.wire)
    && |chains| == |cfg.ids|
    && q.cursor == Null
    && forall i {:trigger BackendOk(cfg, env, q, i, chains[i])} :: 0 <= i < |chains| ==>
         BackendOk(cfg, env, q, i, chains[i])
  }

  predicate Active(chains: seq<Chain>, i: nat, k: nat)
    requires i < |chains|
  {
    k < |chains[i].pages|
  }

  /** The backend cursors a client is holding before request `k`. */
  function Bound(ids: seq<string>, chains: seq<Chain>, k: nat, n: nat): map<string, string>
    requires n <= |ids| == |chains|
  {
    if n == 0 then map[]
    else
      var before := Bound(ids, chains, k, n - 1);
      if 0 < k <= |chains[n - 1].cursors| then before[ids[n - 1] := chains[n - 1].cursors[k - 1]] else before
  }

  lemma {:induction false} BoundIs(ids: seq<string>, chains: seq<Chain>, k: nat, n: nat)
    requires n <= |ids| == |chains| && Distinct(ids) && k > 0
    ensures forall i {:trigger ids[i]} :: 0 <= i < |ids| ==>
              (ids[i] in Bound(ids, chains, k, n) <==> i < n && k <= |chains[i].cursors|)
    ensures forall i {:trigger ids[i]} :: 0 <= i < n && k <= |chains[i].cursors| ==>
              Bound(ids, chains, k, n)[ids[i]] == chains[i].cursors[k - 1]
  {
    if n > 0 {
      BoundIs(ids, chains, k, n - 1);
    }
  }

  /** The cursor a client sends with its request number `k`. */
  function RoundCursor(cfg: Config, q: Query, chains: seq<Chain>, k: nat): Json
    requires |chains| == |cfg.ids|
  {
    if k == 0 then Null
    else Str(Variants.BindCursor(cfg.wire, Effective(cfg, q), Bound(cfg.ids, chains, k, |cfg.ids|)))
  }

  function AtRound(cfg: Config, q: Query, chains: seq<Chain>, k: nat): Query
    requires |chains| == |cfg.ids|
  {
    q.(cursor := RoundCursor(cfg, q, chains, k))
  }

  lemma RoundRestriction(cfg: Config, env: Env, q: Query, chains: seq<Chain>, k: nat)
    requires World(cfg, env, q, chains)
    ensures Restriction(cfg, AtRound(cfg, q, chains, k))
         == if k == 0 then None else Some(Bound(cfg.ids, chains, k, |cfg.ids|))
    ensures CursorAccepted(cfg, AtRound(cfg, q, chains, k))
  {
    if k > 0 {
      Variants.ResolveUndoesBind(cfg.wire, Effective(cfg, q), Bound(cfg.ids, chains, k, |cfg.ids|));
    }
  }

  lemma RoundChooses(cfg: Config, env: Env, q: Query, chains: seq<Chain>, k: nat, i: nat)
    requires World(cfg, env, q, chains) && i < |cfg.ids|
    ensures Chosen(cfg, env, AtRound(cfg, q, chains, k), i) <==> Active(chains, i, k)
  {
    assert BackendOk(cfg, env, q, i, chains[i]);
    RoundRestriction(cfg, env, q, chains, k);
    if k > 0 { BoundIs(cfg.ids, chains, k, |cfg.ids|); }
  }

  lemma RoundBase(cfg: Config, q: Query, chains: seq<Chain>, k: nat, cursor: Option<Json>)
    requires |chains| == |cfg.ids|
    ensures ParamsWith(cfg, AtRound(cfg, q, chains, k), cursor) == ParamsWith(cfg, q, cursor)
  {
    assert BaseParams(cfg, AtRound(cfg, q, chains, k)) == BaseParams(cfg, q);
  }

  lemma RoundParams(cfg: Config, env: Env, q: Query, chains: seq<Chain>, k: nat, i: nat)
    requires World(cfg, env, q, chains) && i < |cfg.ids| && Active(chains, i, k)
    ensures ChainOk(chains[i])
    ensures var qk := AtRound(cfg, q, chains, k);
      && Chosen(cfg, env, qk, i)
      && Params(cfg, qk, i) == ParamsWith(cfg, q, CursorAt(chains[i], k))
  {
    assert BackendOk(cfg, env, q, i, chains[i]);
    RoundChooses(cfg, env, q, chains, k, i);
    RoundRestriction(cfg, env, q, chains, k);
    RoundBase(cfg, q, chains, k, CursorAt(chains[i], k));
    if k > 0 { BoundIs(cfg.ids, chains, k, |cfg.ids|); }
  }

  /** Request `k` reaches exactly the backends with a page `k`, and asks each
      for that page. */
  lemma RoundAsks(cfg: Config, env: Env, q: Query, chains: seq<Chain>, k: nat, i: nat)
    requires World(cfg, env, q, chains) && i < |cfg.ids|
    ensures ChainOk(chains[i])
    ensures var qk := AtRound(cfg, q, chains, k);
      && (Chosen(cfg, env, qk, i) <==> Active(chains, i, k))
      && (Active(chains, i, k) ==>
            && Params(cfg, qk, i) == ParamsWith(cfg, q, CursorAt(chains[i], k))
            && Answer(cfg, env, qk, i) == Some(chains[i].pages[k]))
  {
    assert BackendOk(cfg, env, q, i, chains[i]);
    RoundChooses(cfg, env, q, chains, k, i);
    if Active(chains, i, k) { RoundParams(cfg, env, q, chains, k, i); }
  }

  // ---- What request `k` returns ----

  function RoundAsked(cfg: Config, q: Query, chains: seq<Chain>, k: nat, n: nat): seq<(nat, Json)>
    requires n <= |cfg.ids| == |chains| && forall i ::
      0 <= i < |chains| ==> |chains[i].pages| == |chains[i].cursors| + 1
  {
    if n == 0 then []
    else
      RoundAsked(cfg, q, chains, k, n - 1) +
      (if Active(chains, n - 1, k) then [(n - 1, ParamsWith(cfg, q, CursorAt(chains[n - 1], k)))] else [])
  }

  function RoundRows(cfg: Config, env: Env, q: Query, chains: seq<Chain>, k: nat, i: nat): seq<Json>
    requires |chains| == |cfg.ids|
  {
    if i < |chains| && Active(chains, i, k) then Rows(cfg, env, q, cfg.ids[i], Listed(q, chains[i].pages[k])) else []
  }

  function RowsByBackend(cfg: Config, env: Env, q: Query, chains: seq<Chain>, k: nat): nat -> seq<Json>
    requires |chains| == |cfg.ids|
  {
    (i: nat) => RoundRows(cfg, env, q, chains, k, i)
  }

  /** The rows of every page `k`, in backend order. */
  function RoundItems(cfg: Config, env: Env, q: Query, chains: seq<Chain>, k: nat): seq<Json>
    requires |chains| == |cfg.ids|
  {
    Cat(RowsByBackend(cfg, env, q, chains, k), |cfg.ids|)
  }

  lemma {:induction false} RowsIgnoreCursor(cfg: Config, env: Env, q: Query, c: Json, id: string, listed: seq<Json>)
    ensures Rows(cfg, env, q.(cursor := c), id, listed) == Rows(cfg, env, q, id, listed)
  {
    if listed != [] {
      RowsIgnoreCursor(cfg, env, q, c, id, listed[..|listed| - 1]);
    }
  }

  /** `m` holds page `k` of each of the first `n` backends that has one. */
  ghost predicate HoldsPages(ids: seq<string>, chains: seq<Chain>, k: nat, n: nat, m: map<string, Json>)
    requires n <= |ids| == |chains|
  {
    && (forall i {:trigger ids[i]} :: 0 <= i < |ids| ==> (ids[i] in m <==> i < n && Active(chains, i, k)))
    && (forall i {:trigger ids[i]} :: 0 <= i < n && Active(chains, i, k) ==> m[ids[i]] == chains[i].pages[k])
  }

  lemma HoldsPagesSnoc(ids: seq<string>, chains: seq<Chain>, k: nat, n: nat, m: map<string, Json>)
    requires n < |ids| == |chains| && Distinct(ids) && HoldsPages(ids, chains, k, n, m)
    ensures HoldsPages(ids, chains, k, n + 1, if Active(chains, n, k) then m[ids[n] := chains[n].pages[k]] else m)
  {
  }

  lemma AnswersStep(cfg: Config, env: Env, q: Query, chains: seq<Chain>, k: nat, n: nat)
    requires World(cfg, env, q, chains) && n < |cfg.ids|
    ensures var qk := AtRound(cfg, q, chains, k);
            var before := Answers(cfg, env, qk, n);
      Answers(cfg, env, qk, n + 1)
      == if Active(chains, n, k) then before[cfg.ids[n] := chains[n].pages[k]] else before
  {
    RoundAsks(cfg, env, q, chains, k, n);
  }

  ghost predicate AnswersHold(cfg: Config, env: Env, q: Query, chains: seq<Chain>, k: nat, n: nat)
    requires WellFormed(cfg, env) && n <= |cfg.ids| == |chains|
  {
    HoldsPages(cfg.ids, chains, k, n, Answers(cfg, env, AtRound(cfg, q, chains, k), n))
  }

  lemma AnswersNone(cfg: Config, env: Env, q: Query, chains: seq<Chain>, k: nat)
    requires WellFormed(cfg, env) && |cfg.ids| == |chains|
    ensures AnswersHold(cfg, env, q, chains, k, 0)
  {
  }

  lemma AnswersSnoc(cfg: Config, env: Env, q: Query, chains: seq<Chain>, k: nat, n: nat)
    requires World(cfg, env, q, chains) && n < |cfg.ids| && AnswersHold(cfg, env, q, chains, k, n)
    ensures AnswersHold(cfg, env, q, chains, k, n + 1)
  {
    AnswersStep(cfg, env, q, chains, k, n);
    HoldsPagesSnoc(cfg.ids, chains, k, n, Answers(cfg, env, AtRound(cfg, q, chains, k), n));
  }

  ghost function AnswersUpTo(cfg: Config, env: Env, q: Query, chains: seq<Chain>, k: nat): nat -> bool {
    (n: nat) => WellFormed(cfg, env) && n <= |cfg.ids| == |chains| && AnswersHold(cfg, env, q, chains, k, n)
  }

  lemma AnswersCarry(cfg: Config, env: Env, q: Query, chains: seq<Chain>, k: nat, n: nat)
    requires World(cfg, env, q, chains) && n < |cfg.ids|
    ensures Carried(AnswersUpTo(cfg, env, q, chains, k), n)
  {
    if AnswersHold(cfg, env, q, chains, k, n) { AnswersSnoc(cfg, env, q, chains, k, n); }
  }

  lemma RoundAnswers(cfg: Config, env: Env, q: Query, chains: seq<Chain>, k: nat)
    requires World(cfg, env, q, chains)
    ensures AnswersHold(cfg, env, q, chains, k, |cfg.ids|)
  {
    var p := AnswersUpTo(cfg, env, q, chains, k);
    AnswersNone(cfg, env, q, chains, k);
    forall n: nat | n < |cfg.ids| ensures Carried(p, n) {
      AnswersCarry(cfg, env, q, chains, k, n);
    }
    Upward(p, |cfg.ids|);
  }

  lemma ChainsOk(cfg: Config, env: Env, q: Query, chains: seq<Chain>)
    requires World(cfg, env, q, chains)
    ensures forall i :: 0 <= i < |chains| ==> ChainOk(chains[i])
  {
    forall i | 0 <= i < |chains| ensures ChainOk(chains[i]) {
      assert BackendOk(cfg, env, q, i, chains[i]);
    }
  }

  lemma {:induction false} RoundAsksAll(cfg: Config, env: Env, q: Query, chains: seq<Chain>, k: nat, n: nat)
    requires World(cfg, env, q, chains) && n <= |cfg.ids|
    requires forall i :: 0 <= i < |chains| ==> |chains[i].pages| == |chains[i].cursors| + 1
    ensures Asked(cfg, env, AtRound(cfg, q, chains, k), n) == RoundAsked(cfg, q, chains, k, n)
  {
    if n > 0 {
      RoundAsksAll(cfg, env, q, chains, k, n - 1);
      RoundAsks(cfg, env, q, chains, k, n - 1);
    }
  }

  ghost predicate AllFine(cfg: Config, env: Env, q: Query, chains: seq<Chain>, k: nat, n: nat)
    requires WellFormed(cfg, env) && n <= |cfg.ids| == |chains|
  {
    Failing(cfg, env, AtRound(cfg, q, chains, k), n) == [] && Open(cfg, env, n) == []
  }

  lemma FineSnoc(cfg: Config, env: Env, q: Query, chains: seq<Chain>, k: nat, n: nat)
    requires World(cfg, env, q, chains) && n < |cfg.ids| && AllFine(cfg, env, q, chains, k, n)
    ensures AllFine(cfg, env, q, chains, k, n + 1)
  {
    RoundAsks(cfg, env, q, chains, k, n);
    assert BackendOk(cfg, env, q, n, chains[n]);
  }

  lemma {:induction false} NobodyFails(cfg: Config, env: Env, q: Query, chains: seq<Chain>, k: nat)
    requires World(cfg, env, q, chains)
    ensures AllFine(cfg, env, q, chains, k, |cfg.ids|)
  {
    assert AllFine(cfg, env, q, chains, k, 0);
    for n := 0 to |cfg.ids|
      invariant AllFine(cfg, env, q, chains, k, n)
    {
      FineSnoc(cfg, env, q, chains, k, n);
    }
  }

  function ItemsStep(cfg: Config, env: Env, q: Query, answers: map<string, Json>, i: nat): seq<Json>
    requires WellFormed(cfg, env) && i < |cfg.ids|
  {
    if Chosen(cfg, env, q, i) && cfg.ids[i] in answers
    then Rows(cfg, env, q, cfg.ids[i], Listed(q, answers[cfg.ids[i]])) else []
  }

  lemma {:induction false} ItemsAreCat(cfg: Config, env: Env, q: Query, answers: map<string, Json>, f: nat -> seq<Json>)
    requires WellFormed(cfg, env)
    requires forall i: nat :: i < |cfg.ids| ==> f(i) == ItemsStep(cfg, env, q, answers, i)
    ensures Items(cfg, env, q, answers, |cfg.ids|) == Cat(f, |cfg.ids|)
  {
    for n := 0 to |cfg.ids|
      invariant Items(cfg, env, q, answers, n) == Cat(f, n)
    {
      assert Items(cfg, env, q, answers, n + 1) == Items(cfg, env, q, answers, n) + ItemsStep(cfg, env, q, answers, n);
      assert Cat(f, n + 1) == Cat(f, n) + f(n);
    }
  }

  lemma RoundItemsAre(cfg: Config, env: Env, q: Query, chains: seq<Chain>, k: nat)
    requires World(cfg, env, q, chains)
    ensures var qk := AtRound(cfg, q, chains, k);
            var answers := Answers(cfg, env, qk, |cfg.ids|);
      Items(cfg, env, qk, answers, |cfg.ids|) == RoundItems(cfg, env, q, chains, k)
  {
    var qk := AtRound(cfg, q, chains, k);
    var answers := Answers(cfg, env, qk, |cfg.ids|);
    var f := RowsByBackend(cfg, env, q, chains, k);
    forall i: nat | i < |cfg.ids| ensures f(i) == ItemsStep(cfg, env, qk, answers, i) {
      RoundItemsSnoc(cfg, env, q, chains, k, i);
    }
    ItemsAreCat(cfg, env, qk, answers, f);
  }

  lemma RoundItemsSnoc(cfg: Config, env: Env, q: Query, chains: seq<Chain>, k: nat, i: nat)
    requires World(cfg, env, q, chains) && i < |cfg.ids|
    ensures var qk := AtRound(cfg, q, chains, k);
            var answers := Answers(cfg, env, qk, |cfg.ids|);
      RoundRows(cfg, env, q, chains, k, i) == ItemsStep(cfg, env, qk, answers, i)
  {
    RoundAnswers(cfg, env, q, chains, k);
    RoundAsks(cfg, env, q, chains, k, i);
    if Active(chains, i, k) {
      RowsIgnoreCursor(cfg, env, q, AtRound(cfg, q, chains, k).cursor, cfg.ids[i], Listed(q, chains[i].pages[k]));
    }
  }

  lemma NextStep(cfg: Config, env: Env, q: Query, chains: seq<Chain>, k: nat, i: nat)
    requires World(cfg, env, q, chains) && i < |cfg.ids|
    ensures var qk := AtRound(cfg, q, chains, k);
            var answers := Answers(cfg, env, qk, |cfg.ids|);
            var id := cfg.ids[i];
      && (Chosen(cfg, env, qk, i) && id in answers && GetStr(answers[id], "nextCursor").Some?
          <==> k + 1 <= |chains[i].cursors|)
      && (k + 1 <= |chains[i].cursors| ==>
            id in answers && GetStr(answers[id], "nextCursor") == Some(chains[i].cursors[k]))
  {
    RoundAnswers(cfg, env, q, chains, k);
    RoundAsks(cfg, env, q, chains, k, i);
  }

  ghost predicate NextMatches(cfg: Config, env: Env, q: Query, chains: seq<Chain>, k: nat, n: nat)
    requires WellFormed(cfg, env) && n <= |cfg.ids| == |chains|
  {
    var qk := AtRound(cfg, q, chains, k);
    NextCursors(cfg, env, qk, Answers(cfg, env, qk, |cfg.ids|), n) == Bound(cfg.ids, chains, k + 1, n)
  }

  lemma NextSnoc(cfg: Config, env: Env, q: Query, chains: seq<Chain>, k: nat, n: nat)
    requires World(cfg, env, q, chains) && n < |cfg.ids| && NextMatches(cfg, env, q, chains, k, n)
    ensures NextMatches(cfg, env, q, chains, k, n + 1)
  {
    NextStep(cfg, env, q, chains, k, n);
  }

  lemma {:induction false} RoundNextIs(cfg: Config, env: Env, q: Query, chains: seq<Chain>, k: nat)
    requires World(cfg, env, q, chains)
    ensures NextMatches(cfg, env, q, chains, k, |cfg.ids|)
  {
    assert NextMatches(cfg, env, q, chains, k, 0);
    for n := 0 to |cfg.ids|
      invariant NextMatches(cfg, env, q, chains, k, n)
    {
      NextSnoc(cfg, env, q, chains, k, n);
    }
  }

  // ---- How many requests it takes ----

  function LongestOf(chains: seq<Chain>, n: nat): nat
    requires n <= |chains|
  {
    if n == 0 then 1
    else if LongestOf(chains, n - 1) < |chains[n - 1].pages| then |chains[n - 1].pages|
    else LongestOf(chains, n - 1)
  }

  /** Pages of the longest backend; one request is made even without any. */
  function Longest(chains: seq<Chain>): nat {
    LongestOf(chains, |chains|)
  }

  lemma {:induction false} LongestOfIs(chains: seq<Chain>, n: nat)
    requires n <= |chains|
    ensures LongestOf(chains, n) >= 1
    ensures forall i :: 0 <= i < n ==> |chains[i].pages| <= LongestOf(chains, n)
    ensures LongestOf(chains, n) == 1 || exists i :: 0 <= i < n && |chains[i].pages| == LongestOf(chains, n)
  {
    if n > 0 {
      LongestOfIs(chains, n - 1);
    }
  }

  lemma LongestIs(chains: seq<Chain>)
    ensures Longest(chains) >= 1
    ensures forall i :: 0 <= i < |chains| ==> |chains[i].pages| <= Longest(chains)
    ensures Longest(chains) == 1 || exists i :: 0 <= i < |chains| && |chains[i].pages| == Longest(chains)
  {
    LongestOfIs(chains, |chains|);
  }

  lemma MorePages(cfg: Config, env: Env, q: Query, chains: seq<Chain>, k: nat)
    requires World(cfg, env, q, chains)
    ensures Bound(cfg.ids, chains, k + 1, |cfg.ids|) != map[] <==> k + 1 < Longest(chains)
  {
    var bound := Bound(cfg.ids, chains, k + 1, |cfg.ids|);
    BoundIs(cfg.ids, chains, k + 1, |cfg.ids|);
    LongestIs(chains);
    if k + 1 < Longest(chains) {
      var i :| 0 <= i < |chains| && |chains[i].pages| == Longest(chains);
      assert BackendOk(cfg, env, q, i, chains[i]);
      assert cfg.ids[i] in bound;
    } else {
      forall i | 0 <= i < |chains| ensures ChainOk(chains[i]) {
        assert BackendOk(cfg, env, q, i, chains[i]);
      }
      BoundEmpty(cfg.ids, chains, k + 1, |cfg.ids|);
    }
  }

  lemma {:induction false} BoundEmpty(ids: seq<string>, chains: seq<Chain>, k: nat, n: nat)
    requires n <= |ids| == |chains|
    requires forall i :: 0 <= i < |chains| ==> ChainOk(chains[i]) && |chains[i].pages| <= k
    ensures Bound(ids, chains, k, n) == map[]
  {
    if n > 0 {
      BoundEmpty(ids, chains, k, n - 1);
      assert ChainOk(chains[n - 1]);
    }
  }

  /** Collision strategies and local handlers leave the surface as collected. */
  predicate Plain(cfg: Config, q: Query) {
    q.cap.collection == "tools" ==> cfg.strategy != MANUAL && cfg.strategy != PRIORITY && cfg.localTools == []
  }

  function RoundReply(cfg: Config, env: Env, q: Query, chains: seq<Chain>, k: nat): Reply
    requires |chains| == |cfg.ids|
  {
    Page(RoundItems(cfg, env, q, chains, k),
         if k + 1 < Longest(chains)
         then Some(Variants.BindCursor(cfg.wire, Effective(cfg, q), Bound(cfg.ids, chains, k + 1, |cfg.ids|)))
         else None,
         [])
  }

  lemma RoundIs(cfg: Config, env: Env, q: Query, chains: seq<Chain>, k: nat)
    requires World(cfg, env, q, chains) && Plain(cfg, q)
    ensures Aggregate(cfg, env, AtRound(cfg, q, chains, k)) == RoundReply(cfg, env, q, chains, k)
  {
    var n := |cfg.ids|;
    var qk := AtRound(cfg, q, chains, k);
    RoundRestriction(cfg, env, q, chains, k);
    NobodyFails(cfg, env, q, chains, k);
    RoundItemsAre(cfg, env, q, chains, k);
    RoundNextIs(cfg, env, q, chains, k);
    MorePages(cfg, env, q, chains, k);
    var items := RoundItems(cfg, env, q, chains, k);
    assert Collect(cfg, env, qk) == Collected(items, [], Bound(cfg.ids, chains, k + 1, n));
    assert Composed(cfg, env, qk, items) == items;
    assert Effective(cfg, qk) == Effective(cfg, q);
  }

  // ---- The client's run ----

  /** A client that follows `nextCursor` for at most `fuel` requests. */
  ghost function Follow(ask: Json -> Reply, cursor: Json, fuel: nat): seq<Reply>
    decreases fuel
  {
    if fuel == 0 then []
    else
      var r := ask(cursor);
      [r] + (if r.Page? && r.next.Some? then Follow(ask, Str(r.next.value), fuel - 1) else [])
  }

  /** Request `j` is answered by `page(j)`, whose cursor leads to request
      `j + 1` unless it was the last of `n`. */
  ghost predicate StepsTo(ask: Json -> Reply, cursor: nat -> Json, page: nat -> Reply, n: nat, j: nat) {
    && ask(cursor(j)) == page(j) && page(j).Page?
    && (page(j).next.Some? <==> j + 1 < n)
    && (j + 1 < n ==> cursor(j + 1) == Str(page(j).next.value))
  }

  ghost predicate StepsAll(ask: Json -> Reply, cursor: nat -> Json, page: nat -> Reply, n: nat) {
    forall j: nat {:trigger StepsTo(ask, cursor, page, n, j)} :: j < n ==> StepsTo(ask, cursor, page, n, j)
  }

  /** `rs` is pages `k` up to the last. */
  ghost predicate Pages(rs: seq<Reply>, page: nat -> Reply, k: nat, n: nat) {
    |rs| == n - k && forall j: nat {:trigger rs[j]} :: j < |rs| ==> rs[j] == page(k + j)
  }

  lemma PagesCons(rest: seq<Reply>, page: nat -> Reply, k: nat, n: nat)
    requires k < n && Pages(rest, page, k + 1, n)
    ensures Pages([page(k)] + rest, page, k, n)
  {
    var rs := [page(k)] + rest;
    forall j: nat | j < |rs| ensures rs[j] == page(k + j) {
      if j > 0 { assert rs[j] == rest[j - 1]; }
    }
  }

  lemma {:induction false} FollowFrom(ask: Json -> Reply, cursor: nat -> Json, page: nat -> Reply, n: nat, k: nat,
      fuel: nat)
    requires k < n && fuel >= n - k
    requires StepsAll(ask, cursor, page, n)
    ensures Pages(Follow(ask, cursor(k), fuel), page, k, n)
    decreases fuel
  {
    assert StepsTo(ask, cursor, page, n, k);
    if k + 1 < n {
      FollowFrom(ask, cursor, page, n, k + 1, fuel - 1);
      PagesCons(Follow(ask, cursor(k + 1), fuel - 1), page, k, n);
    }
  }

  /** What the router answers to each cursor. */
  ghost function Ask(cfg: Config, env: Env, q: Query): Json -> Reply
    requires WellFormed(cfg, env)
  {
    c => if WellFormed(cfg, env) then Aggregate(cfg, env, q.(cursor := c)) else Failed
  }

  lemma RoundSteps(cfg: Config, env: Env, q: Query, chains: seq<Chain>)
    requires World(cfg, env, q, chains) && Plain(cfg, q)
    ensures StepsAll(Ask(cfg, env, q), Cursors(cfg, q, chains), Replies(cfg, env, q, chains), Longest(chains))
  {
    var ask, cursor, page := Ask(cfg, env, q), Cursors(cfg, q, chains), Replies(cfg, env, q, chains);
    forall j: nat | j < Longest(chains) ensures StepsTo(ask, cursor, page, Longest(chains), j) {
      RoundStep(cfg, env, q, chains, j);
    }
  }

  /** The client stops after exactly as many requests as the longest backend
      has pages, whatever patience it has beyond that; request `k` returns the
      rows of every page `k`, in backend order, and only the last request
      returns no cursor. */
  lemma DrainStops(cfg: Config, env: Env, q: Query, chains: seq<Chain>, fuel: nat)
    requires World(cfg, env, q, chains) && Plain(cfg, q) && fuel >= Longest(chains)
    ensures var rs := Follow(Ask(cfg, env, q), Null, fuel);
      && |rs| == Longest(chains)
      && forall k: nat :: k < |rs| ==> rs[k] == RoundReply(cfg, env, q, chains, k)
  {
    LongestIs(chains);
    RoundSteps(cfg, env, q, chains);
    FollowFrom(Ask(cfg, env, q), Cursors(cfg, q, chains), Replies(cfg, env, q, chains), Longest(chains), 0, fuel);
    PagesAreReplies(cfg, env, q, chains, Follow(Ask(cfg, env, q), Null, fuel));
  }

  lemma PagesAreReplies(cfg: Config, env: Env, q: Query, chains: seq<Chain>, rs: seq<Reply>)
    requires |chains| == |cfg.ids| && Pages(rs, Replies(cfg, env, q, chains), 0, Longest(chains))
    ensures |rs| == Longest(chains)
    ensures forall k: nat {:trigger rs[k]} :: k < |rs| ==> rs[k] == RoundReply(cfg, env, q, chains, k)
  {
    forall k: nat | k < |rs| ensures rs[k] == RoundReply(cfg, env, q, chains, k) {
      assert rs[k] == Replies(cfg, env, q, chains)(0 + k);
    }
  }

  function Cursors(cfg: Config, q: Query, chains: seq<Chain>): nat -> Json
    requires |chains| == |cfg.ids|
  {
    (k: nat) => RoundCursor(cfg, q, chains, k)
  }

  function Replies(cfg: Config, env: Env, q: Query, chains: seq<Chain>): nat -> Reply
    requires |chains| == |cfg.ids|
  {
    (k: nat) => RoundReply(cfg, env, q, chains, k)
  }

  lemma ReplyLeadsOn(cfg: Config, env: Env, q: Query, chains: seq<Chain>, j: nat)
    requires |chains| == |cfg.ids| && j < Longest(chains)
    ensures var r := RoundReply(cfg, env, q, chains, j);
      && r.Page? && (r.next.Some? <==> j + 1 < Longest(chains))
      && (j + 1 < Longest(chains) ==> RoundCursor(cfg, q, chains, j + 1) == Str(r.next.value))
  {
  }

  lemma RoundStep(cfg: Config, env: Env, q: Query, chains: seq<Chain>, j: nat)
    requires World(cfg, env, q, chains) && Plain(cfg, q) && j < Longest(chains)
    ensures StepsTo(Ask(cfg, env, q), Cursors(cfg, q, chains), Replies(cfg, env, q, chains), Longest(chains), j)
  {
    ReplyLeadsOn(cfg, env, q, chains, j);
    assert Ask(cfg, env, q)(RoundCursor(cfg, q, chains, j)) == RoundReply(cfg, env, q, chains, j) by {
      RoundIs(cfg, env, q, chains, j);
    }
  }

  ghost predicate AsksRight(cfg: Config, q: Query, chains: seq<Chain>, k: nat, n: nat, i: nat, asked: seq<(nat, Json)>)
    requires i < |cfg.ids| == |chains| && |chains[i].pages| == |chains[i].cursors| + 1
  {
    && (forall a :: 0 <= a < |asked| ==> asked[a].0 < n)
    && (forall a, b :: 0 <= a < b < |asked| ==> asked[a].0 < asked[b].0)
    && (i < n && Active(chains, i, k) ==> (i, ParamsWith(cfg, q, CursorAt(chains[i], k))) in asked)
    && (forall a :: 0 <= a < |asked| && asked[a].0 == i ==>
          Active(chains, i, k) && asked[a].1 == ParamsWith(cfg, q, CursorAt(chains[i], k)))
  }

  lemma AsksSnoc(cfg: Config, q: Query, chains: seq<Chain>, k: nat, n: nat, i: nat, asked: seq<(nat, Json)>, p: Json)
    requires i < |cfg.ids| == |chains| && |chains[i].pages| == |chains[i].cursors| + 1 && n < |chains|
    requires AsksRight(cfg, q, chains, k, n, i, asked)
    requires i == n && Active(chains, n, k) ==> p == ParamsWith(cfg, q, CursorAt(chains[n], k))
    ensures AsksRight(cfg, q, chains, k, n + 1, i, asked + (if Active(chains, n, k) then [(n, p)] else []))
  {
    if i == n && Active(chains, n, k) {
      assert (asked + [(n, p)])[|asked|] == (n, p);
    }
  }

  lemma {:induction false} RoundAskedIs(cfg: Config, q: Query, chains: seq<Chain>, k: nat, n: nat, i: nat)
    requires n <= |cfg.ids| == |chains| && forall j ::
      0 <= j < |chains| ==> |chains[j].pages| == |chains[j].cursors| + 1
    requires i < |chains|
    ensures AsksRight(cfg, q, chains, k, n, i, RoundAsked(cfg, q, chains, k, n))
  {
    if n > 0 {
      RoundAskedIs(cfg, q, chains, k, n - 1, i);
      var p := if Active(chains, n - 1, k) then ParamsWith(cfg, q, CursorAt(chains[n - 1], k)) else Null;
      AsksSnoc(cfg, q, chains, k, n - 1, i, RoundAsked(cfg, q, chains, k, n - 1), p);
    }
  }

  /** Request `k` of the drain asks each backend at most once, in order, and
      asks backend `i` exactly when it has a page `k`, for that page; so over
      the whole run every page is fetched exactly once. */
  lemma EachPageFetchedOnce(cfg: Config, env: Env, q: Query, chains: seq<Chain>, k: nat, i: nat)
    requires World(cfg, env, q, chains) && i < |chains|
    ensures ChainOk(chains[i])
    ensures AsksRight(cfg, q, chains, k, |cfg.ids|, i, Asked(cfg, env, AtRound(cfg, q, chains, k), |cfg.ids|))
  {
    ChainsOk(cfg, env, q, chains);
    RoundAsksAll(cfg, env, q, chains, k, |cfg.ids|);
    RoundAskedIs(cfg, q, chains, k, |cfg.ids|, i);
  }

  // ---- What each backend contributed ----

  function AllItems(q: Query, c: Chain, n: nat): seq<Json>
    requires n <= |c.pages|
  {
    if n == 0 then [] else AllItems(q, c, n - 1) + Listed(q, c.pages[n - 1])
  }

  function OwnedBy(q: Query, id: string, items: seq<Json>): seq<Json> {
    if items == [] then []
    else
      var last := items[|items| - 1];
      var name := OrEmpty(GetStr(last, q.cap.field));
      OwnedBy(q, id, items[..|items| - 1]) +
      (if Resolve(q.cap.kind, name).Some? && Resolve(q.cap.kind, name).value.0 == id then [last] else [])
  }

  lemma {:induction false} OwnedByConcat(q: Query, id: string, a: seq<Json>, b: seq<Json>)
    ensures OwnedBy(q, id, a + b) == OwnedBy(q, id, a) + OwnedBy(q, id, b)
  {
    if b == [] {
      assert a + b == a;
    } else {
      var b' := b[..|b| - 1];
      assert (a + b)[..|a + b| - 1] == a + b';
      OwnedByConcat(q, id, a, b');
    }
  }

  /** A value whose label can be read back. */
  predicate Labelable(kind: Kind, value: string) {
    match kind
    case Name => value != ""
    case Uri => Namespace.HasScheme(value)
  }

  predicate GoodId(id: string) {
    Namespace.ValidBackendId(id) && !Namespace.EndsInUnderscore(id)
  }

  lemma GoodIdIsSlashFree(id: string)
    requires GoodId(id)
    ensures id != "" && Namespace.SlashFree(id)
  {
    forall j ensures !Namespace.At(id, "/", j) {
      assert 0 <= j < |id| ==> id[j..j + 1][0] == id[j];
    }
  }

  /** Labels are read back exactly for the values that can carry one. */
  lemma ResolveUndoesLabel(kind: Kind, id: string, value: string)
    requires GoodId(id)
    ensures Resolve(kind, Label(kind, id, value)) == Some((id, value)) <==> Labelable(kind, value)
  {
    match kind
    case Name => Namespace.SplitUndoesPrefix(id, value);
    case Uri =>
      GoodIdIsSlashFree(id);
      Namespace.SplitUriUndoesPrefixUri(id, value);
  }

  ghost predicate AllLabelable(q: Query, listed: seq<Json>) {
    forall i :: 0 <= i < |listed| && GetStr(listed[i], q.cap.field).Some? ==>
      Labelable(q.cap.kind, GetStr(listed[i], q.cap.field).value)
  }

  lemma OwnedByOne(q: Query, owner: string, item: Json)
    ensures var name := OrEmpty(GetStr(item, q.cap.field));
      OwnedBy(q, owner, [item]) ==
        if Resolve(q.cap.kind, name).Some? && Resolve(q.cap.kind, name).value.0 == owner then [item] else []
  {
    assert [item][..0] == [];
    assert OwnedBy(q, owner, []) == [];
  }

  lemma RowOwner(cfg: Config, env: Env, q: Query, id: string, owner: string, item: Json)
    requires GoodId(id) && !Single(cfg) && !PassesThrough(cfg, q)
    requires GetStr(item, q.cap.field).Some? ==> Labelable(q.cap.kind, GetStr(item, q.cap.field).value)
    ensures OwnedBy(q, owner, Row(cfg, env, q, id, item)) == if id == owner then Row(cfg, env, q, id, item) else []
  {
    var row := Row(cfg, env, q, id, item);
    if row != [] {
      var value := GetStr(item, q.cap.field).value;
      var labelled := Put(item, q.cap.field, Str(Label(q.cap.kind, id, value)));
      assert row == [labelled];
      assert GetStr(labelled, q.cap.field) == Some(Label(q.cap.kind, id, value));
      ResolveUndoesLabel(q.cap.kind, id, value);
      OwnedByOne(q, owner, labelled);
    }
  }

  lemma {:induction false} RowsOwner(cfg: Config, env: Env, q: Query, id: string, owner: string, listed: seq<Json>)
    requires GoodId(id) && !Single(cfg) && !PassesThrough(cfg, q) && AllLabelable(q, listed)
    ensures OwnedBy(q, owner, Rows(cfg, env, q, id, listed))
         == if id == owner then Rows(cfg, env, q, id, listed) else []
  {
    if listed != [] {
      var rest, last := listed[..|listed| - 1], listed[|listed| - 1];
      RowsOwner(cfg, env, q, id, owner, rest);
      RowOwner(cfg, env, q, id, owner, last);
      OwnedByConcat(q, owner, Rows(cfg, env, q, id, rest), Row(cfg, env, q, id, last));
    }
  }

  /** Every backend id is good and every name it lists can carry a label. */
  ghost predicate Nameable(cfg: Config, q: Query, chains: seq<Chain>)
    requires |chains| == |cfg.ids|
  {
    && !Single(cfg) && !PassesThrough(cfg, q)
    && (forall i {:trigger GoodId(cfg.ids[i])} :: 0 <= i < |cfg.ids| ==> GoodId(cfg.ids[i]))
    && (forall i, k {:trigger AllLabelable(q, Listed(q, chains[i].pages[k]))} ::
          0 <= i < |chains| && 0 <= k < |chains[i].pages| ==> AllLabelable(q, Listed(q, chains[i].pages[k])))
  }

  function Owned(q: Query, id: string): seq<Json> -> seq<Json> {
    items => OwnedBy(q, id, items)
  }

  lemma OwnedDistributes(q: Query, id: string)
    ensures Distributes(Owned(q, id))
  {
    forall a, b ensures OwnedBy(q, id, a + b) == OwnedBy(q, id, a) + OwnedBy(q, id, b) {
      OwnedByConcat(q, id, a, b);
    }
  }

  lemma RoundOwner(cfg: Config, env: Env, q: Query, chains: seq<Chain>, k: nat, i: nat)
    requires |cfg.ids| == |chains| && Distinct(cfg.ids) && Nameable(cfg, q, chains) && i < |cfg.ids|
    ensures OwnedBy(q, cfg.ids[i], RoundItems(cfg, env, q, chains, k)) == RoundRows(cfg, env, q, chains, k, i)
  {
    var own := Owned(q, cfg.ids[i]);
    var f := RowsByBackend(cfg, env, q, chains, k);
    var mine := RoundRows(cfg, env, q, chains, k, i);
    var g := (j: nat) => if j == i then mine else [];
    forall j: nat | j < |cfg.ids| ensures own(f(j)) == g(j) {
      RoundOwnerStep(cfg, env, q, chains, k, j, i);
    }
    OwnedDistributes(q, cfg.ids[i]);
    CatMap(own, f, g, |cfg.ids|);
    CatOnly(g, |cfg.ids|, i);
  }

  lemma RoundOwnerStep(cfg: Config, env: Env, q: Query, chains: seq<Chain>, k: nat, j: nat, i: nat)
    requires |cfg.ids| == |chains| && Distinct(cfg.ids) && Nameable(cfg, q, chains) && j < |cfg.ids| && i < |cfg.ids|
    ensures OwnedBy(q, cfg.ids[i], RoundRows(cfg, env, q, chains, k, j))
         == if i == j then RoundRows(cfg, env, q, chains, k, i) else []
  {
    if Active(chains, j, k) {
      assert GoodId(cfg.ids[j]) && AllLabelable(q, Listed(q, chains[j].pages[k]));
      RowsOwner(cfg, env, q, cfg.ids[j], cfg.ids[i], Listed(q, chains[j].pages[k]));
    }
  }

  function ItemsByRound(cfg: Config, env: Env, q: Query, chains: seq<Chain>): nat -> seq<Json>
    requires |chains| == |cfg.ids|
  {
    (k: nat) => RoundItems(cfg, env, q, chains, k)
  }

  function RowsByRound(cfg: Config, env: Env, q: Query, chains: seq<Chain>, i: nat): nat -> seq<Json>
    requires |chains| == |cfg.ids|
  {
    (k: nat) => RoundRows(cfg, env, q, chains, k, i)
  }

  /** All the items of the first `n` requests. */
  function Received(cfg: Config, env: Env, q: Query, chains: seq<Chain>, n: nat): seq<Json>
    requires |chains| == |cfg.ids|
  {
    Cat(ItemsByRound(cfg, env, q, chains), n)
  }

  /** The pages of one backend, up to `n` or its last. */
  function Upto(c: Chain, n: nat): nat {
    if n < |c.pages| then n else |c.pages|
  }

  lemma RowsOfAllStep(cfg: Config, env: Env, q: Query, chains: seq<Chain>, i: nat, n: nat)
    requires |cfg.ids| == |chains| && i < |chains|
    ensures Rows(cfg, env, q, cfg.ids[i], AllItems(q, chains[i], Upto(chains[i], n + 1)))
         == Rows(cfg, env, q, cfg.ids[i], AllItems(q, chains[i], Upto(chains[i], n))) +
           RoundRows(cfg, env, q, chains, n, i)
  {
    var c := chains[i];
    if n < |c.pages| {
      assert Upto(c, n) == n && Upto(c, n + 1) == n + 1;
      assert RoundRows(cfg, env, q, chains, n, i) == Rows(cfg, env, q, cfg.ids[i], Listed(q, c.pages[n]));
      assert AllItems(q, c, n + 1) == AllItems(q, c, n) + Listed(q, c.pages[n]);
      RowsConcat(cfg, env, q, cfg.ids[i], AllItems(q, c, n), Listed(q, c.pages[n]));
    } else {
      assert Upto(c, n) == Upto(c, n + 1);
      assert RoundRows(cfg, env, q, chains, n, i) == [];
    }
  }

  ghost predicate RowsMatch(cfg: Config, env: Env, q: Query, chains: seq<Chain>, i: nat, n: nat)
    requires i < |cfg.ids| == |chains|
  {
    Cat(RowsByRound(cfg, env, q, chains, i), n) ==
      Rows(cfg, env, q, cfg.ids[i], AllItems(q, chains[i], Upto(chains[i], n)))
  }

  lemma RowsMatchNone(cfg: Config, env: Env, q: Query, chains: seq<Chain>, i: nat)
    requires i < |cfg.ids| == |chains|
    ensures RowsMatch(cfg, env, q, chains, i, 0)
  {
  }

  lemma RowsMatchSnoc(cfg: Config, env: Env, q: Query, chains: seq<Chain>, i: nat, n: nat)
    requires i < |cfg.ids| == |chains| && RowsMatch(cfg, env, q, chains, i, n)
    ensures RowsMatch(cfg, env, q, chains, i, n + 1)
  {
    RowsOfAllStep(cfg, env, q, chains, i, n);
  }

  lemma {:induction false} RowsOfAll(cfg: Config, env: Env, q: Query, chains: seq<Chain>, i: nat, n: nat)
    requires i < |cfg.ids| == |chains|
    ensures RowsMatch(cfg, env, q, chains, i, n)
  {
    RowsMatchNone(cfg, env, q, chains, i);
    for m := 0 to n
      invariant RowsMatch(cfg, env, q, chains, i, m)
    {
      RowsMatchSnoc(cfg, env, q, chains, i, m);
    }
  }

  /** Over the whole drain, the items a client can attribute to a backend are
      exactly that backend's own complete list, labelled, in its own order. */
  lemma DrainIsComplete(cfg: Config, env: Env, q: Query, chains: seq<Chain>, i: nat)
    requires |cfg.ids| == |chains| && Distinct(cfg.ids) && Nameable(cfg, q, chains) && i < |cfg.ids|
    ensures OwnedBy(q, cfg.ids[i], Received(cfg, env, q, chains, Longest(chains)))
         == Rows(cfg, env, q, cfg.ids[i], AllItems(q, chains[i], |chains[i].pages|))
  {
    LongestIs(chains);
    var own := Owned(q, cfg.ids[i]);
    var f := ItemsByRound(cfg, env, q, chains);
    var g := RowsByRound(cfg, env, q, chains, i);
    forall k: nat | k < Longest(chains) ensures own(f(k)) == g(k) {
      RoundOwner(cfg, env, q, chains, k, i);
    }
    OwnedDistributes(q, cfg.ids[i]);
    CatMap(own, f, g, Longest(chains));
    RowsOfAll(cfg, env, q, chains, i, Longest(chains));
  }
}
