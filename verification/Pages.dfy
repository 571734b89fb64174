/** What a list reply holds: stated from the requests that were made, the answers
    they met and the local tools, under each collision strategy. */
module Pages {
  import opened Prelude
  import opened JsonValue
  import opened Listing
  import Namespace
  import Collision
  import Variants
  import FanOut
  import Sorting

  // ---- Where an item comes from ----

  /** Backend `i` was asked, answered, and this is its result. */
  ghost predicate Gave(cfg: Config, env: Env, q: Query, i: nat, result: Json)
    requires WellFormed(cfg, env)
  {
    exists params {:trigger (i, params) in Fetches(cfg, env, q)} ::
      && (i, params) in Fetches(cfg, env, q) && env.fetch(i, params).Some?
      && var given := Get(env.fetch(i, params).value, "result");
        result == if given.Some? then given.value else Obj(map[])
  }

  /** The name under which a backend's `name` is shown before renaming. */
  ghost predicate ShownAs(cfg: Config, q: Query, id: string, name: string, shown: string) {
    if |cfg.ids| == 1 || (q.cap.collection == "tools" && cfg.strategy == "passthrough") then shown == name
    else shown == match q.cap.kind case Name => Namespace.Prefix(id, name) case Uri => Namespace.PrefixUri(id, name)
  }

  /** `item` is backend `i`'s `raw` under the name `shown`, which the filter passes. */
  ghost predicate Comes(cfg: Config, env: Env, q: Query, item: Json, i: nat, result: Json, raw: Json, shown: string)
    requires WellFormed(cfg, env)
  {
    && i < |cfg.ids| && Gave(cfg, env, q, i, result)
    && GetArr(result, q.cap.collection).Some? && raw in GetArr(result, q.cap.collection).value
    && GetStr(raw, q.cap.field).Some? && ShownAs(cfg, q, cfg.ids[i], GetStr(raw, q.cap.field).value, shown)
    && env.nameOk(shown) && item == Put(raw, q.cap.field, Str(shown))
  }

  ghost predicate FromBackend(cfg: Config, env: Env, q: Query, item: Json)
    requires WellFormed(cfg, env)
  {
    exists i, result, raw, shown :: Comes(cfg, env, q, item, i, result, raw, shown)
  }

  /** Local handlers' tools join every tool list, under their own names. */
  ghost predicate FromHandler(cfg: Config, env: Env, q: Query, item: Json) {
    && q.cap.collection == "tools" && item in cfg.localTools
    && env.nameOk(if GetStr(item, q.cap.field).Some? then GetStr(item, q.cap.field).value else "")
  }

  // ---- The fan-out's loops, read as sets ----

  lemma {:induction false} AnswersHold(cfg: Config, env: Env, q: Query, n: nat, i: nat)
    requires WellFormed(cfg, env) && Distinct(cfg.ids) && n <= |cfg.ids| && i < |cfg.ids|
    ensures var answers := Answers(cfg, env, q, n);
      && (cfg.ids[i] in answers <==> i < n && Chosen(cfg, env, q, i) && Answer(cfg, env, q, i).Some?)
      && (cfg.ids[i] in answers ==> answers[cfg.ids[i]] == Answer(cfg, env, q, i).value)
  {
    if n > 0 {
      AnswersHold(cfg, env, q, n - 1, i);
    }
  }

  /** A backend's entry in the answers is what it gave. */
  lemma EntryIsGiven(cfg: Config, env: Env, q: Query, i: nat, result: Json)
    requires WellFormed(cfg, env) && Distinct(cfg.ids) && i < |cfg.ids| && CursorAccepted(cfg, q)
    ensures var answers := Answers(cfg, env, q, |cfg.ids|);
      (Chosen(cfg, env, q, i) && cfg.ids[i] in answers && answers[cfg.ids[i]] == result) <==>
        Gave(cfg, env, q, i, result)
  {
    AnswersHold(cfg, env, q, |cfg.ids|, i);
    if Chosen(cfg, env, q, i) {
      FanOut.AskedUpTo(cfg, env, q, |cfg.ids|, i, Params(cfg, q, i));
      assert (i, Params(cfg, q, i)) in Fetches(cfg, env, q);
    }
    if Gave(cfg, env, q, i, result) {
      var params :| (i, params) in Fetches(cfg, env, q) && env.fetch(i, params).Some?;
      FanOut.AskedUpTo(cfg, env, q, |cfg.ids|, i, params);
      GaveOnce(cfg, env, q, i, result);
    }
  }

  lemma GaveOnce(cfg: Config, env: Env, q: Query, i: nat, result: Json)
    requires WellFormed(cfg, env) && i < |cfg.ids| && Gave(cfg, env, q, i, result)
    ensures Chosen(cfg, env, q, i) && Answer(cfg, env, q, i) == Some(result)
  {
    forall params | (i, params) in Fetches(cfg, env, q)
      ensures Chosen(cfg, env, q, i) && params == Params(cfg, q, i)
    {
      FanOut.AskedUpTo(cfg, env, q, |cfg.ids|, i, params);
    }
  }

  lemma {:induction false} RowsHold(cfg: Config, env: Env, q: Query, id: string, listed: seq<Json>, item: Json)
    ensures item in Rows(cfg, env, q, id, listed) <==> exists raw :: raw in listed && item in Row(cfg, env, q, id, raw)
  {
    if listed != [] {
      var n := |listed| - 1;
      RowsHold(cfg, env, q, id, listed[..n], item);
      assert listed == listed[..n] + [listed[n]];
    }
  }

  /** Backend `i`'s turn adds `item`. */
  ghost predicate Adds(cfg: Config, env: Env, q: Query, answers: map<string, Json>, item: Json, i: nat)
    requires WellFormed(cfg, env)
  {
    i < |cfg.ids| && Chosen(cfg, env, q, i) && cfg.ids[i] in answers &&
      item in Rows(cfg, env, q, cfg.ids[i], Listed(q, answers[cfg.ids[i]]))
  }

  lemma ItemsStep(cfg: Config, env: Env, q: Query, answers: map<string, Json>, n: nat, item: Json)
    requires WellFormed(cfg, env) && 0 < n <= |cfg.ids|
    ensures item in Items(cfg, env, q, answers, n) <==>
      item in Items(cfg, env, q, answers, n - 1) || Adds(cfg, env, q, answers, item, n - 1)
  {
  }

  lemma {:induction false} ItemsFound(cfg: Config, env: Env, q: Query, answers: map<string, Json>, n: nat, item: Json)
      returns (i: nat)
    requires WellFormed(cfg, env) && n <= |cfg.ids| && item in Items(cfg, env, q, answers, n)
    ensures Adds(cfg, env, q, answers, item, i)
  {
    assert n > 0;
    ItemsStep(cfg, env, q, answers, n, item);
    if Adds(cfg, env, q, answers, item, n - 1) {
      i := n - 1;
    } else {
      i := ItemsFound(cfg, env, q, answers, n - 1, item);
    }
  }

  lemma {:induction false} ItemsKeep(cfg: Config, env: Env, q: Query, answers: map<string, Json>, m: nat, n: nat,
      item: Json)
    requires WellFormed(cfg, env) && m <= n <= |cfg.ids| && item in Items(cfg, env, q, answers, m)
    ensures item in Items(cfg, env, q, answers, n)
  {
    if m < n {
      ItemsKeep(cfg, env, q, answers, m, n - 1, item);
      ItemsStep(cfg, env, q, answers, n, item);
    }
  }

  /** One backend's share: what its list becomes under the names it is shown by. */
  lemma AddsExactly(cfg: Config, env: Env, q: Query, item: Json, i: nat)
    requires WellFormed(cfg, env) && Distinct(cfg.ids) && CursorAccepted(cfg, q) && i < |cfg.ids|
    ensures Adds(cfg, env, q, Answers(cfg, env, q, |cfg.ids|), item, i) <==>
      exists result, raw, shown :: Comes(cfg, env, q, item, i, result, raw, shown)
  {
    var answers := Answers(cfg, env, q, |cfg.ids|);
    if Adds(cfg, env, q, answers, item, i) {
      var result := answers[cfg.ids[i]];
      EntryIsGiven(cfg, env, q, i, result);
      var raw, shown := RowFound(cfg, env, q, i, Listed(q, result), item);
      assert Comes(cfg, env, q, item, i, result, raw, shown);
    }
    if result, raw, shown :| Comes(cfg, env, q, item, i, result, raw, shown) {
      EntryIsGiven(cfg, env, q, i, result);
      RowIs(cfg, env, q, cfg.ids[i], raw, item);
      RowsHold(cfg, env, q, cfg.ids[i], Listed(q, result), item);
    }
  }

  lemma RowFound(cfg: Config, env: Env, q: Query, i: nat, listed: seq<Json>, item: Json)
      returns (raw: Json, shown: string)
    requires i < |cfg.ids| && item in Rows(cfg, env, q, cfg.ids[i], listed)
    ensures raw in listed && GetStr(raw, q.cap.field).Some?
    ensures ShownAs(cfg, q, cfg.ids[i], GetStr(raw, q.cap.field).value, shown)
    ensures env.nameOk(shown) && item == Put(raw, q.cap.field, Str(shown))
  {
    RowsHold(cfg, env, q, cfg.ids[i], listed, item);
    raw :| raw in listed && item in Row(cfg, env, q, cfg.ids[i], raw);
    RowIs(cfg, env, q, cfg.ids[i], raw, item);
    shown :| ShownAs(cfg, q, cfg.ids[i], GetStr(raw, q.cap.field).value, shown) && env.nameOk(shown) &&
      item == Put(raw, q.cap.field, Str(shown));
  }

  lemma RowIs(cfg: Config, env: Env, q: Query, id: string, raw: Json, item: Json)
    ensures item in Row(cfg, env, q, id, raw) <==>
      && GetStr(raw, q.cap.field).Some?
      && exists shown :: ShownAs(cfg, q, id, GetStr(raw, q.cap.field).value, shown) && env.nameOk(shown) &&
           item == Put(raw, q.cap.field, Str(shown))
  {
    if GetStr(raw, q.cap.field).Some? {
      var shown := Labeled(cfg, q, id, GetStr(raw, q.cap.field).value);
      assert ShownAs(cfg, q, id, GetStr(raw, q.cap.field).value, shown);
    }
  }

  lemma {:induction false} HandlersHold(cfg: Config, env: Env, q: Query, tools: seq<Json>, item: Json)
    ensures item in NameFiltered(env, q, tools) <==>
      && item in tools
      && env.nameOk(if GetStr(item, q.cap.field).Some? then GetStr(item, q.cap.field).value else "")
  {
    if tools != [] {
      var n := |tools| - 1;
      HandlersHold(cfg, env, q, tools[..n], item);
      assert tools == tools[..n] + [tools[n]];
    }
  }

  function Gathered(cfg: Config, env: Env, q: Query): seq<Json>
    requires WellFormed(cfg, env)
  {
    Items(cfg, env, q, Answers(cfg, env, q, |cfg.ids|), |cfg.ids|)
  }

  lemma ItemsHave(cfg: Config, env: Env, q: Query, answers: map<string, Json>, item: Json, i: nat)
    requires WellFormed(cfg, env) && i < |cfg.ids| && Adds(cfg, env, q, answers, item, i)
    ensures item in Items(cfg, env, q, answers, |cfg.ids|)
  {
    assert item in Items(cfg, env, q, answers, i + 1) by {
      ItemsStep(cfg, env, q, answers, i + 1, item);
    }
    ItemsKeep(cfg, env, q, answers, i + 1, |cfg.ids|, item);
  }

  lemma GatheredHold(cfg: Config, env: Env, q: Query, item: Json)
    requires WellFormed(cfg, env) && Distinct(cfg.ids) && CursorAccepted(cfg, q)
    ensures item in Gathered(cfg, env, q) <==> FromBackend(cfg, env, q, item)
  {
    if item in Gathered(cfg, env, q) {
      var i := ItemsFound(cfg, env, q, Answers(cfg, env, q, |cfg.ids|), |cfg.ids|, item);
      AddsExactly(cfg, env, q, item, i);
    }
    if i: nat, result, raw, shown :| Comes(cfg, env, q, item, i, result, raw, shown) {
      AddsExactly(cfg, env, q, item, i);
      ItemsHave(cfg, env, q, Answers(cfg, env, q, |cfg.ids|), item, i);
    }
  }

  /** The composed surface holds exactly what the backends that were asked gave,
      under the names they are shown by, and the local tools. */
  lemma ComposedExactly(cfg: Config, env: Env, q: Query, item: Json)
    requires WellFormed(cfg, env) && Distinct(cfg.ids) && CursorAccepted(cfg, q)
    ensures item in Composed(cfg, env, q, Gathered(cfg, env, q)) <==>
      FromBackend(cfg, env, q, item) || FromHandler(cfg, env, q, item)
  {
    GatheredHold(cfg, env, q, item);
    HandlersHold(cfg, env, q, cfg.localTools, item);
  }

  // ---- The page under each strategy ----

  ghost predicate Source(cfg: Config, env: Env, q: Query, item: Json)
    requires WellFormed(cfg, env)
  {
    FromBackend(cfg, env, q, item) || FromHandler(cfg, env, q, item)
  }

  lemma PageIsSurface(cfg: Config, env: Env, q: Query)
    requires WellFormed(cfg, env) && Aggregate(cfg, env, q).Page?
    ensures CursorAccepted(cfg, q)
    ensures Surface(cfg, q, Composed(cfg, env, q, Gathered(cfg, env, q))) == Some(Aggregate(cfg, env, q).items)
  {
  }

  /** Prompts, resources, and tools under the strategies that neither rename nor
      remove: the page holds what was gathered and nothing else. */
  lemma PlainPage(cfg: Config, env: Env, q: Query, item: Json)
    requires WellFormed(cfg, env) && Distinct(cfg.ids) && Aggregate(cfg, env, q).Page?
    requires q.cap.collection == "tools" ==> cfg.strategy != "manual" && cfg.strategy != "priority"
    ensures item in Aggregate(cfg, env, q).items <==> Source(cfg, env, q, item)
  {
    PageIsSurface(cfg, env, q);
    ComposedExactly(cfg, env, q, item);
  }

  /** `item` is `before` under its explicit name, if the overrides give it one. */
  ghost predicate RenamedTo(cfg: Config, q: Query, before: Json, item: Json) {
    match GetStr(before, q.cap.field)
    case None => item == before
    case Some(name) =>
      if name in cfg.overrides then item == Put(before, q.cap.field, Str(cfg.overrides[name])) else item == before
  }

  lemma RenameIs(cfg: Config, q: Query, before: Json)
    ensures RenamedTo(cfg, q, before, Rename(q.cap.field, cfg.overrides, before))
    ensures forall item :: RenamedTo(cfg, q, before, item) ==> item == Rename(q.cap.field, cfg.overrides, before)
  {
    var name := GetStr(before, q.cap.field);
    if name.Some? && name.value !in cfg.overrides {
      assert before.fields[q.cap.field := Str(name.value)] == before.fields;
    }
  }

  /** Manual tools: the page holds what was gathered, each item under its explicit
      name, and nothing else. */
  lemma ManualPage(cfg: Config, env: Env, q: Query, item: Json)
    requires WellFormed(cfg, env) && Distinct(cfg.ids) && Aggregate(cfg, env, q).Page?
    requires q.cap.collection == "tools" && cfg.strategy == "manual"
    ensures item in Aggregate(cfg, env, q).items <==>
      exists before :: Source(cfg, env, q, before) && RenamedTo(cfg, q, before, item)
  {
    PageIsSurface(cfg, env, q);
    var composed := Composed(cfg, env, q, Gathered(cfg, env, q));
    var renamed := RenameAll(q.cap.field, cfg.overrides, composed);
    if item in renamed {
      var k :| 0 <= k < |renamed| && renamed[k] == item;
      ComposedExactly(cfg, env, q, composed[k]);
      RenameIs(cfg, q, composed[k]);
    }
    if before :| Source(cfg, env, q, before) && RenamedTo(cfg, q, before, item) {
      ComposedExactly(cfg, env, q, before);
      RenameIs(cfg, q, before);
      var k :| 0 <= k < |composed| && composed[k] == before;
      assert renamed[k] == item;
    }
  }

  /** The name and the standing by which the priority strategy compares an item. */
  ghost predicate Competes(cfg: Config, q: Query, item: Json, original: string, rank: nat) {
    var text := if GetStr(item, q.cap.field).Some? then GetStr(item, q.cap.field).value else "";
    match (match q.cap.kind case Name => Namespace.Split(text) case Uri => Namespace.SplitUri(text))
    case Some((id, name)) => original == name && Collision.StandsAt(cfg.priority, id, rank)
    case None => original == text && rank == |cfg.priority|
  }

  lemma CompetesAs(cfg: Config, q: Query, item: Json)
    ensures forall original, rank :: Competes(cfg, q, item, original, rank) <==>
      original == Collision.OriginalOf(Ranking(cfg, q), item) && rank == Collision.RankOf(Ranking(cfg, q), item)
  {
    Collision.RankedByBackend(Ranking(cfg, q), item);
  }

  /** Some item of the page stands for this one: same original name, no worse rank. */
  ghost predicate StoodForBy(cfg: Config, q: Query, items: seq<Json>, item: Json) {
    exists k, original, r, s {:trigger Competes(cfg, q, item, original, r), Competes(cfg, q, items[k], original, s)} ::
      && 0 <= k < |items| && s <= r
      && Competes(cfg, q, item, original, r) && Competes(cfg, q, items[k], original, s)
  }

  /** Priority tools: the page holds gathered items only, no two under one original
      name, and for every gathered item one of its original name whose backend
      stands no lower. */
  lemma PriorityPage(cfg: Config, env: Env, q: Query)
    requires WellFormed(cfg, env) && Distinct(cfg.ids) && Aggregate(cfg, env, q).Page?
    requires q.cap.collection == "tools" && cfg.strategy == "priority"
    ensures var items := Aggregate(cfg, env, q).items;
      && (forall item :: item in items ==> Source(cfg, env, q, item))
      && (forall item {:trigger Source(cfg, env, q, item)} :: Source(cfg, env, q, item) ==>
            StoodForBy(cfg, q, items, item))
      && (forall a, b, original, r, s {:trigger Competes(cfg, q, items[a], original, r),
                                       Competes(cfg, q, items[b], original, s)} ::
            0 <= a < b < |items| && Competes(cfg, q, items[a], original, r) ==>
              !Competes(cfg, q, items[b], original, s))
  {
    PageIsSurface(cfg, env, q);
    var composed, items := Composed(cfg, env, q, Gathered(cfg, env, q)), Aggregate(cfg, env, q).items;
    forall item ensures item in composed <==> Source(cfg, env, q, item) {
      ComposedExactly(cfg, env, q, item);
    }
    BestOfEach(cfg, q, composed);
  }

  lemma BestOfEach(cfg: Config, q: Query, composed: seq<Json>)
    ensures var items := Collision.Output(Ranking(cfg, q), composed);
      && (forall item :: item in items ==> item in composed)
      && (forall item {:trigger item in composed} :: item in composed ==> StoodForBy(cfg, q, items, item))
      && (forall a, b, original, r, s {:trigger Competes(cfg, q, items[a], original, r),
                                       Competes(cfg, q, items[b], original, s)} ::
            0 <= a < b < |items| && Competes(cfg, q, items[a], original, r) ==>
              !Competes(cfg, q, items[b], original, s))
  {
    var r := Ranking(cfg, q);
    var items, xs := Collision.Output(r, composed), Collision.View(r, composed);
    Collision.PriorityIsArgmin(r, composed);
    var ys := Collision.View(r, items);
    forall item ensures forall o, n :: Competes(cfg, q, item, o, n) <==>
      o == Collision.OriginalOf(r, item) && n == Collision.RankOf(r, item)
    {
      CompetesAs(cfg, q, item);
    }
    forall item | item in items ensures item in composed {
      var k :| 0 <= k < |items| && items[k] == item;
      assert Collision.Best(xs, |xs|, ys[k]);
    }
    forall item | item in composed ensures StoodForBy(cfg, q, items, item) {
      var i :| 0 <= i < |composed| && composed[i] == item;
      StoodFor(cfg, q, composed, i);
    }
    forall a, b, original, m, n | 0 <= a < b < |items| && Competes(cfg, q, items[a], original, m)
      ensures !Competes(cfg, q, items[b], original, n)
    {
      assert ys[a].original != ys[b].original;
    }
  }

  lemma StoodFor(cfg: Config, q: Query, composed: seq<Json>, i: nat)
    requires i < |composed|
    ensures StoodForBy(cfg, q, Collision.Output(Ranking(cfg, q), composed), composed[i])
  {
    var r := Ranking(cfg, q);
    var items, xs := Collision.Output(r, composed), Collision.View(r, composed);
    Collision.PriorityIsArgmin(r, composed);
    var ys := Collision.View(r, items);
    assert Collision.Named(ys, xs[i].original);
    var k :| 0 <= k < |ys| && ys[k].original == xs[i].original;
    assert Collision.Best(xs, |xs|, ys[k]);
    var j: nat :| Collision.IsArgmin(xs, |xs|, ys[k].original, j) && ys[k] == xs[j];
    CompetesAs(cfg, q, composed[i]);
    CompetesAs(cfg, q, items[k]);
    assert Competes(cfg, q, composed[i], xs[i].original, xs[i].rank);
    assert Competes(cfg, q, items[k], xs[i].original, ys[k].rank);
  }

  // ---- Refusals ----

  /** Backend `i` was asked and did not answer. */
  ghost predicate LetDown(cfg: Config, env: Env, q: Query, i: nat)
    requires WellFormed(cfg, env)
  {
    exists params {:trigger (i, params) in Fetches(cfg, env, q)} ::
      (i, params) in Fetches(cfg, env, q) && env.fetch(i, params).None?
  }

  lemma LetDownExactly(cfg: Config, env: Env, q: Query, i: nat)
    requires WellFormed(cfg, env) && CursorAccepted(cfg, q)
    ensures LetDown(cfg, env, q, i) <==>
      i < |cfg.ids| && Chosen(cfg, env, q, i) && Answer(cfg, env, q, i).None?
  {
    forall params ensures (i, params) in Fetches(cfg, env, q) <==>
      i < |cfg.ids| && Chosen(cfg, env, q, i) && params == Params(cfg, q, i)
    {
      FanOut.AskedUpTo(cfg, env, q, |cfg.ids|, i, params);
    }
    if i < |cfg.ids| && Chosen(cfg, env, q, i) {
      assert (i, Params(cfg, q, i)) in Fetches(cfg, env, q);
    }
  }

  lemma SomeFails(cfg: Config, env: Env, q: Query)
    requires WellFormed(cfg, env) && CursorAccepted(cfg, q)
    ensures Failing(cfg, env, q, |cfg.ids|) != [] <==>
      exists i: nat {:trigger LetDown(cfg, env, q, i)} :: LetDown(cfg, env, q, i)
  {
    var failing := Failing(cfg, env, q, |cfg.ids|);
    if failing != [] {
      FailingExactly(cfg, env, q, |cfg.ids|, failing[0]);
      var i :| 0 <= i < |cfg.ids| && Chosen(cfg, env, q, i) && Answer(cfg, env, q, i).None?;
      LetDownExactly(cfg, env, q, i);
    }
    if i: nat :| LetDown(cfg, env, q, i) {
      LetDownExactly(cfg, env, q, i);
      FailingExactly(cfg, env, q, |cfg.ids|, cfg.ids[i]);
    }
  }

  lemma NobodyIsAsked(cfg: Config, env: Env, q: Query, i: nat)
    requires WellFormed(cfg, env) && !CursorAccepted(cfg, q)
    ensures !LetDown(cfg, env, q, i)
  {
  }

  /** Two gathered items with different names are exposed under one. */
  ghost predicate Clash(cfg: Config, env: Env, q: Query)
    requires WellFormed(cfg, env)
  {
    exists x, y, m, n {:trigger GetStr(x, q.cap.field) == Some(m), GetStr(y, q.cap.field) == Some(n)} ::
      && Source(cfg, env, q, x) && GetStr(x, q.cap.field) == Some(m)
      && Source(cfg, env, q, y) && GetStr(y, q.cap.field) == Some(n)
      && m != n && Exposed(cfg, m) == Exposed(cfg, n)
  }

  function Exposed(cfg: Config, name: string): string {
    if name in cfg.overrides then cfg.overrides[name] else name
  }

  lemma {:induction false} NamesHold(field: string, items: seq<Json>, name: string)
    ensures name in NamesOf(field, items) <==> exists x :: x in items && GetStr(x, field) == Some(name)
  {
    if items != [] {
      var n := |items| - 1;
      NamesHold(field, items[..n], name);
      assert items == items[..n] + [items[n]];
    }
  }

  lemma ClashIsListed(cfg: Config, env: Env, q: Query, names: seq<string>)
    requires WellFormed(cfg, env)
    requires forall n :: n in names <==> exists x :: Source(cfg, env, q, x) && GetStr(x, q.cap.field) == Some(n)
    ensures Collision.Clashing(names, cfg.overrides) <==> Clash(cfg, env, q)
  {
    if Collision.Clashing(names, cfg.overrides) {
      var i, j :| 0 <= i < |names| && 0 <= j < |names| && names[i] != names[j] &&
        Collision.TargetOf(names[i], cfg.overrides) == Collision.TargetOf(names[j], cfg.overrides);
      assert names[i] in names && names[j] in names;
      assert Exposed(cfg, names[i]) == Exposed(cfg, names[j]);
    }
    if Clash(cfg, env, q) {
      var x, y, m, n :| Source(cfg, env, q, x) && GetStr(x, q.cap.field) == Some(m) && Source(cfg, env, q, y) &&
        GetStr(y, q.cap.field) == Some(n) && m != n && Exposed(cfg, m) == Exposed(cfg, n);
      var i :| 0 <= i < |names| && names[i] == m;
      var j :| 0 <= j < |names| && names[j] == n;
    }
  }

  lemma ClashIs(cfg: Config, env: Env, q: Query)
    requires WellFormed(cfg, env) && Distinct(cfg.ids) && CursorAccepted(cfg, q)
    ensures Collision.Clashing(NamesOf(q.cap.field, Composed(cfg, env, q, Gathered(cfg, env, q))), cfg.overrides)
       <==> Clash(cfg, env, q)
  {
    var composed := Composed(cfg, env, q, Gathered(cfg, env, q));
    forall x ensures x in composed <==> Source(cfg, env, q, x) {
      ComposedExactly(cfg, env, q, x);
    }
    forall n ensures n in NamesOf(q.cap.field, composed) <==>
      exists x :: Source(cfg, env, q, x) && GetStr(x, q.cap.field) == Some(n)
    {
      NamesHold(q.cap.field, composed, n);
    }
    ClashIsListed(cfg, env, q, NamesOf(q.cap.field, composed));
  }

  /** Every refusal has its cause, and no other: a composite cursor minted for
      another variant, a cursor nobody can route, a failure that resilience does not
      absorb, or a rename that merges two names. */
  lemma RefusesExactly(cfg: Config, env: Env, q: Query)
    requires WellFormed(cfg, env) && Distinct(cfg.ids)
    ensures var (r, resolved) := (Aggregate(cfg, env, q), Variants.ResolveCursor(cfg.wire, q.cursor));
      && (r.WrongVariant? <==> resolved.Some? && !FanOut.InForce(cfg, q, resolved.value.0))
      && (r.WrongVariant? ==> r.minted == resolved.value.0 && FanOut.InForce(cfg, q, r.requested))
      && (r.UnknownCursor? <==> resolved.None? && q.cursor != Null && |cfg.ids| != 1)
      && (r.Failed? <==> !cfg.resilient && exists i: nat {:trigger LetDown(cfg, env, q, i)} :: LetDown(cfg, env, q, i))
      && (r.ManualClash? <==>
            && !r.WrongVariant? && !r.UnknownCursor? && !r.Failed?
            && q.cap.collection == "tools" && cfg.strategy == "manual" && Clash(cfg, env, q))
  {
    var resolved := Variants.ResolveCursor(cfg.wire, q.cursor);
    FanOut.EffectiveIsInForce(cfg, q, Effective(cfg, q));
    if resolved.Some? {
      FanOut.EffectiveIsInForce(cfg, q, resolved.value.0);
    }
    if CursorAccepted(cfg, q) {
      SomeFails(cfg, env, q);
      ClashIs(cfg, env, q);
    } else {
      forall i: nat ensures !LetDown(cfg, env, q, i) {
        NobodyIsAsked(cfg, env, q, i);
      }
    }
  }

  // ---- The rest of the page ----

  lemma {:induction false} NextHold(cfg: Config, env: Env, q: Query, answers: map<string, Json>, n: nat, i: nat)
    requires WellFormed(cfg, env) && Distinct(cfg.ids) && n <= |cfg.ids| && i < |cfg.ids|
    ensures var (next, id) := (NextCursors(cfg, env, q, answers, n), cfg.ids[i]);
      && (id in next <==> i < n && Chosen(cfg, env, q, i) && id in answers && GetStr(answers[id], "nextCursor").Some?)
      && (id in next ==> Some(next[id]) == GetStr(answers[id], "nextCursor"))
  {
    if n > 0 {
      NextHold(cfg, env, q, answers, n - 1, i);
    }
  }

  lemma {:induction false} NextKeys(cfg: Config, env: Env, q: Query, answers: map<string, Json>, n: nat, id: string)
    requires WellFormed(cfg, env) && n <= |cfg.ids| && id in NextCursors(cfg, env, q, answers, n)
    ensures id in cfg.ids
  {
    if n > 0 && id in NextCursors(cfg, env, q, answers, n - 1) {
      NextKeys(cfg, env, q, answers, n - 1, id);
    }
  }

  /** Backend `i` has more to give, from cursor `c` on. */
  ghost predicate HasMore(cfg: Config, env: Env, q: Query, i: nat, c: string)
    requires WellFormed(cfg, env)
  {
    exists result {:trigger Gave(cfg, env, q, i, result)} ::
      Gave(cfg, env, q, i, result) && GetStr(result, "nextCursor") == Some(c)
  }

  lemma NextIs(cfg: Config, env: Env, q: Query, i: nat, c: string)
    requires WellFormed(cfg, env) && Distinct(cfg.ids) && CursorAccepted(cfg, q) && i < |cfg.ids|
    ensures var next := NextCursors(cfg, env, q, Answers(cfg, env, q, |cfg.ids|), |cfg.ids|);
      (cfg.ids[i] in next && next[cfg.ids[i]] == c) <==> HasMore(cfg, env, q, i, c)
  {
    var answers := Answers(cfg, env, q, |cfg.ids|);
    NextHold(cfg, env, q, answers, |cfg.ids|, i);
    if Chosen(cfg, env, q, i) && cfg.ids[i] in answers {
      EntryIsGiven(cfg, env, q, i, answers[cfg.ids[i]]);
    }
    if result :| Gave(cfg, env, q, i, result) && GetStr(result, "nextCursor") == Some(c) {
      EntryIsGiven(cfg, env, q, i, result);
    }
  }

  /** The page's cursor carries on for exactly the backends that have more, each
      from its own cursor, under the variant in force; there is none when none has. */
  lemma NextExactly(cfg: Config, env: Env, q: Query)
    requires WellFormed(cfg, env) && Distinct(cfg.ids) && Variants.Faithful(cfg.wire)
    requires Aggregate(cfg, env, q).Page?
    ensures var next := Aggregate(cfg, env, q).next;
      if next.None? then forall i: nat, c :: i < |cfg.ids| ==> !HasMore(cfg, env, q, i, c)
      else
        var resolved := Variants.ResolveCursor(cfg.wire, Str(next.value));
        && resolved.Some? && FanOut.InForce(cfg, q, resolved.value.0)
        && (forall id :: id in resolved.value.1 ==> id in cfg.ids)
        && (forall i: nat, c {:trigger HasMore(cfg, env, q, i, c)} :: i < |cfg.ids| ==>
              ((cfg.ids[i] in resolved.value.1 && resolved.value.1[cfg.ids[i]] == c) <==> HasMore(cfg, env, q, i, c)))
  {
    PageIsSurface(cfg, env, q);
    var answers := Answers(cfg, env, q, |cfg.ids|);
    var next := NextCursors(cfg, env, q, answers, |cfg.ids|);
    assert Aggregate(cfg, env, q).next == NextCursor(cfg, q, next);
    forall i: nat, c | i < |cfg.ids|
      ensures (cfg.ids[i] in next && next[cfg.ids[i]] == c) <==> HasMore(cfg, env, q, i, c)
    {
      NextIs(cfg, env, q, i, c);
    }
    forall id | id in next ensures id in cfg.ids {
      NextKeys(cfg, env, q, answers, |cfg.ids|, id);
    }
    Variants.ResolveUndoesBind(cfg.wire, Effective(cfg, q), next);
    FanOut.EffectiveIsInForce(cfg, q, Effective(cfg, q));
  }

  /** A page names as unavailable, once each and in rising order, exactly the
      backends whose breaker is open after the fetches or that were asked and did
      not answer. */
  lemma UnavailableExactly(cfg: Config, env: Env, q: Query)
    requires WellFormed(cfg, env) && Aggregate(cfg, env, q).Page?
    ensures var listed := Aggregate(cfg, env, q).unavailable;
      && Sorting.StrictlyAscending(listed)
      && forall id :: id in listed <==>
           exists i: nat :: i < |cfg.ids| && cfg.ids[i] == id &&
             ((cfg.resilient && !env.still[i]) || LetDown(cfg, env, q, i))
  {
    PageIsSurface(cfg, env, q);
    PageNamesMissing(cfg, env, q);
    forall i: nat | i < |cfg.ids|
      ensures Missing(cfg, env, q, i) <==> (cfg.resilient && !env.still[i]) || LetDown(cfg, env, q, i)
    {
      LetDownExactly(cfg, env, q, i);
    }
  }
}
