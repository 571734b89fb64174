/** The list side of the router: fan a request out to every backend that still
    has pages, label what comes back, and mint one cursor from many. */
module Listing {
  import opened Prelude
  import opened JsonValue
  import Namespace
  import Collision
  import Sorting
  import Variants

  datatype Kind = Name | Uri

  datatype Capability = Capability(list: string, call: string, collection: string, field: string, kind: Kind)

  const TOOLS := Capability("tools/list", "tools/call", "tools", "name", Name)
  const PROMPTS := Capability("prompts/list", "prompts/get", "prompts", "name", Name)
  const RESOURCES := Capability("resources/list", "resources/read", "resources", "uri", Uri)

  const PRIORITY := "priority"
  const MANUAL := "manual"
  const PASSTHROUGH := "passthrough"

  function Label(kind: Kind, id: string, value: string): string {
    match kind
    case Name => Namespace.Prefix(id, value)
    case Uri => Namespace.PrefixUri(id, value)
  }

  function Resolve(kind: Kind, value: string): Option<(string, string)> {
    match kind
    case Name => Namespace.Split(value)
    case Uri => Namespace.SplitUri(value)
  }

  /** How the router was configured. `localTools` are the handlers' tools. */
  datatype Config = Config(
    wire: Variants.Wire,
    ids: seq<string>,
    resilient: bool,
    strategy: string,
    priority: seq<string>,
    overrides: map<string, string>,
    variants: seq<string>,
    localTools: seq<Json>)

  /** What one request meets: breaker readings before and after the fetches, the
      filter's verdicts, and each backend's answer (none when the fetch fails). */
  datatype Env = Env(
    available: seq<bool>,
    still: seq<bool>,
    keywordOk: nat -> bool,
    nameOk: string -> bool,
    fetch: (nat, Json) -> Option<Json>)

  datatype Query = Query(cap: Capability, filter: Json, cursor: Json, variant: Option<string>)

  predicate WellFormed(cfg: Config, env: Env) {
    |env.available| == |cfg.ids| == |env.still|
  }

  function Single(cfg: Config): bool {
    |cfg.ids| == 1
  }

  function Effective(cfg: Config, q: Query): Option<string> {
    if q.variant.Some? then q.variant
    else if cfg.variants != [] then Some(cfg.variants[0])
    else None
  }

  function Restriction(cfg: Config, q: Query): Option<map<string, string>> {
    match Variants.ResolveCursor(cfg.wire, q.cursor)
    case Some((_, cursors)) => Some(cursors)
    case None => None
  }

  predicate HasFilter(q: Query) {
    q.filter.Obj? && q.filter.fields != map[]
  }

  // ---- One backend's part of a request ----

  predicate Chosen(cfg: Config, env: Env, q: Query, i: nat)
    requires WellFormed(cfg, env) && i < |cfg.ids|
  {
    && (!cfg.resilient || env.available[i])
    && env.keywordOk(i)
    && (Restriction(cfg, q).None? || cfg.ids[i] in Restriction(cfg, q).value)
  }

  function BaseParams(cfg: Config, q: Query): map<string, Json> {
    (if HasFilter(q) then map["filter" := q.filter] else map[])
    + (if Effective(cfg, q).Some?
       then map["_meta" := Obj(map["io.modelcontextprotocol/server-variant" := Str(Effective(cfg, q).value)])]
       else map[])
  }

  function ParamsWith(cfg: Config, q: Query, cursor: Option<Json>): Json {
    if cursor.Some? then Obj(BaseParams(cfg, q)["cursor" := cursor.value]) else Obj(BaseParams(cfg, q))
  }

  function Params(cfg: Config, q: Query, i: nat): Json
    requires i < |cfg.ids|
    requires Restriction(cfg, q).Some? ==> cfg.ids[i] in Restriction(cfg, q).value
  {
    match Restriction(cfg, q)
    case Some(r) => ParamsWith(cfg, q, Some(Str(r[cfg.ids[i]])))
    case None => ParamsWith(cfg, q, if q.cursor != Null && Single(cfg) then Some(q.cursor) else None)
  }

  function ResultOf(response: Json): Json {
    match Get(response, "result")
    case Some(result) => result
    case None => Obj(map[])
  }

  function Answer(cfg: Config, env: Env, q: Query, i: nat): Option<Json>
    requires WellFormed(cfg, env) && i < |cfg.ids| && Chosen(cfg, env, q, i)
  {
    match env.fetch(i, Params(cfg, q, i))
    case Some(response) => Some(ResultOf(response))
    case None => None
  }

  predicate PassesThrough(cfg: Config, q: Query) {
    q.cap.collection == "tools" && cfg.strategy == PASSTHROUGH
  }

  function Labeled(cfg: Config, q: Query, id: string, value: string): string {
    if Single(cfg) || PassesThrough(cfg, q) then value else Label(q.cap.kind, id, value)
  }

  /** What one listed item becomes: nothing when it is unnamed or filtered. */
  function Row(cfg: Config, env: Env, q: Query, id: string, item: Json): seq<Json> {
    match GetStr(item, q.cap.field)
    case None => []
    case Some(value) =>
      var labeled := Labeled(cfg, q, id, value);
      if env.nameOk(labeled) then [Put(item, q.cap.field, Str(labeled))] else []
  }

  function Rows(cfg: Config, env: Env, q: Query, id: string, listed: seq<Json>): seq<Json> {
    if listed == [] then []
    else Rows(cfg, env, q, id, listed[..|listed| - 1]) + Row(cfg, env, q, id, listed[|listed| - 1])
  }

  function Listed(q: Query, result: Json): seq<Json> {
    match GetArr(result, q.cap.collection)
    case Some(items) => items
    case None => []
  }

  lemma {:induction false} RowsConcat(cfg: Config, env: Env, q: Query, id: string, a: seq<Json>, b: seq<Json>)
    ensures Rows(cfg, env, q, id, a + b) == Rows(cfg, env, q, id, a) + Rows(cfg, env, q, id, b)
  {
    if b == [] {
      assert a + b == a;
    } else {
      var b' := b[..|b| - 1];
      assert (a + b)[..|a + b| - 1] == a + b';
      RowsConcat(cfg, env, q, id, a, b');
    }
  }

  // ---- The fan-out, over the first `n` backends ----

  function Answers(cfg: Config, env: Env, q: Query, n: nat): map<string, Json>
    requires WellFormed(cfg, env) && n <= |cfg.ids|
  {
    if n == 0 then map[]
    else
      var before := Answers(cfg, env, q, n - 1);
      if Chosen(cfg, env, q, n - 1) && Answer(cfg, env, q, n - 1).Some?
      then before[cfg.ids[n - 1] := Answer(cfg, env, q, n - 1).value]
      else before
  }

  function Asked(cfg: Config, env: Env, q: Query, n: nat): seq<(nat, Json)>
    requires WellFormed(cfg, env) && n <= |cfg.ids|
  {
    if n == 0 then []
    else Asked(cfg, env, q, n - 1) + (if Chosen(cfg, env, q, n - 1) then [(n - 1, Params(cfg, q, n - 1))] else [])
  }

  function Failing(cfg: Config, env: Env, q: Query, n: nat): seq<string>
    requires WellFormed(cfg, env) && n <= |cfg.ids|
  {
    if n == 0 then []
    else
      Failing(cfg, env, q, n - 1) +
      (if Chosen(cfg, env, q, n - 1) && Answer(cfg, env, q, n - 1).None? then [cfg.ids[n - 1]] else [])
  }

  function Open(cfg: Config, env: Env, n: nat): seq<string>
    requires WellFormed(cfg, env) && n <= |cfg.ids|
  {
    if n == 0 || !cfg.resilient then []
    else Open(cfg, env, n - 1) + (if env.still[n - 1] then [] else [cfg.ids[n - 1]])
  }

  function Items(cfg: Config, env: Env, q: Query, answers: map<string, Json>, n: nat): seq<Json>
    requires WellFormed(cfg, env) && n <= |cfg.ids|
  {
    if n == 0 then []
    else
      Items(cfg, env, q, answers, n - 1) +
      (if Chosen(cfg, env, q, n - 1) && cfg.ids[n - 1] in answers
       then Rows(cfg, env, q, cfg.ids[n - 1], Listed(q, answers[cfg.ids[n - 1]])) else [])
  }

  function NextCursors(cfg: Config, env: Env, q: Query, answers: map<string, Json>, n: nat): map<string, string>
    requires WellFormed(cfg, env) && n <= |cfg.ids|
  {
    if n == 0 then map[]
    else
      var before := NextCursors(cfg, env, q, answers, n - 1);
      var id := cfg.ids[n - 1];
      if Chosen(cfg, env, q, n - 1) && id in answers && GetStr(answers[id], "nextCursor").Some?
      then before[id := GetStr(answers[id], "nextCursor").value]
      else before
  }

  datatype Collection =
    | Collected(items: seq<Json>, unavailable: seq<string>, next: map<string, string>)
    | Aborted

  function Collect(cfg: Config, env: Env, q: Query): Collection
    requires WellFormed(cfg, env)
  {
    var n := |cfg.ids|;
    if !cfg.resilient && Failing(cfg, env, q, n) != [] then Aborted
    else
      var answers := Answers(cfg, env, q, n);
      Collected(Items(cfg, env, q, answers, n),
                Open(cfg, env, n) + Failing(cfg, env, q, n),
                NextCursors(cfg, env, q, answers, n))
  }

  // ---- The reply ----

  datatype Reply =
    | Page(items: seq<Json>, next: Option<string>, unavailable: seq<string>)
    | WrongVariant(minted: Option<string>, requested: Option<string>)
    | UnknownCursor
    | ManualClash
    | Failed

  function NameFiltered(env: Env, q: Query, tools: seq<Json>): seq<Json> {
    if tools == [] then []
    else
      NameFiltered(env, q, tools[..|tools| - 1]) +
      (if env.nameOk(OrEmpty(GetStr(tools[|tools| - 1], q.cap.field))) then [tools[|tools| - 1]] else [])
  }

  function NamesOf(field: string, items: seq<Json>): seq<string> {
    if items == [] then []
    else
      NamesOf(field, items[..|items| - 1]) +
      (if GetStr(items[|items| - 1], field).Some? then [GetStr(items[|items| - 1], field).value] else [])
  }

  function Rename(field: string, overrides: map<string, string>, item: Json): Json {
    match GetStr(item, field)
    case Some(name) => Put(item, field, Str(Collision.TargetOf(name, overrides)))
    case None => item
  }

  function RenameAll(field: string, overrides: map<string, string>, items: seq<Json>): seq<Json> {
    seq(|items|, i requires 0 <= i < |items| => Rename(field, overrides, items[i]))
  }

  function Ranking(cfg: Config, q: Query): Collision.Ranking {
    Collision.Ranking(name => Resolve(q.cap.kind, name), cfg.priority, q.cap.field)
  }

  predicate CursorAccepted(cfg: Config, q: Query) {
    match Variants.ResolveCursor(cfg.wire, q.cursor)
    case Some((minted, _)) => minted == Effective(cfg, q)
    case None => q.cursor == Null || Single(cfg)
  }

  /** The composed surface before the collision strategy is applied. */
  function Composed(cfg: Config, env: Env, q: Query, items: seq<Json>): seq<Json> {
    if q.cap.collection == "tools" then items + NameFiltered(env, q, cfg.localTools) else items
  }

  /** The surface after the collision strategy; none when a manual rename
      clashes. */
  ghost function Surface(cfg: Config, q: Query, composed: seq<Json>): Option<seq<Json>> {
    if q.cap.collection != "tools" then Some(composed)
    else if cfg.strategy == MANUAL then
      if Collision.Clashing(NamesOf(q.cap.field, composed), cfg.overrides) then None
      else Some(RenameAll(q.cap.field, cfg.overrides, composed))
    else if cfg.strategy == PRIORITY then Some(Collision.Output(Ranking(cfg, q), composed))
    else Some(composed)
  }

  function NextCursor(cfg: Config, q: Query, next: map<string, string>): Option<string> {
    if next == map[] then None else Some(Variants.BindCursor(cfg.wire, Effective(cfg, q), next))
  }

  ghost function Aggregate(cfg: Config, env: Env, q: Query): Reply
    requires WellFormed(cfg, env)
  {
    var resolved := Variants.ResolveCursor(cfg.wire, q.cursor);
    if resolved.Some? && resolved.value.0 != Effective(cfg, q) then WrongVariant(resolved.value.0, Effective(cfg, q))
    else if resolved.None? && q.cursor != Null && !Single(cfg) then UnknownCursor
    else
      match Collect(cfg, env, q)
      case Aborted => Failed
      case Collected(items, unavailable, next) =>
        match Surface(cfg, q, Composed(cfg, env, q, items))
        case None => ManualClash
        case Some(surface) => Page(surface, NextCursor(cfg, q, next), Sorting.Once(unavailable))
  }

  /** Everything one request fetches: from whom, and with which parameters. */
  function Fetches(cfg: Config, env: Env, q: Query): seq<(nat, Json)>
    requires WellFormed(cfg, env)
  {
    if CursorAccepted(cfg, q) then Asked(cfg, env, q, |cfg.ids|) else []
  }

  // ---- The unavailable list ----

  /** Backend `i` is missing from the page: its breaker is open once the fetches
      are done, or it was asked and failed. */
  predicate Missing(cfg: Config, env: Env, q: Query, i: nat)
    requires WellFormed(cfg, env) && i < |cfg.ids|
  {
    (cfg.resilient && !env.still[i]) || (Chosen(cfg, env, q, i) && Answer(cfg, env, q, i).None?)
  }

  lemma {:induction false} OpenExactly(cfg: Config, env: Env, n: nat, id: string)
    requires WellFormed(cfg, env) && n <= |cfg.ids|
    ensures id in Open(cfg, env, n) <==> exists i :: 0 <= i < n && cfg.ids[i] == id && cfg.resilient && !env.still[i]
  {
    if n > 0 { OpenExactly(cfg, env, n - 1, id); }
  }

  lemma {:induction false} FailingExactly(cfg: Config, env: Env, q: Query, n: nat, id: string)
    requires WellFormed(cfg, env) && n <= |cfg.ids|
    ensures id in Failing(cfg, env, q, n) <==>
      exists i :: 0 <= i < n && cfg.ids[i] == id && Chosen(cfg, env, q, i) && Answer(cfg, env, q, i).None?
  {
    if n > 0 { FailingExactly(cfg, env, q, n - 1, id); }
  }

  /** A page names each missing backend once, in strictly rising order, and no other. */
  lemma PageNamesMissing(cfg: Config, env: Env, q: Query)
    requires WellFormed(cfg, env) && Aggregate(cfg, env, q).Page?
    ensures var listed := Aggregate(cfg, env, q).unavailable;
      && Sorting.StrictlyAscending(listed)
      && forall id :: id in listed <==> exists i :: 0 <= i < |cfg.ids| && cfg.ids[i] == id && Missing(cfg, env, q, i)
  {
    var n := |cfg.ids|;
    var raw := Open(cfg, env, n) + Failing(cfg, env, q, n);
    Sorting.SortedOnce(raw);
    forall id ensures id in raw <==> exists i :: 0 <= i < n && cfg.ids[i] == id && Missing(cfg, env, q, i) {
      OpenExactly(cfg, env, n, id);
      FailingExactly(cfg, env, q, n, id);
    }
    assert Aggregate(cfg, env, q).unavailable == Sorting.Once(raw);
  }
}
