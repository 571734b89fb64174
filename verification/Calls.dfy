/** The call side of the router: a name the client was shown is resolved to the
    backend and original name it came from, under each collision strategy. */
module Calls {
  import opened Prelude
  import opened JsonValue
  import opened Listing
  import Namespace
  import Collision
  import Sorting
  import Variants
  import Correlation
  import Drain

  datatype Route = Routed(backend: nat, original: string) | Unroutable | ListFailed

  type Reverse = map<string, (string, string)>

  /** Where a resolved pair leads. */
  function Locate(cfg: Config, resolved: Option<(string, string)>): Route {
    match resolved
    case None => Unroutable
    case Some((id, original)) =>
      match Correlation.FindBackend(cfg.ids, id)
      case None => Unroutable
      case Some(i) => Routed(i, original)
  }

  /** The namespaced name behind an exposed one, given the override entry the
      scan met first (map order is arbitrary). */
  function Namespaced(value: string, key: Option<string>): string {
    if key.Some? then key.value else value
  }

  predicate ScanFinds(overrides: map<string, string>, value: string, key: Option<string>) {
    match key
    case Some(k) => k in overrides && overrides[k] == value
    case None => forall k :: k in overrides ==> overrides[k] != value
  }

  predicate IsToolsCall(cap: Capability) {
    cap.call == "tools/call"
  }

  /** `route_call`'s resolution once the reverse map is warm. */
  function RouteOf(cfg: Config, cap: Capability, value: string, key: Option<string>, reverse: Reverse): Route {
    if Single(cfg) then Routed(0, value)
    else if IsToolsCall(cap) && cfg.strategy == MANUAL then Locate(cfg, Namespace.Split(Namespaced(value, key)))
    else if IsToolsCall(cap) && cfg.strategy == PASSTHROUGH then
      Locate(cfg, if value in reverse then Some(reverse[value]) else None)
    else Locate(cfg, Resolve(cap.kind, value))
  }

  // ---- The reverse map of the passthrough strategy ----

  predicate Records(cfg: Config, q: Query) {
    PassesThrough(cfg, q) && !Single(cfg)
  }

  function RecordRow(q: Query, reverse: Reverse, id: string, item: Json): Reverse {
    match GetStr(item, q.cap.field)
    case None => reverse
    case Some(value) => if value in reverse then reverse else reverse[value := (id, value)]
  }

  function RecordRows(q: Query, reverse: Reverse, id: string, listed: seq<Json>, n: nat): Reverse
    requires n <= |listed|
  {
    if n == 0 then reverse else RecordRow(q, RecordRows(q, reverse, id, listed, n - 1), id, listed[n - 1])
  }

  /** The list that backend `i` contributed to a request. */
  function Contribution(cfg: Config, env: Env, q: Query, answers: map<string, Json>, i: nat): seq<Json>
    requires WellFormed(cfg, env) && i < |cfg.ids|
  {
    if Chosen(cfg, env, q, i) && cfg.ids[i] in answers then Listed(q, answers[cfg.ids[i]]) else []
  }

  function Recorded(cfg: Config, env: Env, q: Query, answers: map<string, Json>, reverse: Reverse, n: nat): Reverse
    requires WellFormed(cfg, env) && n <= |cfg.ids|
  {
    if n == 0 || !Records(cfg, q) then reverse
    else
      var listed := Contribution(cfg, env, q, answers, n - 1);
      RecordRows(q, Recorded(cfg, env, q, answers, reverse, n - 1), cfg.ids[n - 1], listed, |listed|)
  }

  /** The reverse map after one fan-out; a failed one records nothing. */
  function RecordedBy(cfg: Config, env: Env, q: Query, reverse: Reverse): Reverse
    requires WellFormed(cfg, env)
  {
    if Collect(cfg, env, q).Aborted? then reverse
    else Recorded(cfg, env, q, Answers(cfg, env, q, |cfg.ids|), reverse, |cfg.ids|)
  }

  /** The plain tool listing a first passthrough call makes. */
  const WARM := Query(TOOLS, Obj(map[]), Null, None)

  // ---- The router's list state ----

  class ListRouter {
    const cfg: Config
    var reverse: Reverse

    constructor (cfg: Config)
      ensures this.cfg == cfg && reverse == map[]
    {
      this.cfg := cfg;
      reverse := map[];
    }

    /** Ask every chosen backend; a failure aborts unless the router is resilient.
        `asked` is what was fetched, from whom and with which parameters. */
    method FetchAll(env: Env, q: Query)
      returns (answers: map<string, Json>, failing: seq<string>, ghost asked: seq<(nat, Json)>)
      requires WellFormed(cfg, env)
      ensures asked == Asked(cfg, env, q, |cfg.ids|)
      ensures answers == Answers(cfg, env, q, |cfg.ids|)
      ensures failing == Failing(cfg, env, q, |cfg.ids|)
    {
      answers, failing, asked := map[], [], [];
      for i := 0 to |cfg.ids|
        invariant asked == Asked(cfg, env, q, i)
        invariant answers == Answers(cfg, env, q, i)
        invariant failing == Failing(cfg, env, q, i)
      {
        if Chosen(cfg, env, q, i) {
          asked := asked + [(i, Params(cfg, q, i))];
          match env.fetch(i, Params(cfg, q, i))
          case Some(response) => answers := answers[cfg.ids[i] := ResultOf(response)];
          case None => failing := failing + [cfg.ids[i]];
        }
      }
    }

    /** Label one backend's list, recording names under passthrough. */
    method LabelList(env: Env, q: Query, id: string, listed: seq<Json>) returns (items: seq<Json>)
      modifies this
      ensures items == Rows(cfg, env, q, id, listed)
      ensures reverse == if Records(cfg, q) then RecordRows(q, old(reverse), id, listed, |listed|) else old(reverse)
    {
      items := [];
      var j := 0;
      while j < |listed|
        invariant 0 <= j <= |listed|
        invariant items == Rows(cfg, env, q, id, listed[..j])
        invariant reverse == if Records(cfg, q) then RecordRows(q, old(reverse), id, listed, j) else old(reverse)
      {
        assert listed[..j + 1][..j] == listed[..j];
        var value := GetStr(listed[j], q.cap.field);
        if value.Some? {
          var labeled := Labeled(cfg, q, id, value.value);
          if Records(cfg, q) && labeled !in reverse {
            reverse := reverse[labeled := (id, value.value)];
          }
          if env.nameOk(labeled) {
            items := items + [Put(listed[j], q.cap.field, Str(labeled))];
          }
        }
        j := j + 1;
      }
      assert listed[..j] == listed;
    }

    method OpenBackends(env: Env) returns (unavailable: seq<string>)
      requires WellFormed(cfg, env)
      ensures unavailable == Open(cfg, env, |cfg.ids|)
    {
      unavailable := [];
      if cfg.resilient {
        for i := 0 to |cfg.ids|
          invariant unavailable == Open(cfg, env, i)
        {
          if !env.still[i] {
            unavailable := unavailable + [cfg.ids[i]];
          }
        }
      }
    }

    method LabelAll(env: Env, q: Query, answers: map<string, Json>) returns (items: seq<Json>)
      requires WellFormed(cfg, env)
      modifies this
      ensures items == Items(cfg, env, q, answers, |cfg.ids|)
      ensures reverse == Recorded(cfg, env, q, answers, old(reverse), |cfg.ids|)
    {
      items := [];
      for i := 0 to |cfg.ids|
        invariant items == Items(cfg, env, q, answers, i)
        invariant reverse == Recorded(cfg, env, q, answers, old(reverse), i)
      {
        if Chosen(cfg, env, q, i) && cfg.ids[i] in answers {
          var rows := LabelList(env, q, cfg.ids[i], Listed(q, answers[cfg.ids[i]]));
          items := items + rows;
        }
      }
    }

    method GatherCursors(env: Env, q: Query, answers: map<string, Json>) returns (next: map<string, string>)
      requires WellFormed(cfg, env)
      ensures next == NextCursors(cfg, env, q, answers, |cfg.ids|)
    {
      next := map[];
      for i := 0 to |cfg.ids|
        invariant next == NextCursors(cfg, env, q, answers, i)
      {
        var id := cfg.ids[i];
        if Chosen(cfg, env, q, i) && id in answers && GetStr(answers[id], "nextCursor").Some? {
          next := next[id := GetStr(answers[id], "nextCursor").value];
        }
      }
    }

    method Collect(env: Env, q: Query) returns (c: Collection, ghost asked: seq<(nat, Json)>)
      requires WellFormed(cfg, env)
      modifies this
      ensures c == Listing.Collect(cfg, env, q) && asked == Asked(cfg, env, q, |cfg.ids|)
      ensures reverse == RecordedBy(cfg, env, q, old(reverse))
    {
      var unavailable := OpenBackends(env);
      var answers, failing, fetched := FetchAll(env, q);
      asked := fetched;
      if failing != [] && !cfg.resilient {
        return Aborted, asked;
      }
      unavailable := unavailable + failing;
      var items := LabelAll(env, q, answers);
      var next := GatherCursors(env, q, answers);
      c := Collected(items, unavailable, next);
    }

    /** Rename in place through the resolved mapping. */
    method RenameItems(q: Query, items: seq<Json>, exposed: map<string, string>) returns (renamed: seq<Json>)
      requires exposed == map n | n in NamesOf(q.cap.field, items) :: Collision.TargetOf(n, cfg.overrides)
      ensures renamed == RenameAll(q.cap.field, cfg.overrides, items)
    {
      renamed := [];
      for i := 0 to |items|
        invariant |renamed| == i
        invariant forall j :: 0 <= j < i ==> renamed[j] == Rename(q.cap.field, cfg.overrides, items[j])
      {
        NameIsListed(q.cap.field, items, i);
        var name := GetStr(items[i], q.cap.field);
        if name.Some? && name.value in exposed {
          renamed := renamed + [Put(items[i], q.cap.field, Str(exposed[name.value]))];
        } else {
          renamed := renamed + [items[i]];
        }
      }
    }

    method ApplyStrategy(q: Query, composed: seq<Json>) returns (surface: Option<seq<Json>>)
      ensures surface == Surface(cfg, q, composed)
    {
      if q.cap.collection == "tools" && cfg.strategy == MANUAL {
        var renaming := Collision.ResolveManual(NamesOf(q.cap.field, composed), cfg.overrides);
        if renaming.Clash? {
          return None;
        }
        var renamed := RenameItems(q, composed, renaming.exposed);
        return Some(renamed);
      }
      if q.cap.collection == "tools" && cfg.strategy == PRIORITY {
        var kept, _ := Collision.ApplyPriority(Ranking(cfg, q), composed);
        return Some(kept);
      }
      return Some(composed);
    }

    /** One client request; `asked` is every fetch it made. */
    method Aggregate(env: Env, q: Query) returns (r: Reply, ghost asked: seq<(nat, Json)>)
      requires WellFormed(cfg, env)
      modifies this
      ensures r == Listing.Aggregate(cfg, env, q)
      ensures asked == Fetches(cfg, env, q)
      ensures reverse == if CursorAccepted(cfg, q) then RecordedBy(cfg, env, q, old(reverse)) else old(reverse)
    {
      asked := [];
      var effective := Effective(cfg, q);
      var resolved := Variants.Resolve(cfg.wire, q.cursor);
      if resolved.Some? {
        if resolved.value.0 != effective {
          return WrongVariant(resolved.value.0, effective), asked;
        }
      } else if q.cursor != Null && !Single(cfg) {
        return UnknownCursor, asked;
      }
      var c, fetched := Collect(env, q);
      asked := fetched;
      if c.Aborted? {
        return Failed, asked;
      }
      var items := c.items;
      if q.cap.collection == "tools" {
        items := items + NameFiltered(env, q, cfg.localTools);
      }
      var surface := ApplyStrategy(q, items);
      if surface.None? {
        return ManualClash, asked;
      }
      var next: Option<string> := None;
      if c.next != map[] {
        var cursor := Variants.Bind(cfg.wire, effective, c.next);
        next := Some(cursor);
      }
      r := Page(surface.value, next, Sorting.Once(c.unavailable));
    }

    /** The resolution part of `route_call`, warming the reverse map with a list
        fan-out when it does not know the name yet. */
    method ResolveCall(env: Env, cap: Capability, value: string) returns (route: Route, ghost key: Option<string>)
      requires WellFormed(cfg, env)
      modifies this
      ensures ScanFinds(cfg.overrides, value, key)
      ensures var cold := !Single(cfg) && IsToolsCall(cap) && cfg.strategy == PASSTHROUGH && value !in old(reverse);
        && reverse == (if cold then RecordedBy(cfg, env, WARM, old(reverse)) else old(reverse))
        && route == if cold && Listing.Collect(cfg, env, WARM).Aborted? then ListFailed
                    else RouteOf(cfg, cap, value, key, reverse)
    {
      key := None;
      var found: Option<string> := None;
      if k :| k in cfg.overrides && cfg.overrides[k] == value {
        found := Some(k);
      }
      key := found;
      if Single(cfg) {
        return Routed(0, value), key;
      }
      var resolved: Option<(string, string)>;
      if IsToolsCall(cap) && cfg.strategy == MANUAL {
        resolved := Namespace.Split(Namespaced(value, found));
      } else if IsToolsCall(cap) && cfg.strategy == PASSTHROUGH {
        if value !in reverse {
          var c, _ := Collect(env, WARM);
          if c.Aborted? {
            return ListFailed, key;
          }
        }
        resolved := if value in reverse then Some(reverse[value]) else None;
      } else {
        resolved := Resolve(cap.kind, value);
      }
      route := Locate(cfg, resolved);
    }
  }

  lemma {:induction false} NameIsListed(field: string, items: seq<Json>, i: nat)
    requires i < |items|
    ensures GetStr(items[i], field).Some? ==> GetStr(items[i], field).value in NamesOf(field, items)
  {
    if i < |items| - 1 {
      NameIsListed(field, items[..|items| - 1], i);
    }
  }
}
