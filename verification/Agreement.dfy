/** List/call agreement: calling a name the client was shown reaches the backend
    and the original name that name came from. */
module Agreement {
  import opened Prelude
  import opened JsonValue
  import opened Listing
  import opened Calls
  import Namespace
  import Collision
  import Correlation
  import D = Drain

  function AllAnswers(cfg: Config, env: Env, q: Query): map<string, Json>
    requires WellFormed(cfg, env)
  {
    Answers(cfg, env, q, |cfg.ids|)
  }

  /** `item` is backend `i`'s `raw`, relabelled. */
  ghost predicate Origin(cfg: Config, env: Env, q: Query, item: Json, i: nat, raw: Json)
    requires WellFormed(cfg, env)
  {
    && i < |cfg.ids| && raw in Contribution(cfg, env, q, AllAnswers(cfg, env, q), i)
    && GetStr(raw, q.cap.field).Some?
    && item == Put(raw, q.cap.field, Str(Labeled(cfg, q, cfg.ids[i], GetStr(raw, q.cap.field).value)))
  }

  lemma {:induction false} RowsOrigin(cfg: Config, env: Env, q: Query, id: string, listed: seq<Json>, item: Json)
      returns (raw: Json)
    requires item in Rows(cfg, env, q, id, listed)
    ensures raw in listed && GetStr(raw, q.cap.field).Some?
    ensures item == Put(raw, q.cap.field, Str(Labeled(cfg, q, id, GetStr(raw, q.cap.field).value)))
  {
    var n := |listed| - 1;
    if item in Rows(cfg, env, q, id, listed[..n]) {
      raw := RowsOrigin(cfg, env, q, id, listed[..n], item);
    } else {
      raw := listed[n];
    }
  }

  lemma LastItems(cfg: Config, env: Env, q: Query, answers: map<string, Json>, n: nat, item: Json)
    requires WellFormed(cfg, env) && n <= |cfg.ids| && item in Items(cfg, env, q, answers, n)
    ensures n > 0
    ensures item !in Items(cfg, env, q, answers, n - 1) ==>
      && Chosen(cfg, env, q, n - 1) && cfg.ids[n - 1] in answers
      && item in Rows(cfg, env, q, cfg.ids[n - 1], Listed(q, answers[cfg.ids[n - 1]]))
  {
  }

  lemma {:induction false} ItemsOrigin(cfg: Config, env: Env, q: Query, n: nat, item: Json) returns (i: nat, raw: Json)
    requires WellFormed(cfg, env) && n <= |cfg.ids|
    requires item in Items(cfg, env, q, AllAnswers(cfg, env, q), n)
    ensures Origin(cfg, env, q, item, i, raw)
  {
    var answers := AllAnswers(cfg, env, q);
    LastItems(cfg, env, q, answers, n, item);
    if item in Items(cfg, env, q, answers, n - 1) {
      i, raw := ItemsOrigin(cfg, env, q, n - 1, item);
    } else {
      i := n - 1;
      raw := RowsOrigin(cfg, env, q, cfg.ids[i], Listed(q, answers[cfg.ids[i]]), item);
    }
  }

  /** Distinct, well-chosen backend ids; several backends; no local handlers. */
  ghost predicate Standard(cfg: Config, env: Env) {
    && WellFormed(cfg, env) && Distinct(cfg.ids) && !Single(cfg) && cfg.localTools == []
    && forall i {:trigger D.GoodId(cfg.ids[i])} :: 0 <= i < |cfg.ids| ==> D.GoodId(cfg.ids[i])
  }

  /** What the request collected from the backends. */
  function CollectedItems(cfg: Config, env: Env, q: Query): seq<Json>
    requires WellFormed(cfg, env)
  {
    Items(cfg, env, q, AllAnswers(cfg, env, q), |cfg.ids|)
  }

  lemma PageSurface(cfg: Config, env: Env, q: Query)
    requires WellFormed(cfg, env) && cfg.localTools == [] && Aggregate(cfg, env, q).Page?
    ensures Surface(cfg, q, CollectedItems(cfg, env, q)) == Some(Aggregate(cfg, env, q).items)
  {
    var items := CollectedItems(cfg, env, q);
    assert Composed(cfg, env, q, items) == items;
  }

  lemma LocateHome(cfg: Config, id: string, original: string, i: nat, resolved: Option<(string, string)>)
    requires Distinct(cfg.ids) && i < |cfg.ids| && id == cfg.ids[i]
    ensures Locate(cfg, resolved) == Routed(i, original) <==> resolved == Some((id, original))
  {
    Correlation.FindDistinct(cfg.ids, i);
  }

  /** A label is routed back to its backend and value exactly when the value
      can carry a label. */
  lemma LabelRoutesHome(cfg: Config, kind: Kind, i: nat, value: string)
    requires Distinct(cfg.ids) && i < |cfg.ids| && D.GoodId(cfg.ids[i])
    ensures Locate(cfg, Resolve(kind, Label(kind, cfg.ids[i], value))) == Routed(i, value)
       <==> D.Labelable(kind, value)
  {
    D.ResolveUndoesLabel(kind, cfg.ids[i], value);
    LocateHome(cfg, cfg.ids[i], value, i, Resolve(kind, Label(kind, cfg.ids[i], value)));
  }

  /** The priority strategy only ever removes items. */
  lemma KeptWasListed(r: Collision.Ranking, tools: seq<Json>, item: Json)
    requires item in Collision.Output(r, tools)
    ensures item in tools
  {
    var xs := Collision.View(r, tools);
    Collision.KeepSummarises(xs, |xs|);
    var ks := Collision.Keep(xs, |xs|);
    var k :| 0 <= k < |ks| && Collision.Tools(ks)[k] == item;
    assert Collision.Best(xs, |xs|, ks[k]);
  }

  lemma OnlyRemoves(cfg: Config, env: Env, q: Query, item: Json)
    requires WellFormed(cfg, env) && (q.cap.collection == "tools" ==> cfg.strategy != MANUAL)
    requires item in Surface(cfg, q, CollectedItems(cfg, env, q)).value
    ensures item in CollectedItems(cfg, env, q)
  {
    if q.cap.collection == "tools" && cfg.strategy == PRIORITY {
      KeptWasListed(Ranking(cfg, q), CollectedItems(cfg, env, q), item);
    }
  }

  predicate Known(cap: Capability) {
    cap == TOOLS || cap == PROMPTS || cap == RESOURCES
  }

  /** However the override scan runs and whatever was recorded, calling `name`
      reaches `original` on backend `i`. */
  ghost predicate RoutesHome(cfg: Config, cap: Capability, name: string, i: nat, original: string) {
    forall key, reverse :: ScanFinds(cfg.overrides, name, key) ==>
      RouteOf(cfg, cap, name, key, reverse) == Routed(i, original)
  }

  lemma ScanAlwaysFinds(overrides: map<string, string>, name: string)
    ensures exists key :: ScanFinds(overrides, name, key)
  {
    if k :| k in overrides && overrides[k] == name {
      assert ScanFinds(overrides, name, Some(k));
    } else {
      assert ScanFinds(overrides, name, None);
    }
  }

  lemma LabelledExactly(cfg: Config, cap: Capability, i: nat, original: string)
    requires Distinct(cfg.ids) && !Single(cfg) && i < |cfg.ids| && D.GoodId(cfg.ids[i])
    requires IsToolsCall(cap) ==> cfg.strategy != MANUAL && cfg.strategy != PASSTHROUGH
    ensures RoutesHome(cfg, cap, Label(cap.kind, cfg.ids[i], original), i, original) <==>
      D.Labelable(cap.kind, original)
  {
    var name := Label(cap.kind, cfg.ids[i], original);
    LabelRoutesHome(cfg, cap.kind, i, original);
    forall key, reverse
      ensures RouteOf(cfg, cap, name, key, reverse) == Routed(i, original) <==> D.Labelable(cap.kind, original) {
    }
    ScanAlwaysFinds(cfg.overrides, name);
    var key :| ScanFinds(cfg.overrides, name, key);
    assert RouteOf(cfg, cap, name, key, map[]) == Routed(i, original) <==> D.Labelable(cap.kind, original);
  }

  /** The items shown come from the backends, only renamed by the strategy. */
  lemma ShownOrigin(cfg: Config, env: Env, q: Query, item: Json) returns (i: nat, raw: Json)
    requires WellFormed(cfg, env) && cfg.localTools == []
    requires q.cap.collection == "tools" ==> cfg.strategy != MANUAL
    requires Aggregate(cfg, env, q).Page? && item in Aggregate(cfg, env, q).items
    ensures Origin(cfg, env, q, item, i, raw)
  {
    assert item in CollectedItems(cfg, env, q) by {
      PageSurface(cfg, env, q);
      OnlyRemoves(cfg, env, q, item);
    }
    i, raw := ItemsOrigin(cfg, env, q, |cfg.ids|, item);
  }

  /** Prefix and priority: every listed item came from some backend under some
      original name, and calling what the client sees reaches exactly those,
      for exactly the originals that can carry a label. */
  lemma ListedNameRoutesHome(cfg: Config, env: Env, q: Query, item: Json) returns (i: nat, raw: Json)
    requires Standard(cfg, env) && Known(q.cap)
    requires q.cap == TOOLS ==> cfg.strategy != MANUAL && cfg.strategy != PASSTHROUGH
    requires Aggregate(cfg, env, q).Page? && item in Aggregate(cfg, env, q).items
    ensures Origin(cfg, env, q, item, i, raw) && GetStr(item, q.cap.field).Some?
    ensures RoutesHome(cfg, q.cap, GetStr(item, q.cap.field).value, i, GetStr(raw, q.cap.field).value)
       <==> D.Labelable(q.cap.kind, GetStr(raw, q.cap.field).value)
  {
    i, raw := ShownOrigin(cfg, env, q, item);
    assert D.GoodId(cfg.ids[i]);
    LabelledExactly(cfg, q.cap, i, GetStr(raw, q.cap.field).value);
  }

  // ---- Manual renames ----

  function Exposed(cfg: Config, i: nat, original: string): string
    requires i < |cfg.ids|
  {
    Collision.TargetOf(Namespace.Prefix(cfg.ids[i], original), cfg.overrides)
  }

  /** No override entry for another name claims the exposed one. */
  ghost predicate Unclaimed(cfg: Config, exposed: string, labeled: string) {
    forall k :: k in cfg.overrides && cfg.overrides[k] == exposed ==> k == labeled
  }

  lemma ManualShown(cfg: Config, env: Env, q: Query, item: Json)
    requires WellFormed(cfg, env) && cfg.localTools == [] && q.cap == TOOLS && cfg.strategy == MANUAL
    requires Aggregate(cfg, env, q).Page? && item in Aggregate(cfg, env, q).items
    ensures item in RenameAll("name", cfg.overrides, CollectedItems(cfg, env, q))
  {
    PageSurface(cfg, env, q);
  }

  lemma RenamedOrigin(cfg: Config, env: Env, q: Query, item: Json) returns (i: nat, raw: Json)
    requires WellFormed(cfg, env) && !Single(cfg) && q.cap == TOOLS && cfg.strategy == MANUAL
    requires item in RenameAll("name", cfg.overrides, CollectedItems(cfg, env, q))
    ensures i < |cfg.ids| && raw in Contribution(cfg, env, q, AllAnswers(cfg, env, q), i)
    ensures GetStr(raw, "name").Some?
    ensures item == Put(raw, "name", Str(Exposed(cfg, i, GetStr(raw, "name").value)))
  {
    var labelled := RenameAllOrigin("name", cfg.overrides, CollectedItems(cfg, env, q), item);
    i, raw := ItemsOrigin(cfg, env, q, |cfg.ids|, labelled);
    RenamePut(raw, "name", Labeled(cfg, q, cfg.ids[i], GetStr(raw, "name").value), cfg.overrides);
  }

  lemma RenamePut(raw: Json, field: string, labelled: string, overrides: map<string, string>)
    requires GetStr(raw, field).Some?
    ensures Rename(field, overrides, Put(raw, field, Str(labelled))) ==
      Put(raw, field, Str(Collision.TargetOf(labelled, overrides)))
  {
    assert raw.fields[field := Str(labelled)][field := Str(Collision.TargetOf(labelled, overrides))] ==
      raw.fields[field := Str(Collision.TargetOf(labelled, overrides))];
  }

  lemma RenameAllOrigin(field: string, overrides: map<string, string>, items: seq<Json>, item: Json)
      returns (before: Json)
    requires item in RenameAll(field, overrides, items)
    ensures before in items && item == Rename(field, overrides, before)
  {
    var j :| 0 <= j < |items| && RenameAll(field, overrides, items)[j] == item;
    before := items[j];
  }

  /** Manual: the exposed name reaches the backend and original it came from,
      whichever matching override the scan meets first, exactly when no other
      override key claims that exposed name. */
  lemma ManualNameRoutesHome(cfg: Config, env: Env, q: Query, item: Json) returns (i: nat, raw: Json)
    requires Standard(cfg, env) && q.cap == TOOLS && cfg.strategy == MANUAL
    requires Aggregate(cfg, env, q).Page? && item in Aggregate(cfg, env, q).items
    ensures i < |cfg.ids| && raw in Contribution(cfg, env, q, AllAnswers(cfg, env, q), i)
    ensures GetStr(raw, "name").Some?
    ensures var original := GetStr(raw, "name").value;
            var exposed := Exposed(cfg, i, original);
      && item == Put(raw, "name", Str(exposed))
      && (original != "" ==>
            (RoutesHome(cfg, TOOLS, exposed, i, original)
             <==> Unclaimed(cfg, exposed, Namespace.Prefix(cfg.ids[i], original))))
  {
    ManualShown(cfg, env, q, item);
    i, raw := RenamedOrigin(cfg, env, q, item);
    assert D.GoodId(cfg.ids[i]);
    if GetStr(raw, "name").value != "" {
      ManualExactly(cfg, i, GetStr(raw, "name").value);
    }
  }

  lemma ManualExactly(cfg: Config, i: nat, original: string)
    requires Distinct(cfg.ids) && !Single(cfg) && cfg.strategy == MANUAL
    requires i < |cfg.ids| && D.GoodId(cfg.ids[i]) && original != ""
    ensures RoutesHome(cfg, TOOLS, Exposed(cfg, i, original), i, original)
       <==> Unclaimed(cfg, Exposed(cfg, i, original), Namespace.Prefix(cfg.ids[i], original))
  {
    var labeled := Namespace.Prefix(cfg.ids[i], original);
    var exposed := Exposed(cfg, i, original);
    Namespace.SplitUndoesPrefix(cfg.ids[i], original);
    forall key, reverse
      ensures RouteOf(cfg, TOOLS, exposed, key, reverse) == Routed(i, original)
         <==> Namespaced(exposed, key) == labeled {
      LocateHome(cfg, cfg.ids[i], original, i, Namespace.Split(Namespaced(exposed, key)));
      if Namespace.Split(Namespaced(exposed, key)).Some? {
        Namespace.SplitIsLabel(Namespaced(exposed, key));
      }
    }
    if k :| k in cfg.overrides && cfg.overrides[k] == exposed && k != labeled {
      assert ScanFinds(cfg.overrides, exposed, Some(k));
      assert RouteOf(cfg, TOOLS, exposed, Some(k), map[]) != Routed(i, original);
    }
  }

  /** When every override key is a listed name and the renaming was accepted,
      no listed name is claimed by another key, so manual routing always works. */
  lemma ListedOverridesNeverStray(cfg: Config, env: Env, q: Query, labeled: string)
    requires Standard(cfg, env) && q.cap == TOOLS && cfg.strategy == MANUAL && Aggregate(cfg, env, q).Page?
    requires labeled in NamesOf("name", CollectedItems(cfg, env, q))
    requires forall k :: k in cfg.overrides ==> k in NamesOf("name", CollectedItems(cfg, env, q))
    ensures Unclaimed(cfg, Collision.TargetOf(labeled, cfg.overrides), labeled)
  {
    PageSurface(cfg, env, q);
    var names := NamesOf("name", CollectedItems(cfg, env, q));
    var a :| 0 <= a < |names| && names[a] == labeled;
    forall k | k in cfg.overrides && cfg.overrides[k] == Collision.TargetOf(labeled, cfg.overrides)
      ensures k == labeled
    {
      var b :| 0 <= b < |names| && names[b] == k;
    }
  }

  // ---- Passthrough ----

  ghost predicate Contributes(cfg: Config, env: Env, q: Query, i: nat, name: string)
    requires WellFormed(cfg, env)
  {
    i < |cfg.ids| && Names(q, Contribution(cfg, env, q, AllAnswers(cfg, env, q), i), name)
  }

  predicate Names(q: Query, listed: seq<Json>, name: string) {
    exists j :: 0 <= j < |listed| && GetStr(listed[j], q.cap.field) == Some(name)
  }

  ghost predicate RowsRecorded(q: Query, before: Reverse, after: Reverse, id: string, listed: seq<Json>, n: nat)
    requires n <= |listed|
  {
    && (forall name :: name in after <==> name in before || Names(q, listed[..n], name))
    && (forall name :: name in before ==> after[name] == before[name])
    && (forall name :: name in after && name !in before ==> after[name] == (id, name))
  }

  lemma NamesSnoc(q: Query, listed: seq<Json>, m: nat, name: string)
    requires m < |listed|
    ensures Names(q, listed[..m + 1], name) <==>
      Names(q, listed[..m], name) || GetStr(listed[m], q.cap.field) == Some(name)
  {
    assert listed[..m + 1] == listed[..m] + [listed[m]];
    if j :| 0 <= j < m && GetStr(listed[..m][j], q.cap.field) == Some(name) {
      assert listed[..m + 1][j] == listed[..m][j];
    }
    if GetStr(listed[m], q.cap.field) == Some(name) {
      assert listed[..m + 1][m] == listed[m];
    }
  }

  lemma RowRecorded(q: Query, before: Reverse, after: Reverse, id: string, listed: seq<Json>, m: nat)
    requires m < |listed| && RowsRecorded(q, before, after, id, listed, m)
    ensures RowsRecorded(q, before, RecordRow(q, after, id, listed[m]), id, listed, m + 1)
  {
    forall name
      ensures name in RecordRow(q, after, id, listed[m]) <==> name in before || Names(q, listed[..m + 1], name)
    {
      NamesSnoc(q, listed, m, name);
    }
  }

  lemma {:induction false} RecordRowsIs(q: Query, reverse: Reverse, id: string, listed: seq<Json>, n: nat)
    requires n <= |listed|
    ensures RowsRecorded(q, reverse, RecordRows(q, reverse, id, listed, n), id, listed, n)
  {
    for m := 0 to n
      invariant RowsRecorded(q, reverse, RecordRows(q, reverse, id, listed, m), id, listed, m)
    {
      RowRecorded(q, reverse, RecordRows(q, reverse, id, listed, m), id, listed, m);
    }
  }

  /** Exactly what one fan-out records about `name`. */
  ghost predicate RecordedRight(cfg: Config, env: Env, q: Query, before: Reverse, after: Reverse, name: string, n: nat)
    requires WellFormed(cfg, env) && n <= |cfg.ids|
  {
    && (name in before ==> name in after && after[name] == before[name])
    && (name !in before ==>
          if name in after then
            exists i: nat :: i < n && Contributes(cfg, env, q, i, name) && after[name] == (cfg.ids[i], name)
                   && forall j :: 0 <= j < i ==> !Contributes(cfg, env, q, j, name)
          else forall j :: 0 <= j < n ==> !Contributes(cfg, env, q, j, name))
  }

  lemma RecordSnoc(cfg: Config, env: Env, q: Query, reverse: Reverse, name: string, n: nat)
    requires WellFormed(cfg, env) && n < |cfg.ids| && Records(cfg, q)
    requires RecordedRight(cfg, env, q, reverse, Recorded(cfg, env, q, AllAnswers(cfg, env, q), reverse, n), name, n)
    ensures var after := Recorded(cfg, env, q, AllAnswers(cfg, env, q), reverse, n + 1);
      RecordedRight(cfg, env, q, reverse, after, name, n + 1)
  {
    var answers := AllAnswers(cfg, env, q);
    var listed := Contribution(cfg, env, q, answers, n);
    var before := Recorded(cfg, env, q, answers, reverse, n);
    RecordRowsIs(q, before, cfg.ids[n], listed, |listed|);
    var after := Recorded(cfg, env, q, answers, reverse, n + 1);
    assert RowsRecorded(q, before, after, cfg.ids[n], listed, |listed|);
    assert listed[..|listed|] == listed;
    assert name in after <==> name in before || Contributes(cfg, env, q, n, name);
  }

  /** One passthrough listing records, for each name seen for the first time,
      the first backend that lists it, and never alters an earlier record. */
  lemma {:induction false} FirstRecorded(cfg: Config, env: Env, q: Query, reverse: Reverse, name: string)
    requires WellFormed(cfg, env) && Records(cfg, q) && Collect(cfg, env, q).Collected?
    ensures RecordedRight(cfg, env, q, reverse, RecordedBy(cfg, env, q, reverse), name, |cfg.ids|)
  {
    for n := 0 to |cfg.ids|
      invariant RecordedRight(cfg, env, q, reverse, Recorded(cfg, env, q, AllAnswers(cfg, env, q), reverse, n), name, n)
    {
      RecordSnoc(cfg, env, q, reverse, name, n);
    }
  }

  ghost predicate AllWellFormed(cfg: Config, run: seq<(Env, Query)>) {
    forall k :: 0 <= k < |run| ==> WellFormed(cfg, run[k].0)
  }

  /** The reverse map after the first `n` listings of a run. */
  function ReverseAfter(cfg: Config, run: seq<(Env, Query)>, n: nat): Reverse
    requires AllWellFormed(cfg, run) && n <= |run|
  {
    if n == 0 then map[]
    else RecordedBy(cfg, run[n - 1].0, run[n - 1].1, ReverseAfter(cfg, run, n - 1))
  }

  lemma RecordStays(cfg: Config, env: Env, q: Query, reverse: Reverse, name: string)
    requires WellFormed(cfg, env) && name in reverse
    ensures name in RecordedBy(cfg, env, q, reverse) && RecordedBy(cfg, env, q, reverse)[name] == reverse[name]
  {
    if Collect(cfg, env, q).Collected? && Records(cfg, q) {
      FirstRecorded(cfg, env, q, reverse, name);
    } else {
      assert RecordedBy(cfg, env, q, reverse) == reverse;
    }
  }

  /** A listing met `earlier` records, which lacked `name`, and backend `i` was
      the first in it to list that name. */
  ghost predicate ShowsFirst(cfg: Config, earlier: Reverse, env: Env, q: Query, name: string, i: nat)
    requires WellFormed(cfg, env)
  {
    && Records(cfg, q) && Collect(cfg, env, q).Collected? && name !in earlier
    && Contributes(cfg, env, q, i, name)
    && forall j :: 0 <= j < i ==> !Contributes(cfg, env, q, j, name)
  }

  /** Listing `k` of the run was the first to show `name`, through backend `i`. */
  ghost predicate FirstShownAt(cfg: Config, run: seq<(Env, Query)>, name: string, k: nat, i: nat)
    requires AllWellFormed(cfg, run)
  {
    k < |run| && ShowsFirst(cfg, ReverseAfter(cfg, run, k), run[k].0, run[k].1, name, i)
  }

  lemma ShownNow(cfg: Config, run: seq<(Env, Query)>, n: nat, name: string) returns (i: nat)
    requires AllWellFormed(cfg, run) && n < |run|
    requires name !in ReverseAfter(cfg, run, n) && name in ReverseAfter(cfg, run, n + 1)
    ensures i < |cfg.ids| && ReverseAfter(cfg, run, n + 1)[name] == (cfg.ids[i], name)
    ensures FirstShownAt(cfg, run, name, n, i)
  {
    var (env, q) := run[n];
    var before := ReverseAfter(cfg, run, n);
    FirstRecorded(cfg, env, q, before, name);
    i :| i < |cfg.ids| && Contributes(cfg, env, q, i, name) && ReverseAfter(cfg, run, n + 1)[name] == (cfg.ids[i], name)
         && forall j :: 0 <= j < i ==> !Contributes(cfg, env, q, j, name);
  }

  lemma {:induction false} FirstShown(cfg: Config, run: seq<(Env, Query)>, n: nat, name: string)
      returns (k: nat, i: nat)
    requires AllWellFormed(cfg, run) && n <= |run| && name in ReverseAfter(cfg, run, n)
    ensures i < |cfg.ids| && ReverseAfter(cfg, run, n)[name] == (cfg.ids[i], name)
    ensures k < n && FirstShownAt(cfg, run, name, k, i)
  {
    if name in ReverseAfter(cfg, run, n - 1) {
      k, i := FirstShown(cfg, run, n - 1, name);
      RecordStays(cfg, run[n - 1].0, run[n - 1].1, ReverseAfter(cfg, run, n - 1), name);
    } else {
      k := n - 1;
      i := ShownNow(cfg, run, n - 1, name);
    }
  }

  lemma RouteRecorded(cfg: Config, reverse: Reverse, name: string, i: nat)
    requires Distinct(cfg.ids) && !Single(cfg) && cfg.strategy == PASSTHROUGH && i < |cfg.ids|
    requires name in reverse && reverse[name] == (cfg.ids[i], name)
    ensures forall key :: RouteOf(cfg, TOOLS, name, key, reverse) == Routed(i, name)
  {
    LocateHome(cfg, cfg.ids[i], name, i, Some((cfg.ids[i], name)));
  }

  /** Passthrough, over any run of listings: a recorded name is routed, under
      its own original name, to the first backend that listed it in the first
      listing that showed it. */
  lemma PassthroughRoutesToFirst(cfg: Config, run: seq<(Env, Query)>, name: string) returns (k: nat, i: nat)
    requires AllWellFormed(cfg, run) && Distinct(cfg.ids) && !Single(cfg) && cfg.strategy == PASSTHROUGH
    requires name in ReverseAfter(cfg, run, |run|)
    ensures i < |cfg.ids| && FirstShownAt(cfg, run, name, k, i)
    ensures forall key :: RouteOf(cfg, TOOLS, name, key, ReverseAfter(cfg, run, |run|)) == Routed(i, name)
  {
    k, i := FirstShown(cfg, run, |run|, name);
    RouteRecorded(cfg, ReverseAfter(cfg, run, |run|), name, i);
  }

  /** And that record never changes for the rest of the run. */
  lemma {:induction false} PassthroughRecordIsStable(cfg: Config, run: seq<(Env, Query)>, k: nat, n: nat, name: string)
    requires AllWellFormed(cfg, run) && k <= n <= |run| && name in ReverseAfter(cfg, run, k)
    ensures name in ReverseAfter(cfg, run, n) && ReverseAfter(cfg, run, n)[name] == ReverseAfter(cfg, run, k)[name]
    decreases n
  {
    if k < n {
      PassthroughRecordIsStable(cfg, run, k, n - 1, name);
      RecordStays(cfg, run[n - 1].0, run[n - 1].1, ReverseAfter(cfg, run, n - 1), name);
    }
  }

  lemma ContributorRecorded(cfg: Config, env: Env, q: Query, reverse: Reverse, name: string, i: nat)
    requires WellFormed(cfg, env) && Records(cfg, q) && Collect(cfg, env, q).Collected?
    requires Contributes(cfg, env, q, i, name)
    ensures name in RecordedBy(cfg, env, q, reverse)
  {
    FirstRecorded(cfg, env, q, reverse, name);
  }

  /** Every item of a passthrough page bears the name its backend gave it, and
      the listing that showed it has recorded that name. */
  lemma PassthroughPageIsRecorded(cfg: Config, env: Env, q: Query, reverse: Reverse, item: Json)
    requires WellFormed(cfg, env) && cfg.localTools == [] && Records(cfg, q)
    requires Aggregate(cfg, env, q).Page? && item in Aggregate(cfg, env, q).items
    ensures GetStr(item, q.cap.field).Some?
    ensures GetStr(item, q.cap.field).value in RecordedBy(cfg, env, q, reverse)
  {
    var i, raw := ShownOrigin(cfg, env, q, item);
    var name := GetStr(raw, q.cap.field).value;
    var listed := Contribution(cfg, env, q, AllAnswers(cfg, env, q), i);
    var j :| 0 <= j < |listed| && listed[j] == raw;
    assert GetStr(listed[j], q.cap.field) == Some(name);
    ContributorRecorded(cfg, env, q, reverse, name, i);
  }

  lemma FirstShownStays(cfg: Config, run: seq<(Env, Query)>, m: nat, name: string) returns (k: nat, i: nat)
    requires AllWellFormed(cfg, run) && m < |run| && name in ReverseAfter(cfg, run, m + 1)
    ensures i < |cfg.ids| && k <= m && FirstShownAt(cfg, run, name, k, i)
    ensures name in ReverseAfter(cfg, run, |run|) && ReverseAfter(cfg, run, |run|)[name] == (cfg.ids[i], name)
  {
    k, i := FirstShown(cfg, run, m + 1, name);
    PassthroughRecordIsStable(cfg, run, m + 1, |run|, name);
  }

  /** Passthrough, from the client's side: whatever name any page of the run has
      shown is routed, under that very name, to the first backend that listed it
      in the first listing that showed it, and stays so to the end of the run. */
  lemma PassthroughListedRoutes(cfg: Config, run: seq<(Env, Query)>, m: nat, item: Json) returns (k: nat, i: nat)
    requires AllWellFormed(cfg, run) && Distinct(cfg.ids) && !Single(cfg)
    requires cfg.strategy == PASSTHROUGH && cfg.localTools == []
    requires m < |run| && run[m].1.cap == TOOLS
    requires Aggregate(cfg, run[m].0, run[m].1).Page? && item in Aggregate(cfg, run[m].0, run[m].1).items
    ensures GetStr(item, "name").Some?
    ensures var name := GetStr(item, "name").value;
      && i < |cfg.ids| && k <= m && FirstShownAt(cfg, run, name, k, i)
      && forall key :: RouteOf(cfg, TOOLS, name, key, ReverseAfter(cfg, run, |run|)) == Routed(i, name)
  {
    PassthroughPageIsRecorded(cfg, run[m].0, run[m].1, ReverseAfter(cfg, run, m), item);
    var name := GetStr(item, "name").value;
    k, i := FirstShownStays(cfg, run, m, name);
    RouteRecorded(cfg, ReverseAfter(cfg, run, |run|), name, i);
  }
}
