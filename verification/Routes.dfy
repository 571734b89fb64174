/** Where a call goes, for any name at all: to which backend and under which name,
    or nowhere. Stated from the name, the configuration and what was recorded. */
module Routes {
  import opened Prelude
  import opened JsonValue
  import opened Listing
  import opened Calls
  import Agreement
  import Correlation
  import Drain
  import FanOut
  import Namespace
  import Pages

  /** Distinct, well-chosen backend ids. */
  ghost predicate GoodIds(cfg: Config) {
    Distinct(cfg.ids) && forall i {:trigger Drain.GoodId(cfg.ids[i])} :: 0 <= i < |cfg.ids| ==> Drain.GoodId(cfg.ids[i])
  }

  /** `value` is backend `i`'s label for `original`, which can carry one. */
  ghost predicate IsLabel(cfg: Config, kind: Kind, value: string, i: nat, original: string) {
    && i < |cfg.ids|
    && match kind
       case Name => original != "" && value == Namespace.Prefix(cfg.ids[i], original)
       case Uri => Namespace.HasScheme(original) && value == Namespace.PrefixUri(cfg.ids[i], original)
  }

  /** What resolves is the label of what it resolves to. */
  lemma ResolvedIsLabel(kind: Kind, value: string, id: string, original: string)
    requires Resolve(kind, value) == Some((id, original))
    ensures match kind
            case Name => original != "" && value == Namespace.Prefix(id, original)
            case Uri => Namespace.HasScheme(original) && value == Namespace.PrefixUri(id, original)
  {
    match kind
    case Name => Namespace.SplitIsLabel(value);
    case Uri => Namespace.PrefixUriUndoesSplitUri(value);
  }

  lemma LocatedExactly(cfg: Config, resolved: Option<(string, string)>, i: nat, original: string)
    requires Distinct(cfg.ids)
    ensures Locate(cfg, resolved) == Routed(i, original) <==>
      i < |cfg.ids| && resolved == Some((cfg.ids[i], original))
    ensures Locate(cfg, resolved).Routed? || Locate(cfg, resolved).Unroutable?
  {
    if i < |cfg.ids| {
      Agreement.LocateHome(cfg, cfg.ids[i], original, i, resolved);
    }
    if resolved.Some? && Correlation.FindBackend(cfg.ids, resolved.value.0).Some? {
      assert cfg.ids[Correlation.FindBackend(cfg.ids, resolved.value.0).value] == resolved.value.0;
    }
  }

  lemma LabelLocates(cfg: Config, kind: Kind, value: string, i: nat, original: string)
    requires GoodIds(cfg)
    ensures Locate(cfg, Resolve(kind, value)) == Routed(i, original) <==> IsLabel(cfg, kind, value, i, original)
  {
    LocatedExactly(cfg, Resolve(kind, value), i, original);
    if i < |cfg.ids| {
      assert Drain.GoodId(cfg.ids[i]);
      Drain.ResolveUndoesLabel(kind, cfg.ids[i], original);
      if Resolve(kind, value) == Some((cfg.ids[i], original)) {
        ResolvedIsLabel(kind, value, cfg.ids[i], original);
      }
    }
  }

  /** A lone backend gets every name as it is. */
  lemma LoneBackendGetsAll(cfg: Config, cap: Capability, value: string, key: Option<string>, reverse: Reverse)
    requires |cfg.ids| == 1
    ensures RouteOf(cfg, cap, value, key, reverse) == Routed(0, value)
  {
  }

  /** Prompts, resources, and tools under the strategies that label: a call goes to
      a backend under a name if and only if its own name is that backend's label for
      it; anything else goes nowhere. */
  lemma LabelledCallGoes(cfg: Config, cap: Capability, value: string, key: Option<string>, reverse: Reverse,
      i: nat, original: string)
    requires GoodIds(cfg) && |cfg.ids| != 1
    requires cap.call == "tools/call" ==> cfg.strategy != "manual" && cfg.strategy != "passthrough"
    ensures RouteOf(cfg, cap, value, key, reverse) == Routed(i, original) <==>
      IsLabel(cfg, cap.kind, value, i, original)
    ensures RouteOf(cfg, cap, value, key, reverse).Routed? || RouteOf(cfg, cap, value, key, reverse).Unroutable?
  {
    LabelLocates(cfg, cap.kind, value, i, original);
    LocatedExactly(cfg, Resolve(cap.kind, value), i, original);
  }

  /** Manual tools: the override that the scan met says which label is meant, and
      the name is its own label when no override exposes it. */
  lemma ManualCallGoes(cfg: Config, cap: Capability, value: string, key: Option<string>, reverse: Reverse,
      i: nat, original: string)
    requires GoodIds(cfg) && |cfg.ids| != 1 && cap.call == "tools/call" && cfg.strategy == "manual"
    requires ScanFinds(cfg.overrides, value, key)
    ensures RouteOf(cfg, cap, value, key, reverse) == Routed(i, original) <==>
      if key.Some? then IsLabel(cfg, Name, key.value, i, original) else IsLabel(cfg, Name, value, i, original)
    ensures key.Some? ==> key.value in cfg.overrides && cfg.overrides[key.value] == value
    ensures key.None? ==> forall k :: k in cfg.overrides ==> cfg.overrides[k] != value
  {
    LabelLocates(cfg, Name, if key.Some? then key.value else value, i, original);
  }

  /** Passthrough tools: the record alone decides. */
  lemma RecordedCallGoes(cfg: Config, cap: Capability, value: string, key: Option<string>, reverse: Reverse,
      i: nat, original: string)
    requires GoodIds(cfg) && |cfg.ids| != 1 && cap.call == "tools/call" && cfg.strategy == "passthrough"
    ensures RouteOf(cfg, cap, value, key, reverse) == Routed(i, original) <==>
      i < |cfg.ids| && value in reverse && reverse[value] == (cfg.ids[i], original)
  {
    LocatedExactly(cfg, if value in reverse then Some(reverse[value]) else None, i, original);
  }

  // ---- A first call before any list ----

  /** Backend `i` was asked for its tools and listed one of this name. */
  ghost predicate ListsTool(cfg: Config, env: Env, i: nat, name: string)
    requires WellFormed(cfg, env)
  {
    exists result {:trigger Pages.Gave(cfg, env, WARM, i, result)} ::
      i < |cfg.ids| && Pages.Gave(cfg, env, WARM, i, result) && HoldsTool(result, name)
  }

  ghost predicate HoldsTool(result: Json, name: string) {
    && GetArr(result, "tools").Some?
    && exists raw :: raw in GetArr(result, "tools").value && GetStr(raw, "name") == Some(name)
  }

  lemma WarmIsPlain(cfg: Config, env: Env, i: nat, params: Json)
    requires WellFormed(cfg, env) && (i, params) in Fetches(cfg, env, WARM)
    ensures Get(params, "filter").None? && Get(params, "cursor").None?
  {
    FanOut.RequestCarries(cfg, env, WARM, i, params);
  }

  lemma ContributesExactly(cfg: Config, env: Env, i: nat, name: string)
    requires WellFormed(cfg, env) && Distinct(cfg.ids)
    ensures Agreement.Contributes(cfg, env, WARM, i, name) <==> ListsTool(cfg, env, i, name)
  {
    if i < |cfg.ids| {
      var answers := Answers(cfg, env, WARM, |cfg.ids|);
      var listed := Contribution(cfg, env, WARM, answers, i);
      if Agreement.Contributes(cfg, env, WARM, i, name) {
        var j :| 0 <= j < |listed| && GetStr(listed[j], "name") == Some(name);
        Pages.EntryIsGiven(cfg, env, WARM, i, answers[cfg.ids[i]]);
        assert listed[j] in listed;
      }
      if result :| Pages.Gave(cfg, env, WARM, i, result) && HoldsTool(result, name) {
        Pages.EntryIsGiven(cfg, env, WARM, i, result);
        var raw :| raw in GetArr(result, "tools").value && GetStr(raw, "name") == Some(name);
        var j :| 0 <= j < |listed| && listed[j] == raw;
      }
    }
  }

  /** A passthrough call for a name nobody recorded asks every admitted backend for
      its plain tool list, and goes to the first that lists the name, under that
      very name; if none does it goes nowhere. */
  lemma ColdCallGoes(cfg: Config, env: Env, value: string, key: Option<string>, reverse: Reverse)
    requires WellFormed(cfg, env) && GoodIds(cfg) && |cfg.ids| != 1 && cfg.strategy == "passthrough"
    requires value !in reverse && Collect(cfg, env, WARM).Collected?
    ensures var route := RouteOf(cfg, TOOLS, value, key, RecordedBy(cfg, env, WARM, reverse));
      if forall i: nat {:trigger ListsTool(cfg, env, i, value)} :: !ListsTool(cfg, env, i, value) then
        route == Unroutable
      else exists i: nat {:trigger ListsTool(cfg, env, i, value)} ::
        && ListsTool(cfg, env, i, value) && route == Routed(i, value)
        && forall j: nat {:trigger ListsTool(cfg, env, j, value)} :: j < i ==> !ListsTool(cfg, env, j, value)
  {
    var after := RecordedBy(cfg, env, WARM, reverse);
    Agreement.FirstRecorded(cfg, env, WARM, reverse, value);
    forall i: nat ensures Agreement.Contributes(cfg, env, WARM, i, value) <==> ListsTool(cfg, env, i, value) {
      ContributesExactly(cfg, env, i, value);
    }
    if value in after {
      var i: nat :| i < |cfg.ids| && Agreement.Contributes(cfg, env, WARM, i, value)
        && after[value] == (cfg.ids[i], value)
        && forall j :: 0 <= j < i ==> !Agreement.Contributes(cfg, env, WARM, j, value);
      RecordedCallGoes(cfg, TOOLS, value, key, after, i, value);
      assert ListsTool(cfg, env, i, value);
    } else {
      forall i: nat ensures !ListsTool(cfg, env, i, value) {
        assert !Agreement.Contributes(cfg, env, WARM, i, value);
      }
    }
  }
}
