/** A manual override for a tool nobody lists, and what it does to a call. */
module StrayExample {
  import opened Prelude
  import opened JsonValue
  import opened Listing
  import opened Calls
  import opened Agreement
  import Namespace
  import Collision
  import Correlation
  import Variants
  import Drain

  const GONE := map["b__gone" := "a__t"]
  const TOOL_LIST := Query(TOOLS, Null, Null, None)

  /** Two backends; only the first lists anything, a tool `t`. */
  function StrayConfig(w: Variants.Wire): Config {
    Config(w, ["a", "b"], false, MANUAL, [], GONE, [], [])
  }

  function StrayEnv(): Env {
    Env([true, true], [true, true], i => true, name => true, (i: nat, params) => Some(Obj(map[
      "result" := Obj(map["tools" := Arr(if i == 0 then [Obj(map["name" := Str("t")])] else [])])])))
  }

  const T := Obj(map["name" := Str("t")])
  const SHOWN := Obj(map["name" := Str("a__t")])

  lemma StrayRow(w: Variants.Wire)
    ensures Rows(StrayConfig(w), StrayEnv(), TOOL_LIST, "a", [T]) == [SHOWN]
  {
    var cfg, env, q := StrayConfig(w), StrayEnv(), TOOL_LIST;
    assert Labeled(cfg, q, "a", "t") == "a__t";
    assert Put(T, "name", Str("a__t")) == SHOWN;
    assert Row(cfg, env, q, "a", T) == [SHOWN];
    assert [T][..0] == [] && Rows(cfg, env, q, "a", []) == [];
  }

  lemma StrayAnswers(w: Variants.Wire)
    ensures var (cfg, env, q) := (StrayConfig(w), StrayEnv(), TOOL_LIST);
      && (forall i :: 0 <= i < 2 ==> Chosen(cfg, env, q, i))
      && AllAnswers(cfg, env, q) == map["a" := Obj(map["tools" := Arr([T])]), "b" := Obj(map["tools" := Arr([])])]
      && Collect(cfg, env, q).Collected?
  {
    var cfg, env, q := StrayConfig(w), StrayEnv(), TOOL_LIST;
    assert Answers(cfg, env, q, 0) == map[];
    assert Answers(cfg, env, q, 1) == map["a" := Obj(map["tools" := Arr([T])])];
    assert Failing(cfg, env, q, 0) == [] && Failing(cfg, env, q, 1) == [];
  }

  /** The items of the first backend, then of both, from any answers of this shape. */
  lemma StrayItems(w: Variants.Wire, answers: map<string, Json>)
    requires answers == map["a" := Obj(map["tools" := Arr([T])]), "b" := Obj(map["tools" := Arr([])])]
    requires forall i :: 0 <= i < 2 ==> Chosen(StrayConfig(w), StrayEnv(), TOOL_LIST, i)
    ensures Items(StrayConfig(w), StrayEnv(), TOOL_LIST, answers, 2) == [SHOWN]
  {
    var cfg, env, q := StrayConfig(w), StrayEnv(), TOOL_LIST;
    StrayRow(w);
    assert "a"[0] != "b"[0];
    assert Rows(cfg, env, q, "b", []) == [];
    assert Items(cfg, env, q, answers, 1) == Items(cfg, env, q, answers, 0) + [SHOWN];
  }

  lemma StrayListing(w: Variants.Wire)
    ensures CollectedItems(StrayConfig(w), StrayEnv(), TOOL_LIST) == [SHOWN]
    ensures Collect(StrayConfig(w), StrayEnv(), TOOL_LIST).Collected?
  {
    StrayAnswers(w);
    StrayItems(w, AllAnswers(StrayConfig(w), StrayEnv(), TOOL_LIST));
  }

  lemma StrayRename()
    ensures RenameAll("name", GONE, [SHOWN]) == [SHOWN] && Collision.TargetOf("a__t", GONE) == "a__t"
  {
    assert "a__t"[0] != "b__gone"[0];
    var name := Str("a__t");
    assert map["name" := name]["name" := name] == map["name" := name];
    assert Rename("name", GONE, SHOWN) == SHOWN;
  }

  lemma StraySurface(w: Variants.Wire)
    ensures Surface(StrayConfig(w), TOOL_LIST, [SHOWN]) == Some([SHOWN])
  {
    var items := [SHOWN];
    StrayRename();
    assert items[..0] == [] && NamesOf("name", items) == NamesOf("name", []) + ["a__t"] == ["a__t"];
    assert !Collision.Clashing(["a__t"], GONE);
  }

  lemma StrayPage(w: Variants.Wire)
    ensures Aggregate(StrayConfig(w), StrayEnv(), TOOL_LIST).Page?
    ensures Aggregate(StrayConfig(w), StrayEnv(), TOOL_LIST).items == [SHOWN]
  {
    StrayListing(w);
    StraySurface(w);
    assert Composed(StrayConfig(w), StrayEnv(), TOOL_LIST, [SHOWN]) == [SHOWN] + [];
    assert [SHOWN] + [] == [SHOWN];
  }

  lemma SplitAt(name: string, id: string, original: string)
    requires name == Namespace.Prefix(id, original) && original != ""
    requires |id| == 1 && Namespace.IdChar(id[0]) && id[0] != '_'
    ensures Namespace.Split(name) == Some((id, original))
  {
    assert forall j :: !Namespace.At(id, Namespace.DELIMITER, j);
    Namespace.SplitUndoesPrefix(id, original);
  }

  lemma StrayRoute(cfg: Config, key: Option<string>)
    requires cfg.ids == ["a", "b"] && cfg.strategy == MANUAL && cfg.overrides == GONE
    requires ScanFinds(cfg.overrides, "a__t", key)
    ensures RouteOf(cfg, TOOLS, "a__t", key, map[]) == Routed(1, "gone")
  {
    assert "b__gone" in cfg.overrides;
    assert key == Some("b__gone");
    SplitAt("b__gone", "b", "gone");
    assert "a"[0] != "b"[0];
    Correlation.FindDistinct(cfg.ids, 1);
  }

  /** An override for a tool nobody lists hijacks the name it exposes: the listing
      is accepted and shows `a__t`, backend `a`'s tool `t`, and a call to that very
      name goes to backend `b`, for a tool `gone` that it never listed. */
  lemma StrayOverrideMisroutes(w: Variants.Wire, key: Option<string>)
    requires ScanFinds(GONE, "a__t", key)
    ensures Aggregate(StrayConfig(w), StrayEnv(), TOOL_LIST).Page?
    ensures Aggregate(StrayConfig(w), StrayEnv(), TOOL_LIST).items == [SHOWN]
    ensures RouteOf(StrayConfig(w), TOOLS, "a__t", key, map[]) == Routed(1, "gone")
  {
    StrayPage(w);
    StrayRoute(StrayConfig(w), key);
  }
}
