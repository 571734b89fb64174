/** A small world that meets every hypothesis of the drain theorems, so that they
    are about something. */
module DrainExample {
  import opened Prelude
  import opened JsonValue
  import opened Listing
  import opened Drain
  import Namespace
  import Variants
  import CursorWire

  const TOOL := Obj(map["name" := Str("t")])
  const FIRST_PAGE := Obj(map["tools" := Arr([TOOL]), "nextCursor" := Str("n")])
  const LAST_PAGE := Obj(map["tools" := Arr([TOOL])])
  const PLAIN := Query(TOOLS, Null, Null, None)

  function TwoBackends(w: Variants.Wire): Config {
    Config(w, ["a", "b"], false, "prefix", [], map[], [], [])
  }

  function Respond(cfg: Config, i: nat, params: Json): Option<Json> {
    Some(Obj(map["result" := if i == 0 && params == ParamsWith(cfg, PLAIN, None) then FIRST_PAGE else LAST_PAGE]))
  }

  function Calm(cfg: Config): Env {
    Env([true, true], [true, true], i => true, name => true, (i: nat, params) => Respond(cfg, i, params))
  }

  const TWO_CHAINS := [Chain([FIRST_PAGE, LAST_PAGE], ["n"]), Chain([LAST_PAGE], [])]

  lemma OneLetterIsGood(id: string)
    requires |id| == 1 && Namespace.IdChar(id[0]) && id[0] != '_'
    ensures GoodId(id)
  {
    assert forall j :: !Namespace.At(id, Namespace.DELIMITER, j);
  }

  lemma ServedAsChained(cfg: Config, i: nat)
    requires i < 2
    ensures ChainOk(TWO_CHAINS[i]) && Serves(cfg, Calm(cfg), PLAIN, i, TWO_CHAINS[i])
  {
    var c := TWO_CHAINS[i];
    var first, second := ParamsWith(cfg, PLAIN, None), ParamsWith(cfg, PLAIN, Some(Str("n")));
    assert "cursor" in second.fields && "cursor" !in first.fields;
    forall k | 0 <= k < |c.pages|
      ensures Calm(cfg).fetch(i, ParamsWith(cfg, PLAIN, CursorAt(c, k))).Some?
      ensures ResultOf(Calm(cfg).fetch(i, ParamsWith(cfg, PLAIN, CursorAt(c, k))).value) == c.pages[k]
    {
    }
  }

  /** Two backends, one with two pages, in a world that meets every hypothesis of
      `DrainRun`: the theorem is about something. */
  lemma DrainRunIsMet() returns (cfg: Config, env: Env)
    ensures World(cfg, env, PLAIN, TWO_CHAINS) && Plain(cfg, PLAIN) && Nameable(cfg, PLAIN, TWO_CHAINS)
    ensures Longest(TWO_CHAINS) == 2
  {
    var w := CursorWire.FaithfulIsMet();
    cfg, env := TwoBackends(w), Calm(TwoBackends(w));
    OneLetterIsGood("a");
    OneLetterIsGood("b");
    assert "a"[0] != "b"[0];
    forall i | 0 <= i < 2 ensures BackendOk(cfg, env, PLAIN, i, TWO_CHAINS[i]) {
      ServedAsChained(cfg, i);
    }
    LongestIs(TWO_CHAINS);
    assert |TWO_CHAINS[0].pages| == 2 && |TWO_CHAINS[1].pages| == 1;
  }
}
