/** Server variants and the composite pagination cursor bound to them. */
module Variants {
  import opened Prelude
  import opened JsonValue
  import Hex

  const CURSOR_PREFIX := "yv1:"

  /** serde_json's printer and parser, known here only by `Faithful`. */
  datatype Wire = Wire(encode: Json -> seq<byte>, decode: seq<byte> -> Option<Json>)

  function CursorBody(variant: Option<string>, cursors: map<string, string>): Json {
    Obj(map["v" := if variant.Some? then Str(variant.value) else Null,
            "c" := Obj(map k | k in cursors :: Str(cursors[k]))])
  }

  /** The parser undoes the printer on every cursor body. Nothing is asked of
      other values: a float, for one, need not survive printing. */
  ghost predicate Faithful(w: Wire) {
    forall variant, cursors {:trigger CursorBody(variant, cursors)} ::
      w.decode(w.encode(CursorBody(variant, cursors))) == Some(CursorBody(variant, cursors))
  }

  function BindCursor(w: Wire, variant: Option<string>, cursors: map<string, string>): string {
    CURSOR_PREFIX + Hex.ToHex(w.encode(CursorBody(variant, cursors)))
  }

  function ReadBody(body: Json): Option<(Option<string>, map<string, string>)> {
    var c := Get(body, "c");
    if c.None? || !c.value.Obj? then None
    else Some((GetStr(body, "v"),
               map k | k in c.value.fields && c.value.fields[k].Str? :: c.value.fields[k].s))
  }

  function ResolveCursor(w: Wire, cursor: Json): Option<(Option<string>, map<string, string>)> {
    if !cursor.Str? || !(CURSOR_PREFIX <= cursor.s) then None
    else
      match Hex.Strict(cursor.s[|CURSOR_PREFIX|..])
      case None => None
      case Some(bytes) =>
        match w.decode(bytes)
        case None => None
        case Some(body) => ReadBody(body)
  }

  method Bind(w: Wire, variant: Option<string>, cursors: map<string, string>) returns (out: string)
    ensures out == BindCursor(w, variant, cursors)
  {
    var hex := Hex.Encode(w.encode(CursorBody(variant, cursors)));
    out := CURSOR_PREFIX + hex;
  }

  method Resolve(w: Wire, cursor: Json) returns (r: Option<(Option<string>, map<string, string>)>)
    ensures r == ResolveCursor(w, cursor)
  {
    if !cursor.Str? || !(CURSOR_PREFIX <= cursor.s) {
      return None;
    }
    var bytes := Hex.DecodeStrict(cursor.s[|CURSOR_PREFIX|..]);
    if bytes.None? {
      return None;
    }
    var body := w.decode(bytes.value);
    r := if body.None? then None else ReadBody(body.value);
  }

  /** A minted cursor resolves to exactly what it was minted from. */
  lemma ResolveUndoesBind(w: Wire, variant: Option<string>, cursors: map<string, string>)
    requires Faithful(w)
    ensures ResolveCursor(w, Str(BindCursor(w, variant, cursors))) == Some((variant, cursors))
  {
    var body := CursorBody(variant, cursors);
    var bytes := w.encode(body);
    var text := BindCursor(w, variant, cursors);
    assert text[|CURSOR_PREFIX|..] == Hex.ToHex(bytes);
    Hex.HexRoundTrip(bytes);
    assert w.decode(bytes) == Some(body);
    var fields := body.fields["c"].fields;
    assert (map k | k in fields && fields[k].Str? :: fields[k].s) == cursors;
  }

  /** A minted cursor's shape: the prefix, then the hex of bytes that parse to an
      object whose `c` is an object. */
  predicate Composite(w: Wire, cursor: Json) {
    && cursor.Str? && CURSOR_PREFIX <= cursor.s
    && var hex := cursor.s[|CURSOR_PREFIX|..];
      && Hex.HexText(hex)
      && Hex.Strict(hex).Some?
      && w.decode(Hex.Strict(hex).value).Some?
      && Index(w.decode(Hex.Strict(hex).value).value, "c").Obj?
  }

  /** Exactly the values of that shape resolve, so a backend's own cursor, or
      damaged text, is never mistaken for a composite one; and `c` may hold
      entries that are not strings, which are passed over. */
  lemma ResolvesExactly(w: Wire, cursor: Json)
    ensures ResolveCursor(w, cursor).Some? <==> Composite(w, cursor)
    ensures ResolveCursor(w, cursor).Some? ==>
      var c := Index(w.decode(Hex.Strict(cursor.s[|CURSOR_PREFIX|..]).value).value, "c").fields;
      forall k, v :: (k in ResolveCursor(w, cursor).value.1 && ResolveCursor(w, cursor).value.1[k] == v) <==>
        (k in c && c[k] == Str(v))
  {
    if cursor.Str? && CURSOR_PREFIX <= cursor.s {
      Hex.StrictExactly(cursor.s[|CURSOR_PREFIX|..]);
    }
  }

  // ---- Composition ----

  const EXTENSION_ID := "io.modelcontextprotocol/server-variants"

  function Payload(capabilities: Json): Option<seq<Json>> {
    match Get(capabilities, "extensions")
    case None => None
    case Some(extensions) =>
      match Get(extensions, EXTENSION_ID)
      case None => None
      case Some(extension) => GetArr(extension, "availableVariants")
  }

  /** The backend's non-empty variant list, when it has one. */
  function Offers(capabilities: Json): Option<seq<Json>> {
    match Payload(capabilities)
    case Some(vs) => if vs == [] then None else Some(vs)
    case None => None
  }

  predicate Lists(vs: seq<Json>, id: string) {
    exists i :: 0 <= i < |vs| && GetStr(vs[i], "id") == Some(id)
  }

  function Supporting(caps: seq<Json>): seq<seq<Json>> {
    if caps == [] then []
    else (match Offers(caps[0]) case Some(vs) => [vs] case None => []) + Supporting(caps[1..])
  }

  function IdSet(vs: seq<Json>): (ids: set<string>)
    ensures forall id :: id in ids <==> Lists(vs, id)
  {
    set i | 0 <= i < |vs| && GetStr(vs[i], "id").Some? :: GetStr(vs[i], "id").value
  }

  function Filter(vs: seq<Json>, ids: set<string>): seq<Json> {
    if vs == [] then []
    else (if GetStr(vs[0], "id").Some? && GetStr(vs[0], "id").value in ids then [vs[0]] else []) + Filter(vs[1..], ids)
  }

  /** The variants of the first supporting backend that every supporting
      backend lists, in that backend's order. */
  ghost predicate OfferedByAll(supporting: seq<seq<Json>>, id: string) {
    forall k :: 0 <= k < |supporting| ==> Lists(supporting[k], id)
  }

  method ComposeVariants(caps: seq<Json>) returns (out: seq<Json>, ghost common: set<string>)
    ensures Supporting(caps) == [] ==> out == []
    ensures Supporting(caps) != [] ==>
              && out == Filter(Supporting(caps)[0], common)
              && forall id :: id in common <==> OfferedByAll(Supporting(caps), id)
  {
    var supporting := Supporting(caps);
    common := {};
    if supporting == [] {
      return [], {};
    }
    var narrowed := IdSet(supporting[0]);
    var k := 1;
    while k < |supporting|
      invariant 1 <= k <= |supporting|
      invariant forall id :: id in narrowed <==> OfferedByAll(supporting[..k], id)
    {
      narrowed := narrowed * IdSet(supporting[k]);
      forall id
        ensures OfferedByAll(supporting[..k + 1], id) <==>
          OfferedByAll(supporting[..k], id) && Lists(supporting[k], id)
      {
        assert supporting[..k + 1] == supporting[..k] + [supporting[k]];
        assert supporting[..k + 1][k] == supporting[k];
        assert forall j :: 0 <= j < k ==> supporting[..k + 1][j] == supporting[..k][j];
      }
      k := k + 1;
    }
    assert supporting[..k] == supporting;
    common := narrowed;
    out := Filter(supporting[0], narrowed);
  }

  lemma {:induction false} FilterKeeps(vs: seq<Json>, ids: set<string>, v: Json)
    ensures v in Filter(vs, ids) <==> v in vs && GetStr(v, "id").Some? && GetStr(v, "id").value in ids
  {
    if vs != [] {
      FilterKeeps(vs[1..], ids, v);
      assert vs == [vs[0]] + vs[1..];
    }
  }

  lemma {:induction false} SupportingIs(caps: seq<Json>, vs: seq<Json>)
    ensures vs in Supporting(caps) <==> exists b :: 0 <= b < |caps| && Offers(caps[b]) == Some(vs)
  {
    if caps != [] {
      SupportingIs(caps[1..], vs);
      if b :| 0 <= b < |caps| && Offers(caps[b]) == Some(vs) && b > 0 {
        assert caps[1..][b - 1] == caps[b];
      }
      if b :| 0 <= b < |caps[1..]| && Offers(caps[1..][b]) == Some(vs) {
        assert caps[b + 1] == caps[1..][b];
      }
    }
  }

  /** A variant the proxy offers is one every backend with variants can serve. */
  lemma OfferedIsServable(caps: seq<Json>, out: seq<Json>, common: set<string>, v: Json, b: nat)
    requires Supporting(caps) != [] && out == Filter(Supporting(caps)[0], common)
    requires forall id :: id in common <==> OfferedByAll(Supporting(caps), id)
    requires v in out && b < |caps| && Offers(caps[b]).Some?
    ensures GetStr(v, "id").Some? && Lists(Offers(caps[b]).value, GetStr(v, "id").value)
  {
    var supporting := Supporting(caps);
    FilterKeeps(supporting[0], common, v);
    SupportingIs(caps, Offers(caps[b]).value);
    assert OfferedByAll(supporting, GetStr(v, "id").value);
  }
}
