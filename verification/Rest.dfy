/** Building the URL of a converted REST call: percent encoding (RFC 3986,
    sections 2.1 and 2.3), placeholder replacement and the query string. Texts
    are their UTF-8 bytes. */
module Rest {
  import opened Prelude
  import opened JsonValue

  type Text = seq<byte>
  type Pair = (Text, Text)

  const PERCENT: byte := 37
  const AMP: byte := 38
  const EQUALS: byte := 61
  const QUERY: byte := 63
  const OPEN: byte := 123
  const CLOSE: byte := 125

  // ---- Percent encoding ----

  predicate Unreserved(b: byte) {
    65 <= b <= 90 || 97 <= b <= 122 || 48 <= b <= 57 || b == 45 || b == 46 || b == 95 || b == 126
  }

  function UpperHex(d: nat): byte
    requires d < 16
  {
    if d < 10 then (48 + d) as byte else (55 + d) as byte
  }

  /** Either case of hex digit, as a reader must accept. */
  function HexValue(b: byte): Option<nat> {
    if 48 <= b <= 57 then Some(b as nat - 48)
    else if 65 <= b <= 70 then Some(b as nat - 55)
    else if 97 <= b <= 102 then Some(b as nat - 87)
    else None
  }

  function EncodeByte(b: byte): Text {
    if Unreserved(b) then [b] else [PERCENT, UpperHex(b as nat / 16), UpperHex(b as nat % 16)]
  }

  function PercentEncode(v: Text): Text {
    if v == [] then [] else EncodeByte(v[0]) + PercentEncode(v[1..])
  }

  lemma EncodeStep(out: Text, value: Text, i: nat)
    requires i < |value|
    ensures (out + EncodeByte(value[i])) + PercentEncode(value[i + 1..]) == out + PercentEncode(value[i..])
  {
    var rest := PercentEncode(value[i + 1..]);
    assert value[i..][1..] == value[i + 1..];
    assert (out + EncodeByte(value[i])) + rest == out + (EncodeByte(value[i]) + rest);
  }

  method PercentEncodeLoop(value: Text) returns (out: Text)
    ensures out == PercentEncode(value)
  {
    out := [];
    assert value[0..] == value;
    for i := 0 to |value|
      invariant out + PercentEncode(value[i..]) == PercentEncode(value)
    {
      EncodeStep(out, value, i);
      var b := value[i];
      var piece := if Unreserved(b) then [b] else [PERCENT, UpperHex(b as nat / 16), UpperHex(b as nat % 16)];
      assert piece == EncodeByte(b);
      out := out + piece;
    }
    assert out + [] == out;
  }

  /** The standard's reader; a percent sign without two hex digits is malformed. */
  function PercentDecode(t: Text): Option<Text> {
    if t == [] then Some([])
    else if t[0] != PERCENT then
      match PercentDecode(t[1..])
      case None => None
      case Some(rest) => Some([t[0]] + rest)
    else if |t| < 3 then None
    else
      match (HexValue(t[1]), HexValue(t[2]), PercentDecode(t[3..]))
      case (Some(hi), Some(lo), Some(rest)) => Some([(hi * 16 + lo) as byte] + rest)
      case _ => None
  }

  lemma ByteReads(b: byte, rest: Text)
    ensures PercentDecode(EncodeByte(b) + rest) ==
      match PercentDecode(rest)
      case None => None
      case Some(tail) => Some([b] + tail)
  {
    var t := EncodeByte(b) + rest;
    if Unreserved(b) {
      assert t[1..] == rest;
    } else {
      assert t[3..] == rest && t[0] == PERCENT;
      assert HexValue(t[1]) == Some(b as nat / 16) && HexValue(t[2]) == Some(b as nat % 16);
    }
  }

  /** Decoding undoes encoding, so encoding confuses no two texts. */
  lemma {:induction false} DecodeUndoesEncode(v: Text)
    ensures PercentDecode(PercentEncode(v)) == Some(v)
  {
    if v != [] {
      DecodeUndoesEncode(v[1..]);
      ByteReads(v[0], PercentEncode(v[1..]));
      assert v == [v[0]] + v[1..];
    }
  }

  predicate Plain(b: byte) {
    Unreserved(b) || b == PERCENT
  }

  /** An encoded value holds no byte that could end a segment or a pair. */
  lemma {:induction false} EncodedIsPlain(v: Text)
    ensures forall i :: 0 <= i < |PercentEncode(v)| ==> Plain(PercentEncode(v)[i])
  {
    if v != [] {
      EncodedIsPlain(v[1..]);
      assert forall i :: 0 <= i < |EncodeByte(v[0])| ==> Plain(EncodeByte(v[0])[i]);
    }
  }

  predicate Without(sep: byte, t: Text) {
    forall i :: 0 <= i < |t| ==> t[i] != sep
  }

  lemma EncodedWithout(sep: byte, v: Text)
    requires !Plain(sep)
    ensures Without(sep, PercentEncode(v))
  {
    EncodedIsPlain(v);
  }

  // ---- The query string ----

  function PairText(p: Pair): Text {
    PercentEncode(p.0) + [EQUALS] + PercentEncode(p.1)
  }

  function PairTexts(pairs: seq<Pair>): seq<Text> {
    seq(|pairs|, i requires 0 <= i < |pairs| => PairText(pairs[i]))
  }

  /** `query.join("&")`. */
  function JoinWith(sep: byte, parts: seq<Text>): Text {
    if parts == [] then []
    else if |parts| == 1 then parts[0]
    else parts[0] + [sep] + JoinWith(sep, parts[1..])
  }

  function SplitOn(sep: byte, t: Text): (parts: seq<Text>)
    ensures |parts| > 0
  {
    if t == [] then [[]]
    else if t[0] == sep then [[]] + SplitOn(sep, t[1..])
    else
      var parts := SplitOn(sep, t[1..]);
      [[t[0]] + parts[0]] + parts[1..]
  }

  lemma {:induction false} SplitNothing(sep: byte, t: Text)
    requires Without(sep, t)
    ensures SplitOn(sep, t) == [t]
  {
    if t != [] {
      SplitNothing(sep, t[1..]);
      assert t == [t[0]] + t[1..];
    }
  }

  lemma {:induction false} SplitFirst(sep: byte, a: Text, b: Text)
    requires Without(sep, a)
    ensures SplitOn(sep, a + [sep] + b) == [a] + SplitOn(sep, b)
  {
    if a == [] {
      assert [] + [sep] + b == [sep] + b && ([sep] + b)[1..] == b;
    } else {
      SplitFirst(sep, a[1..], b);
      assert (a + [sep] + b)[1..] == a[1..] + [sep] + b;
      assert a == [a[0]] + a[1..];
      assert ([a[1..]] + SplitOn(sep, b))[1..] == SplitOn(sep, b);
    }
  }

  lemma {:induction false} SplitUndoesJoin(sep: byte, parts: seq<Text>)
    requires parts != [] && forall i :: 0 <= i < |parts| ==> Without(sep, parts[i])
    ensures SplitOn(sep, JoinWith(sep, parts)) == parts
  {
    if |parts| == 1 {
      SplitNothing(sep, parts[0]);
    } else {
      SplitUndoesJoin(sep, parts[1..]);
      SplitFirst(sep, parts[0], JoinWith(sep, parts[1..]));
      assert parts == [parts[0]] + parts[1..];
    }
  }

  /** A reader's view of one `key=value` field. */
  function ReadPair(field: Text): Option<Pair> {
    var parts := SplitOn(EQUALS, field);
    if |parts| != 2 then None
    else
      match (PercentDecode(parts[0]), PercentDecode(parts[1]))
      case (Some(k), Some(v)) => Some((k, v))
      case _ => None
  }

  lemma PairIsRead(p: Pair)
    ensures ReadPair(PairText(p)) == Some(p) && Without(AMP, PairText(p))
  {
    EncodedWithout(EQUALS, p.0);
    EncodedWithout(EQUALS, p.1);
    EncodedWithout(AMP, p.0);
    EncodedWithout(AMP, p.1);
    SplitFirst(EQUALS, PercentEncode(p.0), PercentEncode(p.1));
    SplitNothing(EQUALS, PercentEncode(p.1));
    DecodeUndoesEncode(p.0);
    DecodeUndoesEncode(p.1);
  }

  /** Splitting the query on `&` and `=` and decoding recovers exactly the pairs,
      in order, whatever bytes their names and values hold. */
  lemma QueryIsRead(pairs: seq<Pair>)
    requires pairs != []
    ensures var fields := SplitOn(AMP, JoinWith(AMP, PairTexts(pairs)));
      |fields| == |pairs| && forall i :: 0 <= i < |pairs| ==> ReadPair(fields[i]) == Some(pairs[i])
  {
    forall i | 0 <= i < |pairs|
      ensures ReadPair(PairTexts(pairs)[i]) == Some(pairs[i]) && Without(AMP, PairTexts(pairs)[i])
    {
      PairIsRead(pairs[i]);
    }
    SplitUndoesJoin(AMP, PairTexts(pairs));
  }

  // ---- Placeholders ----

  predicate StartsWith(t: Text, p: Text) {
    |p| <= |t| && t[..|p|] == p
  }

  /** `str::replace`: every match, left to right, without overlap. */
  function Replace(t: Text, pattern: Text, value: Text): Text
    requires pattern != []
    decreases |t|
  {
    if t == [] then []
    else if StartsWith(t, pattern) then value + Replace(t[|pattern|..], pattern, value)
    else [t[0]] + Replace(t[1..], pattern, value)
  }

  function Hole(name: Text): Text {
    [OPEN] + name + [CLOSE]
  }

  /** `path.replace("{name}", encoded)` for each pair, one after another. */
  function Sequential(path: Text, pairs: seq<Pair>, n: nat): Text
    requires n <= |pairs|
  {
    if n == 0 then path
    else Replace(Sequential(path, pairs, n - 1), Hole(pairs[n - 1].0), PercentEncode(pairs[n - 1].1))
  }

  /** A template: literal text and named placeholders. */
  datatype Piece = Lit(text: Text) | Slot(name: Text)
  type Template = seq<Piece>

  function PieceText(p: Piece): Text {
    match p
    case Lit(text) => text
    case Slot(name) => Hole(name)
  }

  function Render(t: Template): Text {
    if t == [] then [] else PieceText(t[0]) + Render(t[1..])
  }

  predicate NoBraces(t: Text) {
    Without(OPEN, t) && Without(CLOSE, t)
  }

  predicate Tidy(t: Template) {
    forall i :: 0 <= i < |t| ==> NoBraces(match t[i] case Lit(text) => text case Slot(name) => name)
  }

  function FillPiece(p: Piece, name: Text, value: Text): Piece {
    if p == Slot(name) then Lit(value) else p
  }

  function FillOne(t: Template, name: Text, value: Text): Template {
    seq(|t|, i requires 0 <= i < |t| => FillPiece(t[i], name, value))
  }

  /** The first pair with this name. */
  function Lookup(pairs: seq<Pair>, n: nat, name: Text): Option<Text>
    requires n <= |pairs|
  {
    if n == 0 then None
    else if Lookup(pairs, n - 1, name).Some? then Lookup(pairs, n - 1, name)
    else if pairs[n - 1].0 == name then Some(pairs[n - 1].1)
    else None
  }

  function Filled(p: Piece, pairs: seq<Pair>, n: nat): Piece
    requires n <= |pairs|
  {
    if p.Slot? && Lookup(pairs, n, p.name).Some? then Lit(PercentEncode(Lookup(pairs, n, p.name).value)) else p
  }

  /** Simultaneous substitution: each placeholder is looked up once. */
  function Fill(t: Template, pairs: seq<Pair>, n: nat): Template
    requires n <= |pairs|
  {
    seq(|t|, i requires 0 <= i < |t| => Filled(t[i], pairs, n))
  }

  lemma StartsPointwise(t: Text, p: Text)
    ensures StartsWith(t, p) <==> |p| <= |t| && forall i :: 0 <= i < |p| ==> t[i] == p[i]
  {
    if |p| <= |t| {
      assert forall i :: 0 <= i < |p| ==> t[..|p|][i] == t[i];
    }
  }

  /** The closing brace comes last and only there. */
  lemma HoleCloses(name: Text)
    requires NoBraces(name)
    ensures |Hole(name)| == |name| + 2 && Hole(name)[|name| + 1] == CLOSE
    ensures forall i :: 0 <= i <= |name| ==> Hole(name)[i] != CLOSE
  {
  }

  /** Text without an opening brace is skipped over. */
  lemma {:induction false} ReplaceSkips(a: Text, rest: Text, name: Text, value: Text)
    requires Without(OPEN, a)
    ensures Replace(a + rest, Hole(name), value) == a + Replace(rest, Hole(name), value)
    decreases |a|
  {
    if a == [] {
      assert a + rest == rest;
      assert [] + Replace(rest, Hole(name), value) == Replace(rest, Hole(name), value);
    } else {
      var t := a + rest;
      assert t[0] == a[0] && t[1..] == a[1..] + rest;
      StartsPointwise(t, Hole(name));
      ReplaceSkips(a[1..], rest, name, value);
      assert [a[0]] + (a[1..] + Replace(rest, Hole(name), value)) == a + Replace(rest, Hole(name), value);
    }
  }

  /** A placeholder matches exactly its own name. */
  lemma HoleMatches(m: Text, rest: Text, name: Text)
    requires NoBraces(m) && NoBraces(name)
    ensures StartsWith(Hole(m) + rest, Hole(name)) <==> m == name
  {
    var t := Hole(m) + rest;
    StartsPointwise(t, Hole(name));
    HoleCloses(m);
    HoleCloses(name);
    assert forall i :: 0 <= i < |Hole(m)| ==> t[i] == Hole(m)[i];
    if StartsWith(t, Hole(name)) {
      assert |name| >= |m|;
      assert |m| >= |name|;
      assert t[..|Hole(name)|] == Hole(m);
      assert Hole(m)[1..|m| + 1] == m && Hole(name)[1..|name| + 1] == name;
    }
  }

  lemma ReplaceHole(m: Text, rest: Text, name: Text, value: Text)
    requires NoBraces(m) && NoBraces(name)
    ensures var filled := if m == name then value else Hole(m);
      Replace(Hole(m) + rest, Hole(name), value) == filled + Replace(rest, Hole(name), value)
  {
    HoleMatches(m, rest, name);
    var t := Hole(m) + rest;
    if m == name {
      assert t[|Hole(name)|..] == rest;
    } else {
      var tail := m + [CLOSE];
      assert t[0] == OPEN && t[1..] == tail + rest;
      ReplaceSkips(tail, rest, name, value);
      assert [OPEN] + (tail + Replace(rest, Hole(name), value)) == Hole(m) + Replace(rest, Hole(name), value);
    }
  }

  lemma FillNext(t: Template, pairs: seq<Pair>, n: nat)
    requires n < |pairs|
    ensures FillOne(Fill(t, pairs, n), pairs[n].0, PercentEncode(pairs[n].1)) == Fill(t, pairs, n + 1)
  {
  }

  lemma FillKeepsTidy(t: Template, pairs: seq<Pair>, n: nat)
    requires n <= |pairs| && Tidy(t)
    ensures Tidy(Fill(t, pairs, n))
  {
    forall i | 0 <= i < |t|
      ensures NoBraces(match Fill(t, pairs, n)[i] case Lit(text) => text case Slot(name) => name)
    {
      var p := t[i];
      if p.Slot? && Lookup(pairs, n, p.name).Some? {
        EncodedWithout(OPEN, Lookup(pairs, n, p.name).value);
        EncodedWithout(CLOSE, Lookup(pairs, n, p.name).value);
      }
    }
  }

  ghost predicate NamedOnce(pairs: seq<Pair>) {
    forall i, j :: 0 <= i < j < |pairs| ==> pairs[i].0 != pairs[j].0
  }

  lemma {:induction false} LookupExactly(pairs: seq<Pair>, n: nat, name: Text)
    requires n <= |pairs| && NamedOnce(pairs)
    ensures forall v :: Lookup(pairs, n, name) == Some(v) <==> exists i :: 0 <= i < n && pairs[i] == (name, v)
  {
    if n > 0 { LookupExactly(pairs, n - 1, name); }
  }

  lemma LookupUnordered(ps: seq<Pair>, qs: seq<Pair>, name: Text)
    requires NamedOnce(ps) && NamedOnce(qs) && forall p :: p in ps <==> p in qs
    ensures Lookup(ps, |ps|, name) == Lookup(qs, |qs|, name)
  {
    LookupExactly(ps, |ps|, name);
    LookupExactly(qs, |qs|, name);
    var a, b := Lookup(ps, |ps|, name), Lookup(qs, |qs|, name);
    if a.Some? { assert (name, a.value) in ps; }
    if b.Some? { assert (name, b.value) in qs; }
  }

  lemma FillUnordered(t: Template, ps: seq<Pair>, qs: seq<Pair>)
    requires NamedOnce(ps) && NamedOnce(qs) && forall p :: p in ps <==> p in qs
    ensures Fill(t, ps, |ps|) == Fill(t, qs, |qs|)
  {
    forall i | 0 <= i < |t| ensures Filled(t[i], ps, |ps|) == Filled(t[i], qs, |qs|) {
      if t[i].Slot? { LookupUnordered(ps, qs, t[i].name); }
    }
  }

  /** Declared in another order, parameters can give another path: in `{{a}}` a
      value can complete another placeholder. */
  lemma LiteralBracesBreakOrder()
    ensures var (a, b, c) := (97 as byte, 98 as byte, 99 as byte);
      var path := [OPEN, OPEN, a, CLOSE, CLOSE];
      && Sequential(path, [([a], [b]), ([b], [c])], 2) == [c]
      && Sequential(path, [([b], [c]), ([a], [b])], 2) == [OPEN, b, CLOSE]
  {
    var a, b, c: byte := 97, 98, 99;
    var path := [OPEN, OPEN, a, CLOSE, CLOSE];
    EncodeOne(b);
    EncodeOne(c);
    ReplaceInner(a, b, b);
    assert Hole([a]) == [OPEN, a, CLOSE] && Hole([b]) == [OPEN, b, CLOSE];
    var ps := [([a], [b]), ([b], [c])];
    var qs := [([b], [c]), ([a], [b])];
    assert Sequential(path, ps, 1) == Replace(path, Hole([a]), [b]) == [OPEN, b, CLOSE];
    assert Replace([OPEN, b, CLOSE], Hole([b]), [c]) == [c] + Replace([], Hole([b]), [c]) by {
      assert [OPEN, b, CLOSE][3..] == [];
    }
    ReplaceNothing(a, b, c);
    assert Sequential(path, qs, 1) == Replace(path, Hole([b]), [c]) == path;
    assert Sequential(path, qs, 2) == Replace(path, Hole([a]), [b]);
  }

  lemma EncodeOne(b: byte)
    requires Unreserved(b)
    ensures PercentEncode([b]) == [b]
  {
    assert [b][1..] == [];
  }

  lemma ReplaceInner(a: byte, b: byte, value: byte)
    requires a != OPEN && a != CLOSE
    ensures Replace([OPEN, OPEN, a, CLOSE, CLOSE], Hole([a]), [value]) == [OPEN, value, CLOSE]
  {
    var p := Hole([a]);
    var path := [OPEN, OPEN, a, CLOSE, CLOSE];
    assert p == [OPEN, a, CLOSE];
    assert path[..3][1] != p[1];
    assert path[1..] == p + [CLOSE];
    assert (p + [CLOSE])[..3] == p && (p + [CLOSE])[3..] == [CLOSE];
    assert [CLOSE][1..] == [];
    assert Replace([CLOSE], p, [value]) == [CLOSE] + Replace([], p, [value]);
    assert Replace(p + [CLOSE], p, [value]) == [value] + [CLOSE];
  }

  lemma ReplaceNothing(a: byte, b: byte, c: byte)
    requires a != b && a != OPEN && a != CLOSE && b != OPEN && b != CLOSE
    ensures Replace([OPEN, OPEN, a, CLOSE, CLOSE], Hole([b]), [c]) == [OPEN, OPEN, a, CLOSE, CLOSE]
  {
    var p := Hole([b]);
    var path := [OPEN, OPEN, a, CLOSE, CLOSE];
    assert p == [OPEN, b, CLOSE];
    assert path[..3][1] != p[1];
    assert path[1..] == Hole([a]) + [CLOSE];
    HoleMatches([a], [CLOSE], [b]);
    ReplaceHole([a], [CLOSE], [b], [c]);
    assert [CLOSE][1..] == [];
    assert Replace([CLOSE], p, [c]) == [CLOSE] + Replace([], p, [c]);
  }

  // ---- The structure of the path ----

  function Count(sep: byte, t: Text): nat {
    if t == [] then 0 else (if t[0] == sep then 1 else 0) + Count(sep, t[1..])
  }

  lemma {:induction false} CountConcat(sep: byte, a: Text, b: Text)
    ensures Count(sep, a + b) == Count(sep, a) + Count(sep, b)
  {
    if a == [] {
      assert a + b == b;
    } else {
      assert (a + b)[1..] == a[1..] + b;
      CountConcat(sep, a[1..], b);
    }
  }

  lemma {:induction false} CountNone(sep: byte, t: Text)
    requires Without(sep, t)
    ensures Count(sep, t) == 0
  {
    if t != [] { CountNone(sep, t[1..]); }
  }

  lemma FilledCount(sep: byte, p: Piece, pairs: seq<Pair>, n: nat)
    requires n <= |pairs| && !Plain(sep) && sep != OPEN && sep != CLOSE
    requires p.Slot? ==> Without(sep, p.name)
    ensures Count(sep, PieceText(Filled(p, pairs, n))) == Count(sep, PieceText(p))
  {
    if p.Slot? && Lookup(pairs, n, p.name).Some? {
      var v := Lookup(pairs, n, p.name).value;
      CountNone(sep, Hole(p.name));
      EncodedWithout(sep, v);
      CountNone(sep, PercentEncode(v));
    }
  }

  /** Arguments add no separator: a slash, question mark or any other reserved
      byte occurs in the filled path only where the template has it. */
  lemma {:induction false} SeparatorsComeFromTemplate(sep: byte, t: Template, pairs: seq<Pair>, n: nat)
    requires n <= |pairs| && !Plain(sep) && sep != OPEN && sep != CLOSE
    requires forall i :: 0 <= i < |t| && t[i].Slot? ==> Without(sep, t[i].name)
    ensures Count(sep, Render(Fill(t, pairs, n))) == Count(sep, Render(t))
    decreases |t|
  {
    if t != [] {
      SeparatorsComeFromTemplate(sep, t[1..], pairs, n);
      assert Fill(t, pairs, n)[1..] == Fill(t[1..], pairs, n);
      FilledCount(sep, t[0], pairs, n);
      CountConcat(sep, PieceText(t[0]), Render(t[1..]));
      CountConcat(sep, PieceText(Filled(t[0], pairs, n)), Render(Fill(t[1..], pairs, n)));
    }
  }

  // ---- The call ----

  /** UTF-8, and the JSON printer for arguments that are not strings. */
  datatype Env = Env(utf8: string -> Text, show: Json -> string)

  function NameOf(parameter: Json): string {
    OrEmpty(GetStr(parameter, "name"))
  }

  function Argument(env: Env, parameter: Json, args: Json): Option<Pair> {
    var value := Index(args, NameOf(parameter));
    if value.Null? then None
    else Some((env.utf8(NameOf(parameter)), env.utf8(if value.Str? then value.s else env.show(value))))
  }

  /** The pairs that the first `n` parameters put in one place. */
  function PairsIn(env: Env, parameters: seq<Json>, args: Json, place: string, n: nat): seq<Pair>
    requires n <= |parameters|
  {
    if n == 0 then []
    else
      PairsIn(env, parameters, args, place, n - 1)
      + if Argument(env, parameters[n - 1], args).Some? && GetStr(parameters[n - 1], "in") == Some(place)
        then [Argument(env, parameters[n - 1], args).value] else []
  }

  function ParametersOf(op: Json): seq<Json> {
    var listed := GetArr(op, "parameters");
    if listed.Some? then listed.value else []
  }

  function PathOf(env: Env, op: Json): Text {
    env.utf8(OrEmpty(GetStr(op, "path")))
  }

  function QueryText(pairs: seq<Pair>): Text {
    if pairs == [] then [] else [QUERY] + JoinWith(AMP, PairTexts(pairs))
  }

  function Url(env: Env, base: Text, op: Json, args: Json): Text {
    var ps := ParametersOf(op);
    var inPath := PairsIn(env, ps, args, "path", |ps|);
    var inQuery := PairsIn(env, ps, args, "query", |ps|);
    base + Sequential(PathOf(env, op), inPath, |inPath|) + QueryText(inQuery)
  }

  lemma SequentialSnoc(path: Text, pairs: seq<Pair>, p: Pair)
    ensures Sequential(path, pairs + [p], |pairs| + 1)
         == Replace(Sequential(path, pairs, |pairs|), Hole(p.0), PercentEncode(p.1))
  {
    SequentialLocal(path, pairs, pairs + [p], |pairs|);
  }

  lemma {:induction false} SequentialLocal(path: Text, a: seq<Pair>, b: seq<Pair>, n: nat)
    requires n <= |a| && n <= |b| && forall i :: 0 <= i < n ==> a[i] == b[i]
    ensures Sequential(path, a, n) == Sequential(path, b, n)
  {
    if n > 0 { SequentialLocal(path, a, b, n - 1); }
  }

  lemma PairsNext(env: Env, parameters: seq<Json>, args: Json, place: string, n: nat)
    requires n < |parameters|
    ensures PairsIn(env, parameters, args, place, n + 1) ==
      if Argument(env, parameters[n], args).Some? && GetStr(parameters[n], "in") == Some(place)
      then PairsIn(env, parameters, args, place, n) + [Argument(env, parameters[n], args).value]
      else PairsIn(env, parameters, args, place, n)
  {
  }

  lemma PairTextsSnoc(pairs: seq<Pair>, p: Pair)
    ensures PairTexts(pairs + [p]) == PairTexts(pairs) + [PairText(p)]
  {
  }

  method BuildUrl(env: Env, base: Text, op: Json, args: Json) returns (url: Text)
    ensures url == Url(env, base, op, args)
  {
    var parameters := ParametersOf(op);
    var path := PathOf(env, op);
    var query: seq<Text> := [];
    ghost var inPath: seq<Pair>, inQuery: seq<Pair> := [], [];
    for i := 0 to |parameters|
      invariant inPath == PairsIn(env, parameters, args, "path", i)
      invariant inQuery == PairsIn(env, parameters, args, "query", i)
      invariant path == Sequential(PathOf(env, op), inPath, |inPath|)
      invariant query == PairTexts(inQuery)
    {
      PairsNext(env, parameters, args, "path", i);
      PairsNext(env, parameters, args, "query", i);
      var argument := Argument(env, parameters[i], args);
      if argument.Some? {
        var place := GetStr(parameters[i], "in");
        if place == Some("path") {
          path := FillHole(PathOf(env, op), path, inPath, argument.value);
          inPath := inPath + [argument.value];
        } else if place == Some("query") {
          var text := EncodePair(argument.value);
          PairTextsSnoc(inQuery, argument.value);
          inQuery := inQuery + [argument.value];
          query := query + [text];
        }
      }
    }
    url := base + path;
    if query != [] {
      url := url + ([QUERY] + JoinWith(AMP, query));
    } else {
      assert url + [] == url;
    }
  }

  method FillHole(start: Text, path: Text, ghost done: seq<Pair>, p: Pair) returns (out: Text)
    requires path == Sequential(start, done, |done|)
    ensures out == Sequential(start, done + [p], |done + [p]|)
  {
    var text := PercentEncodeLoop(p.1);
    out := Replace(path, Hole(p.0), text);
    SequentialSnoc(start, done, p);
  }

  method EncodePair(p: Pair) returns (out: Text)
    ensures out == PairText(p)
  {
    var name := PercentEncodeLoop(p.0);
    var text := PercentEncodeLoop(p.1);
    out := name + [EQUALS] + text;
  }
}
