/** A printer and parser that satisfy `Variants.Faithful`, so that what is proved
    from it is proved of something. Its format is not serde_json's. */
module CursorWire {
  import opened Prelude
  import opened JsonValue
  import opened Variants

  /** A character as three bytes; an item is introduced by 1 and ended by 0. */
  function CharBytes(c: char): seq<byte> {
    [(c as int / 65536 % 256) as byte, (c as int / 256 % 256) as byte, (c as int % 256) as byte]
  }

  function Text(s: string): seq<byte> {
    if s == "" then [0] else [1] + CharBytes(s[0]) + Text(s[1..])
  }

  function Entry(k: string, v: string, rest: seq<byte>): seq<byte> {
    [1] + Text(k) + Text(v) + rest
  }

  ghost function Entries(m: map<string, string>): seq<byte>
    decreases |m|
  {
    if m == map[] then [0]
    else
      var k :| k in m;
      Entry(k, m[k], Entries(m - {k}))
  }

  function Head(variant: Option<string>): seq<byte> {
    if variant.None? then [0] else [1] + Text(variant.value)
  }

  ghost function Body(variant: Option<string>, cursors: map<string, string>): seq<byte> {
    Head(variant) + Entries(cursors)
  }

  lemma {:induction false} TextPrefix(s: string, a: seq<byte>, t: string, b: seq<byte>)
    requires Text(s) + a == Text(t) + b
    ensures s == t && a == b
    decreases |s|
  {
    var x, y := Text(s) + a, Text(t) + b;
    assert x[0] == y[0];
    if s == "" {
      assert x[1..] == a && y[1..] == b;
    } else {
      assert x[1] == y[1] && x[2] == y[2] && x[3] == y[3];
      SameChar(s[0], t[0]);
      assert x[4..] == Text(s[1..]) + a && y[4..] == Text(t[1..]) + b;
      TextPrefix(s[1..], a, t[1..], b);
      assert s == [s[0]] + s[1..] && t == [t[0]] + t[1..];
    }
  }

  lemma Digits(c: int)
    requires 0 <= c < 16777216
    ensures c == c / 65536 % 256 * 65536 + c / 256 % 256 * 256 + c % 256
  {
    assert c / 65536 % 256 == c / 65536;
    assert c / 256 == c / 65536 * 256 + c / 256 % 256;
  }

  lemma SameChar(c: char, d: char)
    requires CharBytes(c) == CharBytes(d)
    ensures c == d
  {
    assert CharBytes(c)[0] == CharBytes(d)[0] && CharBytes(c)[1] == CharBytes(d)[1] &&
      CharBytes(c)[2] == CharBytes(d)[2];
    Digits(c as int);
    Digits(d as int);
  }

  lemma AfterMark(t: seq<byte>, u: seq<byte>, r: seq<byte>, a: seq<byte>)
    ensures (([1] + t + u + r) + a)[1..] == t + (u + (r + a))
  {
  }

  lemma EntryPrefix(k: string, v: string, r: seq<byte>, l: string, w: string, r': seq<byte>, a: seq<byte>, b: seq<byte>)
    requires Entry(k, v, r) + a == Entry(l, w, r') + b
    ensures k == l && v == w && r + a == r' + b
  {
    AfterMark(Text(k), Text(v), r, a);
    AfterMark(Text(l), Text(w), r', b);
    TextPrefix(k, Text(v) + (r + a), l, Text(w) + (r' + b));
    TextPrefix(v, r + a, w, r' + b);
  }

  /** What `Entries` unfolds to, for the key it picked. */
  lemma EntriesPick(m: map<string, string>) returns (k: string)
    requires m != map[]
    ensures k in m && Entries(m) == Entry(k, m[k], Entries(m - {k})) && m == (m - {k})[k := m[k]]
  {
    k :| k in m && Entries(m) == Entry(k, m[k], Entries(m - {k}));
  }

  lemma FirstByte(m: map<string, string>, a: seq<byte>)
    ensures Entries(m) + a != [] && (Entries(m) + a)[0] == (if m == map[] then 0 else 1)
    ensures m == map[] ==> (Entries(m) + a)[1..] == a
  {
    if m != map[] { var k := EntriesPick(m); }
  }

  lemma {:induction false} EntriesPrefix(m: map<string, string>, a: seq<byte>, n: map<string, string>, b: seq<byte>)
    requires Entries(m) + a == Entries(n) + b
    ensures m == n && a == b
    decreases |m|
  {
    FirstByte(m, a);
    FirstByte(n, b);
    if m != map[] {
      var k := EntriesPick(m);
      var l := EntriesPick(n);
      EntryPrefix(k, m[k], Entries(m - {k}), l, n[l], Entries(n - {l}), a, b);
      EntriesPrefix(m - {k}, a, n - {l}, b);
    }
  }

  lemma HeadPrefix(v: Option<string>, a: seq<byte>, u: Option<string>, b: seq<byte>)
    requires Head(v) + a == Head(u) + b
    ensures v == u && a == b
  {
    HeadStart(v, a);
    HeadStart(u, b);
    if v.Some? { TextPrefix(v.value, a, u.value, b); }
  }

  lemma HeadStart(v: Option<string>, a: seq<byte>)
    ensures (Head(v) + a)[0] == (if v.None? then 0 else 1)
    ensures (Head(v) + a)[1..] == if v.None? then a else Text(v.value) + a
  {
    if v.Some? {
      AfterMark(Text(v.value), [], [], a);
      var t := Text(v.value);
      assert [1] + t + [] + [] == [1] + t && t + ([] + ([] + a)) == t + a;
    }
  }

  lemma BodyInjective(v: Option<string>, m: map<string, string>, u: Option<string>, n: map<string, string>)
    requires Body(v, m) == Body(u, n)
    ensures v == u && m == n
  {
    HeadPrefix(v, Entries(m), u, Entries(n));
    EntriesPrefix(m, [], n, []);
  }

  ghost function Print(j: Json): seq<byte> {
    match ReadBody(j)
    case None => []
    case Some((variant, cursors)) => Body(variant, cursors)
  }

  ghost predicate Prints(variant: Option<string>, cursors: map<string, string>, bytes: seq<byte>) {
    Body(variant, cursors) == bytes
  }

  ghost function Parse(bytes: seq<byte>): Option<Json> {
    if exists variant, cursors :: Prints(variant, cursors, bytes) then
      var variant, cursors :| Prints(variant, cursors, bytes);
      Some(CursorBody(variant, cursors))
    else None
  }

  lemma ReadsBody(variant: Option<string>, cursors: map<string, string>)
    ensures ReadBody(CursorBody(variant, cursors)) == Some((variant, cursors))
  {
    var fields := CursorBody(variant, cursors).fields["c"].fields;
    assert (map k | k in fields && fields[k].Str? :: fields[k].s) == cursors;
  }

  /** A faithful printer and parser exist. */
  lemma FaithfulIsMet() returns (w: Wire)
    ensures Faithful(w)
  {
    w := Wire(j => Print(j), bytes => Parse(bytes));
    forall variant, cursors
      ensures w.decode(w.encode(CursorBody(variant, cursors))) == Some(CursorBody(variant, cursors))
    {
      ReadsBody(variant, cursors);
      var bytes := Body(variant, cursors);
      assert Prints(variant, cursors, bytes);
      var u, n :| Prints(u, n, bytes) && Parse(bytes) == Some(CursorBody(u, n));
      BodyInjective(variant, cursors, u, n);
    }
  }
}
