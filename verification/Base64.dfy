/** Base64 with both alphabets (RFC 4648, sections 4 and 5): encoding with and
    without padding, and the one lenient decoder that reads either. */
module Base64 {
  import opened Prelude
  import Bits

  const UPPER := "ABCDEFGHIJKLMNOPQRSTUVWXYZ"
  const LOWER := "abcdefghijklmnopqrstuvwxyz"
  const DIGITS := "0123456789"
  const STANDARD := UPPER + LOWER + DIGITS + "+/"
  const URL := UPPER + LOWER + DIGITS + "-_"

  type Sextets = seq<nat>

  function Sextet(c: char): (v: Option<nat>)
    ensures v.Some? ==> v.value < 64
  {
    if 'A' <= c <= 'Z' then Some((c - 'A') as nat)
    else if 'a' <= c <= 'z' then Some((c - 'a') as nat + 26)
    else if '0' <= c <= '9' then Some((c - '0') as nat + 52)
    else if c == '+' || c == '-' then Some(62)
    else if c == '/' || c == '_' then Some(63)
    else None
  }

  /** The symbol for each sextet, and the decoder reads it back. */
  ghost predicate Alphabet(a: string) {
    |a| == 64 && forall k :: 0 <= k < 64 ==> a[k] != '=' && Sextet(a[k]) == Some(k)
  }

  lemma UpperAt(k: nat)
    requires k < 26
    ensures UPPER[k] as int == 65 + k
  {
  }

  lemma LowerAt(k: nat)
    requires k < 26
    ensures LOWER[k] as int == 97 + k
  {
  }

  lemma DigitAt(k: nat)
    requires k < 10
    ensures DIGITS[k] as int == 48 + k
  {
  }

  lemma SymbolAt(last: string, k: nat)
    requires |last| == 2 && k < 64
    ensures var a := UPPER + LOWER + DIGITS + last;
      && |a| == 64
      && (k < 62 ==> a[k] as int == if k < 26 then 65 + k else if k < 52 then 71 + k else k - 4)
      && (k >= 62 ==> a[k] == last[k - 62])
  {
    if k < 26 {
      UpperAt(k);
    } else if k < 52 {
      LowerAt(k - 26);
    } else if k < 62 {
      DigitAt(k - 52);
    }
  }

  lemma BothAreAlphabets()
    ensures Alphabet(STANDARD) && Alphabet(URL)
  {
    forall k | 0 <= k < 64
      ensures STANDARD[k] != '=' && Sextet(STANDARD[k]) == Some(k)
      ensures URL[k] != '=' && Sextet(URL[k]) == Some(k)
    {
      SymbolAt("+/", k);
      SymbolAt("-_", k);
    }
  }

  // ---- Words ----

  function At(chunk: seq<byte>, i: nat): nat {
    if i < |chunk| then chunk[i] as nat else 0
  }

  function Word(chunk: seq<byte>): nat {
    At(chunk, 0) * 65536 + At(chunk, 1) * 256 + At(chunk, 2)
  }

  function Four(n: nat): (q: Sextets)
    ensures |q| == 4 && Small(q)
  {
    [n / 262144 % 64, n / 4096 % 64, n / 64 % 64, n % 64]
  }

  predicate Small(cs: Sextets) {
    forall i :: 0 <= i < |cs| ==> cs[i] < 64
  }

  function Byte0(c0: nat, c1: nat): byte { ((c0 * 4 + c1 / 16) % 256) as byte }
  function Byte1(c1: nat, c2: nat): byte { ((c1 * 16 + c2 / 4) % 256) as byte }
  function Byte2(c2: nat, c3: nat): byte { ((c2 * 64 + c3) % 256) as byte }

  // ---- Regrouping ----

  /** `xs` in chunks of `n`, the last one perhaps shorter, each mapped by `f`. */
  function Regroup<A, B>(f: seq<A> -> seq<B>, n: nat, xs: seq<A>): seq<B>
    requires n > 0
    decreases |xs|
  {
    if xs == [] then []
    else
      var k := if |xs| < n then |xs| else n;
      f(xs[..k]) + Regroup(f, n, xs[k..])
  }

  lemma RegroupAt<A, B>(f: seq<A> -> seq<B>, n: nat, xs: seq<A>, i: nat, k: nat)
    requires n > 0 && i < |xs| && k == if |xs| - i < n then |xs| - i else n
    ensures Regroup(f, n, xs[i..]) == f(xs[i..i + k]) + Regroup(f, n, xs[i + k..])
  {
    assert xs[i..][..k] == xs[i..i + k] && xs[i..][k..] == xs[i + k..];
  }

  lemma RegroupStep<A, B>(f: seq<A> -> seq<B>, n: nat, xs: seq<A>, i: nat, k: nat, out: seq<B>)
    requires n > 0 && i < |xs| && k == if |xs| - i < n then |xs| - i else n
    ensures (out + f(xs[i..i + k])) + Regroup(f, n, xs[i + k..]) == out + Regroup(f, n, xs[i..])
  {
    RegroupAt(f, n, xs, i, k);
    AppendAppend(out, f(xs[i..i + k]), Regroup(f, n, xs[i + k..]));
  }

  lemma RegroupWhole<A, B>(f: seq<A> -> seq<B>, n: nat, c: seq<A>, xs: seq<A>)
    requires |c| == n > 0 || (0 < |c| < n && xs == [])
    ensures Regroup(f, n, c + xs) == f(c) + Regroup(f, n, xs)
  {
    assert (c + xs)[..|c|] == c && (c + xs)[|c|..] == xs;
  }

  // A proof about `Regroup(f, ...)` that has no use for what `f` does takes any
  // function that agrees with it.
  ghost predicate SameAt<A(!new), B>(f: A -> B, g: A -> B, x: A) {
    f(x) == g(x)
  }

  ghost predicate Same<A(!new), B>(f: A -> B, g: A -> B) {
    forall x {:trigger SameAt(f, g, x)} :: SameAt(f, g, x)
  }

  /** `g` turns what `f` makes of a chunk back into it: a full chunk of `n` makes
      a full one of `m`, and a short one a short one. */
  ghost predicate TurnsBack<A, B>(f: seq<A> -> seq<B>, n: nat, g: seq<B> -> seq<A>, m: nat, c: seq<A>) {
    && g(f(c)) == c
    && 0 < |f(c)| <= m
    && (|c| == n <==> |f(c)| == m)
  }

  /** The chunks `Regroup` hands to `f`. */
  ghost predicate EachChunk<A(!new)>(n: nat, xs: seq<A>, p: seq<A> -> bool)
    requires n > 0
    decreases |xs|
  {
    xs != [] ==>
      var k := if |xs| < n then |xs| else n;
      p(xs[..k]) && EachChunk(n, xs[k..], p)
  }

  lemma {:induction false} RegroupBack<A(!new), B>(f: seq<A> -> seq<B>, n: nat, g: seq<B> -> seq<A>, m: nat, xs: seq<A>)
    requires n > 0 && m > 0
    requires EachChunk(n, xs, (c: seq<A>) => TurnsBack(f, n, g, m, c))
    ensures Regroup(g, m, Regroup(f, n, xs)) == xs
    decreases |xs|
  {
    if xs != [] {
      var k := if |xs| < n then |xs| else n;
      RegroupBack(f, n, g, m, xs[k..]);
      RegroupWhole(g, m, f(xs[..k]), Regroup(f, n, xs[k..]));
      assert xs == xs[..k] + xs[k..];
    }
  }

  // ---- Encoding ----

  /** The symbols for a word's sextets when `len` bytes fill the word. */
  function Symbolic(a: string, q: Sextets, len: nat, pad: bool): string
    requires |a| == 64 && |q| == 4 && Small(q)
  {
    [a[q[0]], a[q[1]]]
    + (if len > 1 then [a[q[2]]] else if pad then "=" else "")
    + (if len > 2 then [a[q[3]]] else if pad then "=" else "")
  }

  function Chunk(a: string, pad: bool, chunk: seq<byte>): string
    requires |a| == 64
  {
    Symbolic(a, Four(Word(chunk)), |chunk|, pad)
  }

  function Chunker(a: string, pad: bool): seq<byte> -> string
    requires |a| == 64
  {
    (chunk: seq<byte>) => Chunk(a, pad, chunk)
  }

  function EncodeWith(a: string, data: seq<byte>, pad: bool): string
    requires |a| == 64
  {
    Regroup(Chunker(a, pad), 3, data)
  }

  function Encode(data: seq<byte>): string {
    EncodeWith(STANDARD, data, true)
  }

  function EncodeUrlNoPad(data: seq<byte>): string {
    EncodeWith(URL, data, false)
  }

  method PushWord(a: string, n: nat, len: nat, pad: bool, before: string) returns (out: string)
    requires |a| == 64
    ensures out == before + Symbolic(a, Four(n), len, pad)
  {
    var symbols := [a[n / 262144 % 64]];
    symbols := symbols + [a[n / 4096 % 64]];
    if len > 1 {
      symbols := symbols + [a[n / 64 % 64]];
    } else if pad {
      symbols := symbols + "=";
    }
    if len > 2 {
      symbols := symbols + [a[n % 64]];
    } else if pad {
      symbols := symbols + "=";
    }
    assert symbols == Symbolic(a, Four(n), len, pad);
    out := before + symbols;
  }

  /** `b0 << 16 | b1 << 8 | b2`. */
  method PackWord(b0: nat, b1: nat, b2: nat) returns (n: nat)
    requires b0 < 256 && b1 < 256 && b2 < 256
    ensures n == b0 * 65536 + b1 * 256 + b2
  {
    Bits.Powers();
    Bits.OrAdds(b0, b1 * 256, 16);
    Bits.OrAdds(b0 * 256 + b1, b2, 8);
    n := Bits.Or(Bits.Or(b0 * 65536, b1 * 256), b2);
  }

  method PushChunk(a: string, chunk: seq<byte>, pad: bool, before: string, ghost f: seq<byte> -> string)
    returns (out: string)
    requires |a| == 64 && Same(f, Chunker(a, pad))
    ensures out == before + f(chunk)
  {
    var n := PackWord(At(chunk, 0), At(chunk, 1), At(chunk, 2));
    assert n == Word(chunk);
    out := PushWord(a, n, |chunk|, pad, before);
    assert SameAt(f, Chunker(a, pad), chunk);
  }

  method EncodeChunks(a: string, data: seq<byte>, pad: bool, ghost f: seq<byte> -> string) returns (out: string)
    requires |a| == 64 && Same(f, Chunker(a, pad))
    ensures out == Regroup(f, 3, data)
  {
    out := "";
    var i := 0;
    assert data[0..] == data;
    while i < |data|
      invariant 0 <= i <= |data|
      invariant out + Regroup(f, 3, data[i..]) == Regroup(f, 3, data)
    {
      var k := if |data| - i < 3 then |data| - i else 3;
      RegroupStep(f, 3, data, i, k, out);
      out := PushChunk(a, data[i..i + k], pad, out, f);
      i := i + k;
    }
  }

  method EncodeLoop(a: string, data: seq<byte>, pad: bool) returns (out: string)
    requires |a| == 64
    ensures out == EncodeWith(a, data, pad)
  {
    out := EncodeChunks(a, data, pad, Chunker(a, pad));
  }

  // ---- Decoding ----

  /** The values of the symbols other than `=`, if each is in an alphabet. */
  function Symbols(text: string): (r: Option<Sextets>)
    ensures r.Some? ==> Small(r.value)
  {
    if text == "" then Some([])
    else if text[0] == '=' then Symbols(text[1..])
    else
      match (Sextet(text[0]), Symbols(text[1..]))
      case (Some(v), Some(rest)) => Some([v] + rest)
      case _ => None
  }

  /** Four sextets make three bytes; a final two or three make one or two. */
  function Join(c: Sextets): (bytes: seq<byte>)
    ensures |bytes| == if 2 <= |c| <= 4 then |c| - 1 else 0
  {
    if |c| == 2 then [Byte0(c[0], c[1])]
    else if |c| == 3 then [Byte0(c[0], c[1]), Byte1(c[1], c[2])]
    else if |c| == 4 then [Byte0(c[0], c[1]), Byte1(c[1], c[2]), Byte2(c[2], c[3])]
    else []
  }

  /** A lone sextet over cannot end a text. */
  function GroupBy(join: Sextets -> seq<byte>, cs: Sextets): Option<seq<byte>> {
    if |cs| % 4 == 1 then None else Some(Regroup(join, 4, cs))
  }

  function Decode(text: string): Option<seq<byte>> {
    match Symbols(text)
    case None => None
    case Some(cs) => GroupBy(Join, cs)
  }

  /** The decoder part way: `out` is made, `chunk` is held, `left` is to come. */
  function Proceed(join: Sextets -> seq<byte>, out: seq<byte>, chunk: Sextets, left: Sextets): Option<seq<byte>> {
    match GroupBy(join, chunk + left)
    case None => None
    case Some(bytes) => Some(out + bytes)
  }

  function Resume(join: Sextets -> seq<byte>, out: seq<byte>, chunk: Sextets, text: string): Option<seq<byte>> {
    match Symbols(text)
    case None => None
    case Some(left) => Proceed(join, out, chunk, left)
  }

  lemma ResumeSymbol(join: Sextets -> seq<byte>, out: seq<byte>, chunk: Sextets, text: string)
    requires text != "" && text[0] != '='
    ensures Resume(join, out, chunk, text) ==
      match Sextet(text[0])
      case None => None
      case Some(v) => Resume(join, out, chunk + [v], text[1..])
  {
    var v, cs := Sextet(text[0]), Symbols(text[1..]);
    if v.Some? && cs.Some? {
      assert chunk + ([v.value] + cs.value) == (chunk + [v.value]) + cs.value;
    }
  }

  lemma ProceedFull(join: Sextets -> seq<byte>, out: seq<byte>, c: Sextets, left: Sextets)
    requires |c| == 4
    ensures Proceed(join, out, c, left) == Proceed(join, out + join(c), [], left)
  {
    assert [] + left == left;
    assert |c + left| % 4 == |left| % 4;
    RegroupWhole(join, 4, c, left);
    AppendAppend(out, join(c), Regroup(join, 4, left));
  }

  lemma ResumeFull(join: Sextets -> seq<byte>, out: seq<byte>, c: Sextets, text: string)
    requires |c| == 4
    ensures Resume(join, out, c, text) == Resume(join, out + join(c), [], text)
  {
    if Symbols(text).Some? {
      ProceedFull(join, out, c, Symbols(text).value);
    }
  }

  lemma ResumeEnd(join: Sextets -> seq<byte>, out: seq<byte>, chunk: Sextets)
    requires |chunk| < 4
    ensures Resume(join, out, chunk, "") ==
      if |chunk| == 1 then None else if chunk == [] then Some(out) else Some(out + join(chunk))
  {
    assert chunk + [] == chunk && out + [] == out;
    if chunk != [] {
      RegroupWhole(join, 4, chunk, []);
      assert join(chunk) + [] == join(chunk);
    }
  }

  lemma ResumeStart(join: Sextets -> seq<byte>, text: string)
    ensures Resume(join, [], [], text) == if Symbols(text).Some? then GroupBy(join, Symbols(text).value) else None
  {
    if Symbols(text).Some? {
      assert [] + Symbols(text).value == Symbols(text).value;
      assert [] + Regroup(join, 4, Symbols(text).value) == Regroup(join, 4, Symbols(text).value);
    }
  }

  /** `(c0 << 2 | c1 >> 4) as u8`, and likewise for the other two bytes. */
  method FirstByte(c0: nat, c1: nat) returns (b: byte)
    requires c1 < 64
    ensures b == Byte0(c0, c1)
  {
    Bits.Powers();
    Bits.OrAdds(c0, c1 / 16, 2);
    b := (Bits.Or(c0 * 4, c1 / 16) % 256) as byte;
  }

  method SecondByte(c1: nat, c2: nat) returns (b: byte)
    requires c2 < 64
    ensures b == Byte1(c1, c2)
  {
    Bits.Powers();
    Bits.OrAdds(c1, c2 / 4, 4);
    b := (Bits.Or(c1 * 16, c2 / 4) % 256) as byte;
  }

  method ThirdByte(c2: nat, c3: nat) returns (b: byte)
    requires c3 < 64
    ensures b == Byte2(c2, c3)
  {
    Bits.Powers();
    Bits.OrAdds(c2, c3, 6);
    b := (Bits.Or(c2 * 64, c3) % 256) as byte;
  }

  method PushBytes(chunk: Sextets, before: seq<byte>, ghost join: Sextets -> seq<byte>) returns (out: seq<byte>)
    requires Same(join, Join) && 2 <= |chunk| <= 4 && Small(chunk)
    ensures out == before + join(chunk)
  {
    var b := FirstByte(chunk[0], chunk[1]);
    var bytes := [b];
    if |chunk| > 2 {
      b := SecondByte(chunk[1], chunk[2]);
      bytes := bytes + [b];
    }
    if |chunk| > 3 {
      b := ThirdByte(chunk[2], chunk[3]);
      bytes := bytes + [b];
    }
    assert SameAt(join, Join, chunk);
    out := before + bytes;
  }

  method DecodeChunks(text: string, ghost join: Sextets -> seq<byte>) returns (r: Option<seq<byte>>)
    requires Same(join, Join)
    ensures r == Resume(join, [], [], text)
  {
    var chunk: Sextets := [];
    var out: seq<byte> := [];
    var i := 0;
    assert text[0..] == text;
    while i < |text|
      invariant 0 <= i <= |text| && |chunk| < 4 && Small(chunk)
      invariant Resume(join, out, chunk, text[i..]) == Resume(join, [], [], text)
    {
      var c := text[i];
      ghost var left := text[i..];
      assert left[1..] == text[i + 1..];
      i := i + 1;
      if c != '=' {
        ResumeSymbol(join, out, chunk, left);
        var v := Sextet(c);
        if v == None { return None; }
        chunk := chunk + [v.value];
        if |chunk| == 4 {
          ResumeFull(join, out, chunk, text[i..]);
          out := PushBytes(chunk, out, join);
          chunk := [];
        }
      }
    }
    assert text[|text|..] == "";
    ResumeEnd(join, out, chunk);
    if |chunk| == 1 { return None; }
    if chunk != [] {
      out := PushBytes(chunk, out, join);
    }
    return Some(out);
  }

  method DecodeLoop(text: string) returns (r: Option<seq<byte>>)
    ensures r == Decode(text)
  {
    r := DecodeChunks(text, Join);
    ResumeStart(Join, text);
  }

  // ---- The decoder undoes the encoder ----

  /** The sextets that carry a chunk's bits. */
  function Cut(chunk: seq<byte>): Sextets {
    if |chunk| < 3 then Four(Word(chunk))[..|chunk| + 1] else Four(Word(chunk))
  }

  lemma SameDivision(k: int, m: int, q: int, r: int, n: nat)
    requires k * n + m == q * n + r && 0 <= m < n && 0 <= r < n
    ensures k == q && m == r
  {
    assert (q - k) * n == m - r && (k - q) * n == r - m;
    if k < q { AtLeast(q - k, n); } else if q < k { AtLeast(k - q, n); }
  }

  lemma AtLeast(k: int, d: nat)
    requires k >= 1
    ensures k * d >= d
  {
    assert (k - 1) * d >= 0;
    assert k * d == (k - 1) * d + d;
  }

  lemma Quotient(q: nat, d: nat, r: nat)
    requires r < d
    ensures (q * d + r) / d == q && (q * d + r) % d == r
  {
    var x := q * d + r;
    assert x / d * d + x % d == x;
    SameDivision(x / d, x % d, q, r, d);
  }

  lemma WordSextet0(b0: nat, b1: nat, b2: nat)
    requires b0 < 256 && b1 < 256 && b2 < 256
    ensures (b0 * 65536 + b1 * 256 + b2) / 262144 == b0 / 4
  {
    Quotient(b0 / 4, 262144, b0 % 4 * 65536 + b1 * 256 + b2);
  }

  lemma WordSextet1(b0: nat, b1: nat, b2: nat)
    requires b0 < 256 && b1 < 256 && b2 < 256
    ensures (b0 * 65536 + b1 * 256 + b2) / 4096 == b0 * 16 + b1 / 16
  {
    Quotient(b0 * 16 + b1 / 16, 4096, b1 % 16 * 256 + b2);
  }

  lemma WordSextet2(b0: nat, b1: nat, b2: nat)
    requires b0 < 256 && b1 < 256 && b2 < 256
    ensures (b0 * 65536 + b1 * 256 + b2) / 64 == b0 * 1024 + b1 * 4 + b2 / 64
  {
    Quotient(b0 * 1024 + b1 * 4 + b2 / 64, 64, b2 % 64);
  }

  lemma WordSextet3(b0: nat, b1: nat, b2: nat)
    requires b0 < 256 && b1 < 256 && b2 < 256
    ensures (b0 * 65536 + b1 * 256 + b2) % 64 == b2 % 64
  {
    Quotient(b0 * 1024 + b1 * 4 + b2 / 64, 64, b2 % 64);
  }

  /** A field of `w` low bits above a field of `v` values keeps only those bits. */
  lemma LowField(b: nat, w: nat, v: nat, y: nat)
    requires w > 0 && y < v
    ensures (b * v + y) % (w * v) == b % w * v + y
  {
    FieldFits(b % w, w, v, y);
    FieldSum(b / w, b % w, w, v, y);
    assert b == b / w * w + b % w;
    Quotient(b / w, w * v, b % w * v + y);
  }

  lemma FieldFits(x: nat, w: nat, v: nat, y: nat)
    requires x < w && y < v
    ensures x * v + y < w * v
  {
    AtLeast(w - x, v);
    assert (w - x) * v == w * v - x * v;
  }

  lemma FieldSum(q: nat, x: nat, w: nat, v: nat, y: nat)
    ensures (q * w + x) * v + y == q * (w * v) + (x * v + y)
  {
  }

  lemma Sextet0(b0: nat, b1: nat, b2: nat)
    requires b0 < 256 && b1 < 256 && b2 < 256
    ensures (b0 * 65536 + b1 * 256 + b2) / 262144 % 64 == b0 / 4
  {
    WordSextet0(b0, b1, b2);
  }

  lemma Sextet1(b0: nat, b1: nat, b2: nat)
    requires b0 < 256 && b1 < 256 && b2 < 256
    ensures (b0 * 65536 + b1 * 256 + b2) / 4096 % 64 == b0 % 4 * 16 + b1 / 16
  {
    WordSextet1(b0, b1, b2);
    LowField(b0, 4, 16, b1 / 16);
  }

  lemma Sextet2(b0: nat, b1: nat, b2: nat)
    requires b0 < 256 && b1 < 256 && b2 < 256
    ensures (b0 * 65536 + b1 * 256 + b2) / 64 % 64 == b1 % 16 * 4 + b2 / 64
  {
    WordSextet2(b0, b1, b2);
    LowField(b0 * 256 + b1, 16, 4, b2 / 64);
    Quotient(b0 * 16 + b1 / 16, 16, b1 % 16);
  }

  lemma FourIs(b0: nat, b1: nat, b2: nat)
    requires b0 < 256 && b1 < 256 && b2 < 256
    ensures Four(b0 * 65536 + b1 * 256 + b2)
         == [b0 / 4, b0 % 4 * 16 + b1 / 16, b1 % 16 * 4 + b2 / 64, b2 % 64]
  {
    Sextet0(b0, b1, b2);
    Sextet1(b0, b1, b2);
    Sextet2(b0, b1, b2);
    WordSextet3(b0, b1, b2);
  }

  lemma Byte0Is(c0: nat, c1: nat)
    requires c0 < 64 && c1 < 64
    ensures Byte0(c0, c1) as nat == c0 * 4 + c1 / 16
  {
  }

  lemma Byte1Is(c1: nat, c2: nat)
    requires c1 < 64 && c2 < 64
    ensures Byte1(c1, c2) as nat == c1 % 16 * 16 + c2 / 4
  {
    LowField(c1, 16, 16, c2 / 4);
  }

  lemma Byte2Is(c2: nat, c3: nat)
    requires c2 < 64 && c3 < 64
    ensures Byte2(c2, c3) as nat == c2 % 4 * 64 + c3
  {
    LowField(c2, 4, 64, c3);
  }

  lemma Byte0Back(b0: nat, b1: nat)
    requires b0 < 256 && b1 < 256
    ensures Byte0(b0 / 4, b0 % 4 * 16 + b1 / 16) as nat == b0
  {
    Byte0Is(b0 / 4, b0 % 4 * 16 + b1 / 16);
    Quotient(b0 % 4, 16, b1 / 16);
  }

  lemma Byte1Back(b0: nat, b1: nat, b2: nat)
    requires b0 < 256 && b1 < 256 && b2 < 256
    ensures Byte1(b0 % 4 * 16 + b1 / 16, b1 % 16 * 4 + b2 / 64) as nat == b1
  {
    Byte1Is(b0 % 4 * 16 + b1 / 16, b1 % 16 * 4 + b2 / 64);
    Quotient(b0 % 4, 16, b1 / 16);
    Quotient(b1 % 16, 4, b2 / 64);
  }

  lemma Byte2Back(b1: nat, b2: nat)
    requires b1 < 256 && b2 < 256
    ensures Byte2(b1 % 16 * 4 + b2 / 64, b2 % 64) as nat == b2
  {
    Byte2Is(b1 % 16 * 4 + b2 / 64, b2 % 64);
    Quotient(b1 % 16, 4, b2 / 64);
  }

  lemma CutIs(chunk: seq<byte>)
    requires 1 <= |chunk| <= 3
    ensures var (b0, b1, b2) := (At(chunk, 0), At(chunk, 1), At(chunk, 2));
      Cut(chunk) == [b0 / 4, b0 % 4 * 16 + b1 / 16, b1 % 16 * 4 + b2 / 64, b2 % 64][..|chunk| + 1]
  {
    FourIs(At(chunk, 0), At(chunk, 1), At(chunk, 2));
  }

  lemma JoinUndoesCut(chunk: seq<byte>)
    requires 1 <= |chunk| <= 3
    ensures |Cut(chunk)| == |chunk| + 1 && Join(Cut(chunk)) == chunk
  {
    var b0, b1, b2 := At(chunk, 0), At(chunk, 1), At(chunk, 2);
    CutIs(chunk);
    Byte0Back(b0, b1);
    if |chunk| > 1 { Byte1Back(b0, b1, b2); }
    if |chunk| > 2 { Byte2Back(b1, b2); }
  }

  lemma JoinTurnsBack(cut: seq<byte> -> Sextets, join: Sextets -> seq<byte>, chunk: seq<byte>)
    requires Same(cut, Cut) && Same(join, Join) && 1 <= |chunk| <= 3
    ensures TurnsBack(cut, 3, join, 4, chunk)
  {
    assert SameAt(cut, Cut, chunk) && SameAt(join, Join, cut(chunk));
    JoinUndoesCut(chunk);
  }

  lemma {:induction false} EachChunkHolds<A(!new)>(n: nat, xs: seq<A>, p: seq<A> -> bool)
    requires n > 0
    requires forall c: seq<A> {:trigger p(c)} :: 1 <= |c| <= n ==> p(c)
    ensures EachChunk(n, xs, p)
    decreases |xs|
  {
    if xs != [] {
      EachChunkHolds(n, xs[if |xs| < n then |xs| else n..], p);
    }
  }

  lemma JoinUndoesCutAll(cut: seq<byte> -> Sextets, join: Sextets -> seq<byte>, data: seq<byte>)
    requires Same(cut, Cut) && Same(join, Join)
    ensures Regroup(join, 4, Regroup(cut, 3, data)) == data
  {
    var p := (c: seq<byte>) => TurnsBack(cut, 3, join, 4, c);
    forall c: seq<byte> | 1 <= |c| <= 3 ensures p(c) {
      JoinTurnsBack(cut, join, c);
    }
    EachChunkHolds(3, data, p);
    RegroupBack(cut, 3, join, 4, data);
  }

  function Both(a: Option<Sextets>, b: Option<Sextets>): Option<Sextets> {
    if a.Some? && b.Some? then Some(a.value + b.value) else None
  }

  lemma BothAssoc(a: Option<Sextets>, b: Option<Sextets>, c: Option<Sextets>)
    ensures Both(Both(a, b), c) == Both(a, Both(b, c))
  {
    if a.Some? && b.Some? && c.Some? { AppendAppend(a.value, b.value, c.value); }
  }

  lemma SymbolsCons(c: char, t: string)
    ensures Symbols([c] + t) == Both(Symbols([c]), Symbols(t))
  {
    assert ([c] + t)[1..] == t;
    SymbolsOfOne([c]);
    if Symbols(t).Some? { assert [] + Symbols(t).value == Symbols(t).value; }
  }

  lemma {:induction false} SymbolsConcat(s: string, t: string)
    ensures Symbols(s + t) == Both(Symbols(s), Symbols(t))
  {
    if s == "" {
      assert s + t == t;
      if Symbols(t).Some? { assert [] + Symbols(t).value == Symbols(t).value; }
    } else {
      var c, rest := s[0], s[1..];
      assert s == [c] + rest && s + t == [c] + (rest + t);
      SymbolsConcat(rest, t);
      SymbolsCons(c, rest);
      SymbolsCons(c, rest + t);
      BothAssoc(Symbols([c]), Symbols(rest), Symbols(t));
    }
  }

  lemma SymbolsOfOne(s: string)
    requires |s| == 1
    ensures Symbols(s) == if s[0] == '=' then Some([])
      else if Sextet(s[0]).Some? then Some([Sextet(s[0]).value]) else None
  {
    assert s[1..] == "";
    assert forall v: nat :: [v] + [] == [v];
  }

  lemma SymbolsPush(a: string, text: string, v: nat)
    requires Alphabet(a) && v < 64 && Symbols(text).Some?
    ensures Symbols(text + [a[v]]) == Some(Symbols(text).value + [v])
  {
    SymbolsConcat(text, [a[v]]);
    SymbolsOfOne([a[v]]);
  }

  lemma SymbolsPad(text: string)
    requires Symbols(text).Some?
    ensures Symbols(text + "=") == Symbols(text)
  {
    SymbolsConcat(text, "=");
    SymbolsOfOne("=");
    assert Symbols(text).value + [] == Symbols(text).value;
  }

  lemma SymbolsOfSymbolic(a: string, q: Sextets, len: nat, pad: bool)
    requires Alphabet(a) && |q| == 4 && Small(q) && 1 <= len <= 3
    ensures Symbols(Symbolic(a, q, len, pad)) == Some(q[..len + 1])
  {
    var s0 := [a[q[0]]];
    SymbolsOfOne(s0);
    SymbolsPush(a, s0, q[1]);
    var s1 := s0 + [a[q[1]]];
    assert s1 == [a[q[0]], a[q[1]]];
    assert [q[0]] + [q[1]] == q[..2];
    var s2 := s1 + if len > 1 then [a[q[2]]] else if pad then "=" else "";
    if len > 1 { SymbolsPush(a, s1, q[2]); } else if pad { SymbolsPad(s1); } else { assert s2 == s1; }
    assert q[..2] + [q[2]] == q[..3];
    var s3 := s2 + if len > 2 then [a[q[3]]] else if pad then "=" else "";
    if len > 2 { SymbolsPush(a, s2, q[3]); } else if pad { SymbolsPad(s2); } else { assert s3 == s2; }
    assert q[..3] + [q[3]] == q[..4];
  }

  ghost predicate ReadsAs(f: seq<byte> -> string, g: seq<byte> -> Sextets, c: seq<byte>) {
    1 <= |c| <= 3 ==> Symbols(f(c)) == Some(g(c))
  }

  lemma {:induction false} SymbolsOfRegroup(f: seq<byte> -> string, g: seq<byte> -> Sextets, data: seq<byte>)
    requires forall c {:trigger ReadsAs(f, g, c)} :: ReadsAs(f, g, c)
    ensures Symbols(Regroup(f, 3, data)) == Some(Regroup(g, 3, data))
    decreases |data|
  {
    if data != [] {
      var k := if |data| < 3 then |data| else 3;
      assert ReadsAs(f, g, data[..k]);
      SymbolsOfRegroup(f, g, data[k..]);
      SymbolsConcat(f(data[..k]), Regroup(f, 3, data[k..]));
    }
  }

  lemma SymbolsOfChunk(a: string, pad: bool, f: seq<byte> -> string, g: seq<byte> -> Sextets, c: seq<byte>)
    requires Alphabet(a) && Same(f, Chunker(a, pad)) && Same(g, Cut)
    ensures ReadsAs(f, g, c)
  {
    if 1 <= |c| <= 3 {
      assert SameAt(f, Chunker(a, pad), c) && SameAt(g, Cut, c);
      SymbolsOfSymbolic(a, Four(Word(c)), |c|, pad);
      assert Four(Word(c))[..4] == Four(Word(c));
    }
  }

  lemma SymbolsOfEncoded(a: string, pad: bool, f: seq<byte> -> string, g: seq<byte> -> Sextets, data: seq<byte>)
    requires Alphabet(a) && Same(f, Chunker(a, pad)) && Same(g, Cut)
    ensures Symbols(Regroup(f, 3, data)) == Some(Regroup(g, 3, data))
  {
    forall c ensures ReadsAs(f, g, c) {
      SymbolsOfChunk(a, pad, f, g, c);
    }
    SymbolsOfRegroup(f, g, data);
  }

  ghost predicate LengthAt<A, B>(f: seq<A> -> seq<B>, n: nat, short: nat -> nat, c: seq<A>) {
    1 <= |c| <= n ==> |f(c)| == short(|c|)
  }

  lemma {:induction false} RegroupLength<A(!new), B>(f: seq<A> -> seq<B>, n: nat, short: nat -> nat, xs: seq<A>)
    requires n > 0 && forall c {:trigger LengthAt(f, n, short, c)} :: LengthAt(f, n, short, c)
    ensures |Regroup(f, n, xs)| == |xs| / n * short(n) + if |xs| % n == 0 then 0 else short(|xs| % n)
    decreases |xs|
  {
    if |xs| >= n {
      assert LengthAt(f, n, short, xs[..n]);
      RegroupLength(f, n, short, xs[n..]);
      LessOne(|xs|, n);
      assert (|xs| / n - 1) * short(n) + short(n) == |xs| / n * short(n);
    } else if xs != [] {
      assert LengthAt(f, n, short, xs);
      assert xs[..|xs|] == xs && xs[|xs|..] == [];
      LessNone(|xs|, n);
    } else {
      LessNone(0, n);
    }
  }

  lemma LessOne(x: nat, n: nat)
    requires x >= n > 0
    ensures x / n >= 1 && (x - n) / n == x / n - 1 && (x - n) % n == x % n
  {
    var y := x - n;
    assert y == y / n * n + y % n;
    assert x == x / n * n + x % n;
    SameDivision(y / n + 1, y % n, x / n, x % n, n);
  }

  lemma LessNone(x: nat, n: nat)
    requires x < n
    ensures x / n == 0 && x % n == x
  {
    assert x == x / n * n + x % n;
    SameDivision(0, x, x / n, x % n, n);
  }

  lemma CutCount(n: nat)
    ensures n / 3 * 4 + (if n % 3 == 0 then 0 else n % 3 + 1) == (n * 4 + 2) / 3
    ensures (n * 4 + 2) / 3 % 4 != 1
  {
  }

  lemma JoinCount(n: nat)
    requires n % 4 != 1
    ensures n / 4 * 3 + (if n % 4 == 0 then 0 else n % 4 - 1) == n * 3 / 4
  {
  }

  lemma CutAllLength(cut: seq<byte> -> Sextets, data: seq<byte>)
    requires Same(cut, Cut)
    ensures |Regroup(cut, 3, data)| == (|data| * 4 + 2) / 3 && |Regroup(cut, 3, data)| % 4 != 1
  {
    var short := (n: nat) => if n < 3 then n + 1 else 4;
    forall c ensures LengthAt(cut, 3, short, c) {
      assert SameAt(cut, Cut, c);
    }
    RegroupLength(cut, 3, short, data);
    CutCount(|data|);
  }

  lemma DecodeUndoesEncodeBy(a: string, pad: bool, f: seq<byte> -> string, g: seq<byte> -> Sextets,
      join: Sextets -> seq<byte>, data: seq<byte>)
    requires Alphabet(a) && Same(f, Chunker(a, pad)) && Same(g, Cut) && Same(join, Join)
    ensures Symbols(Regroup(f, 3, data)) == Some(Regroup(g, 3, data))
    ensures GroupBy(join, Regroup(g, 3, data)) == Some(data)
  {
    SymbolsOfEncoded(a, pad, f, g, data);
    CutAllLength(g, data);
    JoinUndoesCutAll(g, join, data);
  }

  /** Decoding undoes encoding, in either alphabet, padded or not. */
  lemma DecodeUndoesEncodeWith(a: string, data: seq<byte>, pad: bool)
    requires Alphabet(a)
    ensures Decode(EncodeWith(a, data, pad)) == Some(data)
  {
    DecodeUndoesEncodeBy(a, pad, Chunker(a, pad), Cut, Join, data);
  }

  /** Decoding undoes both encoders, on every byte string. */
  lemma DecodeUndoesEncode(data: seq<byte>)
    ensures Decode(Encode(data)) == Some(data)
    ensures Decode(EncodeUrlNoPad(data)) == Some(data)
  {
    BothAreAlphabets();
    DecodeUndoesEncodeWith(STANDARD, data, true);
    DecodeUndoesEncodeWith(URL, data, false);
  }

  lemma EncodedLengthBy(a: string, data: seq<byte>, pad: bool, f: seq<byte> -> string)
    requires |a| == 64 && Same(f, Chunker(a, pad))
    ensures |Regroup(f, 3, data)| == if pad then (|data| + 2) / 3 * 4 else (|data| * 4 + 2) / 3
  {
    var short := (n: nat) => if pad || n >= 3 then 4 else if n == 2 then 3 else 2;
    forall c ensures LengthAt(f, 3, short, c) {
      assert SameAt(f, Chunker(a, pad), c);
    }
    RegroupLength(f, 3, short, data);
    TextCount(|data|);
  }

  lemma TextCount(n: nat)
    ensures n / 3 * 4 + (if n % 3 == 0 then 0 else 4) == (n + 2) / 3 * 4
    ensures n / 3 * 4 + (if n % 3 == 0 then 0 else n % 3 + 1) == (n * 4 + 2) / 3
  {
  }

  /** Padded output is `4 * ceil(n / 3)` characters, unpadded `ceil(4 * n / 3)`. */
  lemma EncodedLength(data: seq<byte>)
    ensures |Encode(data)| == (|data| + 2) / 3 * 4
    ensures |EncodeUrlNoPad(data)| == (|data| * 4 + 2) / 3
  {
    EncodedLengthBy(STANDARD, data, true, Chunker(STANDARD, true));
    EncodedLengthBy(URL, data, false, Chunker(URL, false));
  }

  // ---- Exactly which texts decode ----

  function Significant(text: string): string {
    if text == "" then "" else (if text[0] == '=' then "" else [text[0]]) + Significant(text[1..])
  }

  predicate InAlphabets(text: string) {
    forall i :: 0 <= i < |text| && text[i] != '=' ==> Sextet(text[i]).Some?
  }

  lemma {:induction false} SymbolsExactly(text: string)
    ensures Symbols(text).Some? <==> InAlphabets(text)
    ensures Symbols(text).Some? ==> |Symbols(text).value| == |Significant(text)|
  {
    if text != "" {
      SymbolsExactly(text[1..]);
      assert text == [text[0]] + text[1..];
    }
  }

  lemma JoinedLength(join: Sextets -> seq<byte>, cs: Sextets)
    requires Same(join, Join) && |cs| % 4 != 1
    ensures |Regroup(join, 4, cs)| == |cs| * 3 / 4
  {
    var short := (n: nat) => if 2 <= n <= 4 then n - 1 else 0;
    forall c ensures LengthAt(join, 4, short, c) {
      assert SameAt(join, Join, c);
    }
    RegroupLength(join, 4, short, cs);
    JoinCount(|cs|);
  }

  /** The decoder accepts exactly the texts whose characters other than `=` are
      all in an alphabet and do not leave a lone sextet over. */
  lemma DecodesExactly(text: string)
    ensures Decode(text).Some? <==> InAlphabets(text) && |Significant(text)| % 4 != 1
    ensures Decode(text).Some? ==> |Decode(text).value| == |Significant(text)| * 3 / 4
  {
    SymbolsExactly(text);
    if Decode(text).Some? {
      JoinedLength(Join, Symbols(text).value);
    }
  }

  // ---- Exactly which texts are canonical ----

  /** The bits a final short group carries beyond its bytes are all zero. */
  predicate NoSpareBits(cs: Sextets) {
    && |cs| % 4 != 1
    && (|cs| % 4 == 2 ==> cs[|cs| - 1] % 16 == 0)
    && (|cs| % 4 == 3 ==> cs[|cs| - 1] % 4 == 0)
  }

  lemma SplitBack(b0: nat, b1: nat, b2: nat, c0: nat, c1: nat, c2: nat, c3: nat)
    requires c0 < 64 && c1 < 64 && c2 < 64 && c3 < 64
    requires b0 == c0 * 4 + c1 / 16 && b1 == c1 % 16 * 16 + c2 / 4 && b2 == c2 % 4 * 64 + c3
    ensures b0 / 4 == c0 && b0 % 4 == c1 / 16 && b1 / 16 == c1 % 16
    ensures b1 % 16 == c2 / 4 && b2 / 64 == c2 % 4 && b2 % 64 == c3
  {
    Quotient(c0, 4, c1 / 16);
    Quotient(c1 % 16, 16, c2 / 4);
    Quotient(c2 % 4, 64, c3);
  }

  lemma FourOf(n: nat, b0: nat, b1: nat, b2: nat, c0: nat, c1: nat, c2: nat, c3: nat)
    requires c0 < 64 && c1 < 64 && c2 < 64 && c3 < 64 && n == b0 * 65536 + b1 * 256 + b2
    requires b0 == c0 * 4 + c1 / 16 && b1 == c1 % 16 * 16 + c2 / 4 && b2 == c2 % 4 * 64 + c3
    ensures Four(n) == [c0, c1, c2, c3]
  {
    SplitBack(b0, b1, b2, c0, c1, c2, c3);
    FourIs(b0, b1, b2);
  }

  /** The bytes of a group, with zeros where it is short. */
  lemma JoinValues(c: Sextets)
    requires 2 <= |c| <= 4 && Small(c)
    ensures At(Join(c), 0) == c[0] * 4 + c[1] / 16
    ensures At(Join(c), 1) == if |c| > 2 then c[1] % 16 * 16 + c[2] / 4 else 0
    ensures At(Join(c), 2) == if |c| > 3 then c[2] % 4 * 64 + c[3] else 0
  {
    Byte0Is(c[0], c[1]);
    if |c| > 2 { Byte1Is(c[1], c[2]); }
    if |c| > 3 { Byte2Is(c[2], c[3]); }
  }

  /** The word they make holds the sextets, less what the bytes do not carry. */
  lemma WordValues(bytes: seq<byte>, b0: nat, b1: nat, b2: nat, c0: nat, c1: nat, c2: nat, c3: nat)
    requires c0 < 64 && c1 < 64 && c2 < 64 && c3 < 64
    requires At(bytes, 0) == b0 && At(bytes, 1) == b1 && At(bytes, 2) == b2
    requires b0 == c0 * 4 + c1 / 16 && b1 == c1 % 16 * 16 + c2 / 4 && b2 == c2 % 4 * 64 + c3
    ensures Four(Word(bytes)) == [c0, c1, c2, c3]
  {
    FourOf(Word(bytes), b0, b1, b2, c0, c1, c2, c3);
  }

  lemma NoRemainder(c: nat, d: nat)
    requires d == 4 || d == 16
    ensures (c - c % d) / d == c / d && (c - c % d) % d == 0
  {
  }

  lemma CutUndoesFour(c: Sextets)
    requires |c| == 4 && Small(c)
    ensures Four(Word(Join(c))) == c
  {
    JoinValues(c);
    WordValues(Join(c), At(Join(c), 0), At(Join(c), 1), At(Join(c), 2), c[0], c[1], c[2], c[3]);
  }

  lemma CutUndoesThree(c: Sextets)
    requires |c| == 3 && Small(c)
    ensures Four(Word(Join(c))) == [c[0], c[1], c[2] - c[2] % 4, 0]
  {
    JoinValues(c);
    NoRemainder(c[2], 4);
    WordValues(Join(c), At(Join(c), 0), At(Join(c), 1), 0, c[0], c[1], c[2] - c[2] % 4, 0);
  }

  lemma CutUndoesTwo(c: Sextets)
    requires |c| == 2 && Small(c)
    ensures Four(Word(Join(c))) == [c[0], c[1] - c[1] % 16, 0, 0]
  {
    JoinValues(c);
    NoRemainder(c[1], 16);
    WordValues(Join(c), At(Join(c), 0), 0, 0, c[0], c[1] - c[1] % 16, 0, 0);
  }

  /** `cut` stands for what cutting the joined bytes gave. */
  lemma SameUnlessSpare(c: Sextets, cut: Sextets)
    requires 2 <= |c| <= 4
    requires |c| == 4 ==> cut == c
    requires |c| == 3 ==> cut == [c[0], c[1], c[2] - c[2] % 4]
    requires |c| == 2 ==> cut == [c[0], c[1] - c[1] % 16]
    ensures cut == c <==> NoSpareBits(c)
  {
    if |c| == 3 { assert cut[2] == c[2] - c[2] % 4; }
    if |c| == 2 { assert cut[1] == c[1] - c[1] % 16; }
  }

  lemma CutUndoesJoin(c: Sextets)
    requires 2 <= |c| <= 4 && Small(c)
    ensures Cut(Join(c)) == c <==> NoSpareBits(c)
  {
    if |c| == 4 {
      CutUndoesFour(c);
    } else if |c| == 3 {
      CutUndoesThree(c);
    } else {
      CutUndoesTwo(c);
    }
    SameUnlessSpare(c, Cut(Join(c)));
  }

  lemma CutTurnsBack(cut: seq<byte> -> Sextets, join: Sextets -> seq<byte>, c: Sextets)
    requires Same(cut, Cut) && Same(join, Join) && 2 <= |c| <= 4 && Small(c)
    ensures |join(c)| == |c| - 1 && |cut(join(c))| == |c|
    ensures cut(join(c)) == c <==> NoSpareBits(c)
  {
    assert SameAt(join, Join, c) && SameAt(cut, Cut, join(c));
    CutUndoesJoin(c);
  }

  lemma GroupStep(cut: seq<byte> -> Sextets, join: Sextets -> seq<byte>, head: Sextets, rest: Sextets)
    requires Same(cut, Cut) && Same(join, Join)
    requires Small(head) && 2 <= |head| <= 4 && (|head| == 4 || rest == [])
    ensures Regroup(cut, 3, Regroup(join, 4, head + rest)) ==
      cut(join(head)) + Regroup(cut, 3, Regroup(join, 4, rest))
  {
    CutTurnsBack(cut, join, head);
    RegroupWhole(join, 4, head, rest);
    RegroupWhole(cut, 3, join(head), Regroup(join, 4, rest));
  }

  lemma {:induction false} CutUndoesGroup(cut: seq<byte> -> Sextets, join: Sextets -> seq<byte>, cs: Sextets)
    requires Same(cut, Cut) && Same(join, Join)
    requires Small(cs) && |cs| % 4 != 1
    ensures Regroup(cut, 3, Regroup(join, 4, cs)) == cs <==> NoSpareBits(cs)
    decreases |cs|
  {
    if cs != [] {
      var k := if |cs| < 4 then |cs| else 4;
      var head, rest := cs[..k], cs[k..];
      CutUndoesGroup(cut, join, rest);
      CutTurnsBack(cut, join, head);
      assert cs == head + rest;
      GroupStep(cut, join, head, rest);
      NoSpareBitsSplit(cs, k);
      SameParts(cut(join(head)), Regroup(cut, 3, Regroup(join, 4, rest)), head, rest);
    }
  }

  lemma NoSpareBitsSplit(cs: Sextets, k: nat)
    requires cs != [] && k == if |cs| < 4 then |cs| else 4
    ensures NoSpareBits(cs) <==> NoSpareBits(cs[..k]) && NoSpareBits(cs[k..])
  {
  }

  lemma SameParts<T>(a: seq<T>, b: seq<T>, c: seq<T>, d: seq<T>)
    requires |a| == |c|
    ensures a + b == c + d <==> a == c && b == d
  {
    if a + b == c + d {
      assert a == (a + b)[..|a|] && c == (c + d)[..|c|];
      assert b == (a + b)[|a|..] && d == (c + d)[|c|..];
    }
  }

  /** The text that spells some sextets in an alphabet. */
  function Spell(a: string, cs: Sextets): string
    requires |a| == 64 && Small(cs)
  {
    seq(|cs|, i requires 0 <= i < |cs| => a[cs[i]])
  }

  ghost predicate SpellsAt(a: string, f: seq<byte> -> string, g: seq<byte> -> Sextets, c: seq<byte>)
    requires |a| == 64
  {
    1 <= |c| <= 3 ==> Small(g(c)) && f(c) == Spell(a, g(c))
  }

  lemma SpellConcat(a: string, cs: Sextets, ds: Sextets)
    requires |a| == 64 && Small(cs) && Small(ds)
    ensures Small(cs + ds) && Spell(a, cs + ds) == Spell(a, cs) + Spell(a, ds)
  {
  }

  lemma {:induction false} RegroupSpells(a: string, f: seq<byte> -> string, g: seq<byte> -> Sextets, data: seq<byte>)
    requires |a| == 64
    requires forall c {:trigger SpellsAt(a, f, g, c)} :: SpellsAt(a, f, g, c)
    ensures Small(Regroup(g, 3, data)) && Regroup(f, 3, data) == Spell(a, Regroup(g, 3, data))
    decreases |data|
  {
    if data != [] {
      var k := if |data| < 3 then |data| else 3;
      assert SpellsAt(a, f, g, data[..k]);
      RegroupSpells(a, f, g, data[k..]);
      SpellConcat(a, g(data[..k]), Regroup(g, 3, data[k..]));
    }
  }

  lemma EncodeSpells(a: string, f: seq<byte> -> string, g: seq<byte> -> Sextets, data: seq<byte>)
    requires |a| == 64 && Same(f, Chunker(a, false)) && Same(g, Cut)
    ensures Small(Regroup(g, 3, data)) && Regroup(f, 3, data) == Spell(a, Regroup(g, 3, data))
  {
    forall c ensures SpellsAt(a, f, g, c) {
      if 1 <= |c| <= 3 {
        var q := Four(Word(c));
        assert SameAt(f, Chunker(a, false), c) && SameAt(g, Cut, c);
        assert f(c) == Symbolic(a, q, |c|, false);
        assert g(c) == q[..|c| + 1];
      }
    }
    RegroupSpells(a, f, g, data);
  }

  predicate InUrlAlphabet(text: string) {
    forall i :: 0 <= i < |text| ==> Sextet(text[i]).Some? && text[i] != '+' && text[i] != '/'
  }

  lemma UrlSymbol(c: char)
    requires Sextet(c).Some? && c != '+' && c != '/'
    ensures URL[Sextet(c).value] == c
  {
    SymbolAt("-_", Sextet(c).value);
    if Sextet(c).value < 62 {
      assert URL[Sextet(c).value] as int == c as int;
    }
  }

  lemma UrlAvoids(v: nat)
    requires v < 64
    ensures Sextet(URL[v]) == Some(v) && URL[v] != '+' && URL[v] != '/'
  {
    SymbolAt("-_", v);
  }

  lemma {:induction false} SpellUndoesSymbols(text: string)
    requires InUrlAlphabet(text)
    ensures Symbols(text).Some? && Spell(URL, Symbols(text).value) == text
  {
    if text != "" {
      assert text == [text[0]] + text[1..];
      SpellUndoesSymbols(text[1..]);
      UrlSymbol(text[0]);
    }
  }

  lemma SpellInjective(cs: Sextets, ds: Sextets)
    requires Small(cs)
    requires Small(ds)
    requires Spell(URL, cs) == Spell(URL, ds)
    ensures cs == ds
  {
    assert |Spell(URL, cs)| == |Spell(URL, ds)|;
    forall i | 0 <= i < |cs| ensures cs[i] == ds[i] {
      assert Spell(URL, cs)[i] == Spell(URL, ds)[i];
      UrlAvoids(cs[i]);
      UrlAvoids(ds[i]);
    }
  }

  lemma SpelledIsUrl(cs: Sextets)
    requires Small(cs)
    ensures InUrlAlphabet(Spell(URL, cs))
  {
    forall i | 0 <= i < |cs|
      ensures Sextet(Spell(URL, cs)[i]).Some? && Spell(URL, cs)[i] != '+' && Spell(URL, cs)[i] != '/'
    {
      UrlAvoids(cs[i]);
    }
  }

  lemma EncodeUndoesDecodeBy(text: string, f: seq<byte> -> string, cut: seq<byte> -> Sextets,
      join: Sextets -> seq<byte>)
    requires Same(f, Chunker(URL, false)) && Same(cut, Cut) && Same(join, Join)
    requires Symbols(text).Some? && |Symbols(text).value| % 4 != 1
    ensures Regroup(f, 3, Regroup(join, 4, Symbols(text).value)) == text <==>
      InUrlAlphabet(text) && NoSpareBits(Symbols(text).value)
  {
    var cs := Symbols(text).value;
    CutUndoesGroup(cut, join, cs);
    var back := Regroup(cut, 3, Regroup(join, 4, cs));
    EncodeSpells(URL, f, cut, Regroup(join, 4, cs));
    if InUrlAlphabet(text) {
      SpellUndoesSymbols(text);
      if Spell(URL, back) == text { SpellInjective(back, cs); }
    } else {
      SpelledIsUrl(back);
    }
  }

  /** Encoding undoes decoding exactly on the canonical unpadded texts: the URL
      alphabet only, no padding, and no spare bits set. */
  lemma EncodeUndoesDecodeExactly(text: string)
    requires Decode(text).Some?
    ensures EncodeUrlNoPad(Decode(text).value) == text <==>
      InUrlAlphabet(text) && NoSpareBits(Symbols(text).value)
  {
    EncodeUndoesDecodeBy(text, Chunker(URL, false), Cut, Join);
  }
}
