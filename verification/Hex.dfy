/** Lowercase hex text of bytes, and the two readers the proxy uses: a strict
    one for cursors and a lenient one for scanner payloads. */
module Hex {
  import opened Prelude

  function HexDigit(d: nat): (c: char)
    requires d < 16
  {
    if d < 10 then ('0' as int + d) as char else ('a' as int + d - 10) as char
  }

  /** `char::to_digit(16)`: either case is accepted. */
  function ToDigit(c: char): (d: Option<nat>)
    ensures d.Some? ==> d.value < 16
  {
    if '0' <= c <= '9' then Some(c as int - '0' as int)
    else if 'a' <= c <= 'f' then Some(c as int - 'a' as int + 10)
    else if 'A' <= c <= 'F' then Some(c as int - 'A' as int + 10)
    else None
  }

  function Pair(b: byte): (s: string)
    ensures |s| == 2
  {
    [HexDigit(b as int / 16), HexDigit(b as int % 16)]
  }

  function ToHex(bytes: seq<byte>): (s: string)
    ensures |s| == 2 * |bytes|
  {
    if bytes == [] then [] else Pair(bytes[0]) + ToHex(bytes[1..])
  }

  function ReadPair(hi: char, lo: char): Option<byte> {
    match (ToDigit(hi), ToDigit(lo))
    case (Some(h), Some(l)) => Some((h * 16 + l) as byte)
    case _ => None
  }

  lemma PairReads(b: byte)
    ensures ReadPair(Pair(b)[0], Pair(b)[1]) == Some(b)
  {
    assert b as int == b as int / 16 * 16 + b as int % 16;
  }

  /** Odd length or any other character is malformed. */
  function Strict(s: string): Option<seq<byte>> {
    if s == [] then Some([])
    else if |s| == 1 then None
    else
      match (ReadPair(s[0], s[1]), Strict(s[2..]))
      case (Some(b), Some(rest)) => Some([b] + rest)
      case _ => None
  }

  /** `u8::from_str_radix` on one pair; it also takes a plus sign before one digit. */
  function RadixPair(hi: char, lo: char): Option<byte> {
    if hi == '+' then
      match ToDigit(lo)
      case Some(l) => Some(l as byte)
      case None => None
    else ReadPair(hi, lo)
  }

  /** Malformed pairs and a trailing odd character are skipped. */
  function Lenient(s: string): seq<byte> {
    if |s| < 2 then []
    else
      match RadixPair(s[0], s[1])
      case Some(b) => [b] + Lenient(s[2..])
      case None => Lenient(s[2..])
  }

  lemma {:induction false} HexRoundTrip(bytes: seq<byte>)
    ensures Strict(ToHex(bytes)) == Some(bytes)
    ensures Lenient(ToHex(bytes)) == bytes
  {
    if bytes != [] {
      HexRoundTrip(bytes[1..]);
      PairReads(bytes[0]);
      var s := ToHex(bytes);
      assert s[0] == Pair(bytes[0])[0] && s[1] == Pair(bytes[0])[1];
      assert s[2..] == ToHex(bytes[1..]);
      assert bytes == [bytes[0]] + bytes[1..];
    }
  }

  predicate HexText(s: string) {
    |s| % 2 == 0 && forall i :: 0 <= i < |s| ==> ToDigit(s[i]).Some?
  }

  /** The strict reader accepts exactly even-length text of hex digits. */
  lemma {:induction false} StrictExactly(s: string)
    ensures Strict(s).Some? <==> HexText(s)
  {
    if |s| >= 2 {
      StrictExactly(s[2..]);
      assert s == [s[0], s[1]] + s[2..];
    }
  }

  /** A letter from A to F in lower case. */
  function LowerHex(c: char): char {
    if 'A' <= c <= 'F' then (c as int + 32) as char else c
  }

  predicate HexChar(c: char) {
    '0' <= c <= '9' || 'a' <= c <= 'f' || 'A' <= c <= 'F'
  }

  lemma DigitReads(c: char)
    ensures ToDigit(c).Some? <==> HexChar(c)
    ensures ToDigit(c).Some? ==> HexDigit(ToDigit(c).value) == LowerHex(c)
  {
  }

  lemma Nibbles(h: nat, l: nat)
    requires h < 16 && l < 16
    ensures (h * 16 + l) / 16 == h && (h * 16 + l) % 16 == l && h * 16 + l < 256
  {
  }

  lemma PairPrints(hi: char, lo: char)
    requires HexChar(hi) && HexChar(lo)
    ensures ReadPair(hi, lo).Some? && Pair(ReadPair(hi, lo).value) == [LowerHex(hi), LowerHex(lo)]
  {
    DigitReads(hi);
    DigitReads(lo);
    Nibbles(ToDigit(hi).value, ToDigit(lo).value);
  }

  /** Reading is of pairs of hex digits in either case, and printing what was read
      gives the text back in lower case; the lenient reader agrees on such text. */
  lemma {:induction false} ReadsEitherCase(s: string)
    requires |s| % 2 == 0 && forall i :: 0 <= i < |s| ==> HexChar(s[i])
    ensures Strict(s) == Some(Lenient(s)) && |ToHex(Lenient(s))| == |s|
    ensures forall i :: 0 <= i < |s| ==> ToHex(Lenient(s))[i] == LowerHex(s[i])
  {
    if s != [] {
      ReadsEitherCase(s[2..]);
      PairPrints(s[0], s[1]);
      var b, rest := ReadPair(s[0], s[1]).value, Lenient(s[2..]);
      assert Lenient(s) == [b] + rest && ([b] + rest)[1..] == rest;
      assert ToHex(Lenient(s)) == Pair(b) + ToHex(rest);
    }
  }

  lemma {:induction false} LenientConcat(a: string, b: string)
    requires |a| % 2 == 0
    ensures Lenient(a + b) == Lenient(a) + Lenient(b)
  {
    if a == [] {
      assert a + b == b;
    } else {
      LenientConcat(a[2..], b);
      assert (a + b)[2..] == a[2..] + b;
    }
  }

  /** What the lenient reader makes of one pair: two digits are a byte, a plus sign
      stands for a zero, and any other pair is passed over. */
  ghost predicate PairGives(hi: char, lo: char, out: seq<byte>) {
    if HexChar(lo) && (HexChar(hi) || hi == '+') then
      |out| == 1 && Pair(out[0]) == [if hi == '+' then '0' else LowerHex(hi), LowerHex(lo)]
    else out == []
  }

  lemma PairIsLenient(hi: char, lo: char)
    ensures PairGives(hi, lo, Lenient([hi, lo]))
  {
    assert [hi, lo][2..] == [];
    DigitReads(hi);
    DigitReads(lo);
    if HexChar(hi) && HexChar(lo) { PairPrints(hi, lo); }
  }

  function PairAt(s: string): nat -> seq<byte> {
    (k: nat) => if 2 * k + 1 < |s| then Lenient([s[2 * k], s[2 * k + 1]]) else []
  }

  lemma LenientNext(s: string, k: nat)
    requires 2 * k + 2 <= |s|
    ensures Lenient(s[..2 * k + 2]) == Lenient(s[..2 * k]) + PairAt(s)(k)
  {
    assert s[..2 * k + 2] == s[..2 * k] + [s[2 * k], s[2 * k + 1]];
    LenientConcat(s[..2 * k], [s[2 * k], s[2 * k + 1]]);
  }

  lemma {:induction false} LenientPrefix(s: string, n: nat)
    requires 2 * n <= |s|
    ensures Lenient(s[..2 * n]) == Cat(PairAt(s), n)
  {
    if n > 0 {
      LenientPrefix(s, n - 1);
      LenientNext(s, n - 1);
      assert 2 * (n - 1) + 2 == 2 * n;
    }
  }

  lemma LenientTail(s: string, t: string)
    requires |s| % 2 == 0 && |t| <= 1
    ensures Lenient(s + t) == Lenient(s)
  {
    LenientConcat(s, t);
    assert Lenient(t) == [];
    assert Lenient(s) + [] == Lenient(s);
  }

  /** The lenient reader takes any text pair by pair; a last odd character is passed over. */
  lemma LenientReads(s: string) returns (f: nat -> seq<byte>)
    ensures Lenient(s) == Cat(f, |s| / 2)
    ensures forall k: nat {:trigger f(k)} :: k < |s| / 2 ==> PairGives(s[2 * k], s[2 * k + 1], f(k))
  {
    f := PairAt(s);
    LenientTail(s[..2 * (|s| / 2)], s[2 * (|s| / 2)..]);
    assert s == s[..2 * (|s| / 2)] + s[2 * (|s| / 2)..];
    LenientPrefix(s, |s| / 2);
    forall k: nat | k < |s| / 2 ensures PairGives(s[2 * k], s[2 * k + 1], f(k)) {
      PairIsLenient(s[2 * k], s[2 * k + 1]);
    }
  }

  lemma ToHexInjective(a: seq<byte>, b: seq<byte>)
    requires ToHex(a) == ToHex(b)
    ensures a == b
  {
    HexRoundTrip(a);
    HexRoundTrip(b);
  }

  lemma {:induction false} ToHexIsAscii(bytes: seq<byte>)
    ensures IsAscii(ToHex(bytes))
  {
    if bytes != [] {
      ToHexIsAscii(bytes[1..]);
    }
  }

  lemma {:induction false} ToHexConcat(a: seq<byte>, b: seq<byte>)
    ensures ToHex(a + b) == ToHex(a) + ToHex(b)
  {
    if a == [] {
      assert a + b == b;
    } else {
      assert (a + b)[1..] == a[1..] + b;
      ToHexConcat(a[1..], b);
    }
  }

  /** The push-as-you-go encoder used by signing, cursors and content blocks. */
  method Encode(bytes: seq<byte>) returns (out: string)
    ensures out == ToHex(bytes)
  {
    out := "";
    for i := 0 to |bytes|
      invariant out == ToHex(bytes[..i])
    {
      assert bytes[..i + 1] == bytes[..i] + [bytes[i]];
      ToHexConcat(bytes[..i], [bytes[i]]);
      assert ToHex([bytes[i]]) == Pair(bytes[i]) + ToHex([]);
      out := out + Pair(bytes[i]);
    }
    assert bytes[..|bytes|] == bytes;
  }

  /** One more good pair extends what was read; one bad pair spoils it all. */
  lemma {:induction false} StrictExtends(s: string, i: nat)
    requires |s| % 2 == 0 && i % 2 == 0 && i < |s|
    requires Strict(s[..i]).Some?
    ensures ReadPair(s[i], s[i + 1]).Some? ==>
              Strict(s[..i + 2]) == Some(Strict(s[..i]).value + [ReadPair(s[i], s[i + 1]).value])
    ensures ReadPair(s[i], s[i + 1]).None? ==> Strict(s).None?
    decreases i
  {
    if i == 0 {
      assert s[..2] == [s[0], s[1]] && s[..2][2..] == [];
      assert Strict(s[..0]) == Some([]) && Strict(s[..2][2..]) == Some([]);
      assert forall x: byte :: [] + [x] == [x] + [];
    } else {
      assert s[..i][2..] == s[2..][..i - 2];
      assert s[..i + 2][2..] == s[2..][..i];
      StrictExtends(s[2..], i - 2);
      var b := ReadPair(s[0], s[1]).value;
      var rest := Strict(s[2..][..i - 2]).value;
      assert Strict(s[..i]).value == [b] + rest;
      if ReadPair(s[i], s[i + 1]).Some? {
        var x := ReadPair(s[i], s[i + 1]).value;
        assert [b] + (rest + [x]) == ([b] + rest) + [x];
      }
    }
  }

  /** The cursor reader's loop, two characters at a time. */
  method DecodeStrict(s: string) returns (r: Option<seq<byte>>)
    ensures r == Strict(s)
  {
    if |s| % 2 != 0 {
      OddIsMalformed(s);
      return None;
    }
    var bytes: seq<byte> := [];
    var i := 0;
    while i < |s|
      invariant 0 <= i <= |s| && i % 2 == 0
      invariant Strict(s[..i]) == Some(bytes)
    {
      StrictExtends(s, i);
      var hi := ToDigit(s[i]);
      if hi.None? { return None; }
      var lo := ToDigit(s[i + 1]);
      if lo.None? { return None; }
      bytes := bytes + [(hi.value * 16 + lo.value) as byte];
      i := i + 2;
    }
    assert s[..i] == s;
    return Some(bytes);
  }

  lemma {:induction false} OddIsMalformed(s: string)
    requires |s| % 2 == 1
    ensures Strict(s).None?
  {
    if |s| > 1 {
      OddIsMalformed(s[2..]);
    }
  }
}
