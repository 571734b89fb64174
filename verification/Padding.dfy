/** How the two encoders' texts relate: the padded one is the URL-safe one in the
    standard alphabet, filled up with equals signs to a multiple of four. */
module Padding {
  import opened Prelude
  import opened Base64

  /** The standard symbol that stands for the same six bits. */
  function Standard(c: char): char {
    if c == '-' then '+' else if c == '_' then '/' else c
  }

  /** `padded` is `url` symbol by symbol, and then equals signs. */
  ghost predicate Pads(url: string, padded: string) {
    && |url| <= |padded|
    && (forall i :: 0 <= i < |url| ==> url[i] != '=' && padded[i] == Standard(url[i]))
    && (forall i :: |url| <= i < |padded| ==> padded[i] == '=')
  }

  lemma SymbolsMatch(k: nat)
    requires k < 64
    ensures STANDARD[k] == Standard(URL[k]) && URL[k] != '='
  {
    SymbolAt("+/", k);
    SymbolAt("-_", k);
  }

  lemma ChunkPads(chunk: seq<byte>)
    requires 1 <= |chunk| <= 3
    ensures Pads(Chunk(URL, false, chunk), Chunk(STANDARD, true, chunk))
    ensures |Chunk(STANDARD, true, chunk)| == 4
    ensures |Chunk(URL, false, chunk)| == |chunk| + 1
  {
    var q := Four(Word(chunk));
    SymbolsMatch(q[0]);
    SymbolsMatch(q[1]);
    SymbolsMatch(q[2]);
    SymbolsMatch(q[3]);
  }

  lemma PadsConcat(a: string, b: string, c: string, d: string)
    requires Pads(a, b) && |a| == |b| && Pads(c, d)
    ensures Pads(a + c, b + d)
  {
  }

  /** `f` and `g` agree with the two encoders' work on one chunk. */
  ghost predicate PadsAt(f: seq<byte> -> string, g: seq<byte> -> string, chunk: seq<byte>) {
    Pads(f(chunk), g(chunk)) && |g(chunk)| == 4 && |f(chunk)| == |chunk| + 1
  }

  ghost predicate PadsAll(f: seq<byte> -> string, g: seq<byte> -> string, data: seq<byte>) {
    var (url, padded) := (Regroup(f, 3, data), Regroup(g, 3, data));
    Pads(url, padded) && |padded| % 4 == 0 && |padded| < |url| + 4
  }

  lemma PadsStep(f: seq<byte> -> string, g: seq<byte> -> string, c: seq<byte>, rest: seq<byte>)
    requires PadsAt(f, g, c) && PadsAll(f, g, rest) && (|c| == 3 || (0 < |c| < 3 && rest == []))
    ensures PadsAll(f, g, c + rest)
  {
    RegroupWhole(f, 3, c, rest);
    RegroupWhole(g, 3, c, rest);
    if |c| == 3 {
      PadsConcat(f(c), g(c), Regroup(f, 3, rest), Regroup(g, 3, rest));
    }
  }

  lemma {:induction false} RegroupPads(f: seq<byte> -> string, g: seq<byte> -> string, data: seq<byte>)
    requires forall c: seq<byte> {:trigger PadsAt(f, g, c)} :: 1 <= |c| <= 3 ==> PadsAt(f, g, c)
    ensures PadsAll(f, g, data)
    decreases |data|
  {
    if data != [] {
      var k := if |data| < 3 then |data| else 3;
      RegroupPads(f, g, data[k..]);
      PadsStep(f, g, data[..k], data[k..]);
      assert data == data[..k] + data[k..];
    }
  }

  /** The padded text is the URL-safe one with `+` and `/` for `-` and `_`, followed
      by equals signs up to a multiple of four and nothing else. */
  lemma PaddedIsUrlFilled(data: seq<byte>)
    ensures Pads(EncodeUrlNoPad(data), Encode(data))
    ensures |Encode(data)| % 4 == 0 && |Encode(data)| < |EncodeUrlNoPad(data)| + 4
  {
    var f, g := Chunker(URL, false), Chunker(STANDARD, true);
    forall c: seq<byte> | 1 <= |c| <= 3 ensures PadsAt(f, g, c) {
      ChunkPads(c);
    }
    RegroupPads(f, g, data);
  }
}
