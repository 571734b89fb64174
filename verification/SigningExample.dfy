/** Functions that meet `Signing.Sound`, so that the audit-log theorems are about
    something. */
module SigningExample {
  import opened Prelude
  import CursorWire
  import opened Signing

  /** ASCII as itself; any other text behind a byte that no ASCII text begins with. */
  function Encode(s: string): seq<byte> {
    if IsAscii(s) then Ascii(s) else [255] + CursorWire.Text(s)
  }

  lemma Marked(s: string)
    ensures (Encode(s) != [] && Encode(s)[0] == 255) <==> !IsAscii(s)
  {
  }

  lemma EncodeInjective(s: string, t: string)
    requires Encode(s) == Encode(t)
    ensures s == t
  {
    Marked(s);
    Marked(t);
    if IsAscii(s) {
      AsciiInjective(s, t);
    } else {
      assert Encode(s)[1..] == CursorWire.Text(s) && Encode(t)[1..] == CursorWire.Text(t);
      assert CursorWire.Text(s) + [] == CursorWire.Text(t) + [];
      CursorWire.TextPrefix(s, [], t, []);
    }
  }

  lemma SoundIsMet() returns (c: Crypto)
    ensures Sound(c)
  {
    var zeros: seq<byte> := seq(32, i => 0);
    c := Crypto(d => zeros, (k, d) => zeros, record => [], s => Encode(s));
    forall s: string, t: string | c.utf8(s) == c.utf8(t) ensures s == t {
      EncodeInjective(s, t);
    }
  }
}
