/** Decimal rendering of counters, as `format!("{n}")` prints them. */
module Decimal {
  import opened Prelude

  predicate AllDigits(s: string) {
    forall i :: 0 <= i < |s| ==> '0' <= s[i] <= '9'
  }

  lemma DigitsAreAscii(s: string)
    requires AllDigits(s)
    ensures IsAscii(s)
  {
  }

  function Digit(d: nat): char
    requires d < 10
  {
    ('0' as int + d) as char
  }

  function Render(n: nat): (s: string)
    ensures |s| > 0 && AllDigits(s)
  {
    if n < 10 then [Digit(n)] else Render(n / 10) + [Digit(n % 10)]
  }

  /** The number a digit string denotes. */
  function Value(s: string): nat
    requires AllDigits(s)
  {
    if s == [] then 0
    else Value(s[..|s| - 1]) * 10 + (s[|s| - 1] as int - '0' as int)
  }

  lemma {:induction false} ValueOfRender(n: nat)
    ensures Value(Render(n)) == n
  {
    if n < 10 {
      assert Render(n)[..0] == [];
    } else {
      ValueOfRender(n / 10);
      assert Render(n)[..|Render(n)| - 1] == Render(n / 10);
    }
  }

  /** No leading zero but in zero itself. */
  lemma {:induction false} RenderIsCanonical(n: nat)
    ensures Render(n)[0] == '0' ==> n == 0 && |Render(n)| == 1
  {
    if n >= 10 {
      RenderIsCanonical(n / 10);
      assert Render(n)[0] == Render(n / 10)[0];
    }
  }

  lemma RenderInjective(m: nat, n: nat)
    ensures Render(m) == Render(n) ==> m == n
  {
    ValueOfRender(m);
    ValueOfRender(n);
  }

  /** Ids minted from one counter under one fixed prefix never repeat. */
  lemma TaggedInjective(tag: string, m: nat, n: nat)
    requires tag + Render(m) == tag + Render(n)
    ensures m == n
  {
    assert (tag + Render(m))[|tag|..] == Render(m);
    assert (tag + Render(n))[|tag|..] == Render(n);
    RenderInjective(m, n);
  }
}
