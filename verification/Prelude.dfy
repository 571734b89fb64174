/** Small shared vocabulary: optional values, bytes, and sequence helpers. */
module Prelude {

  datatype Option<+T> = None | Some(value: T)

  newtype byte = x: int | 0 <= x < 256

  const NL: byte := 10
  const CR: byte := 13

  predicate IsAscii(s: string) {
    forall i :: 0 <= i < |s| ==> s[i] as int < 128
  }

  /** The bytes of an ASCII string. */
  function Ascii(s: string): (b: seq<byte>)
    requires IsAscii(s)
    ensures |b| == |s|
    ensures forall i :: 0 <= i < |s| ==> b[i] as int == s[i] as int
  {
    seq(|s|, i requires 0 <= i < |s| => s[i] as int as byte)
  }

  lemma AsciiInjective(s: string, t: string)
    requires IsAscii(s) && IsAscii(t) && Ascii(s) == Ascii(t)
    ensures s == t
  {
    assert |s| == |t|;
    forall i | 0 <= i < |s| ensures s[i] == t[i] {
      assert Ascii(s)[i] == Ascii(t)[i];
    }
  }

  lemma AppendAppend<T>(a: seq<T>, b: seq<T>, c: seq<T>)
    ensures (a + b) + c == a + (b + c)
  {
  }

  ghost predicate Distinct<T>(s: seq<T>) {
    forall i, j :: 0 <= i < j < |s| ==> s[i] != s[j]
  }

  /** `f(0) + f(1) + ... + f(n - 1)`. */
  function Cat<T>(f: nat -> seq<T>, n: nat): seq<T> {
    if n == 0 then [] else Cat(f, n - 1) + f(n - 1)
  }

  lemma {:induction false} CatSame<T>(f: nat -> seq<T>, g: nat -> seq<T>, n: nat)
    requires forall k: nat :: k < n ==> f(k) == g(k)
    ensures Cat(f, n) == Cat(g, n)
  {
    if n > 0 {
      CatSame(f, g, n - 1);
    }
  }

  ghost predicate Appends<T(!new)>(whole: nat -> seq<T>, part: nat -> seq<T>, n: nat) {
    whole(n + 1) == whole(n) + part(n)
  }

  /** What is built by appending part after part is their concatenation. */
  lemma {:induction false} CatBuilt<T(!new)>(whole: nat -> seq<T>, part: nat -> seq<T>, n: nat)
    requires whole(0) == [] && forall i: nat {:trigger Appends(whole, part, i)} :: i < n ==> Appends(whole, part, i)
    ensures whole(n) == Cat(part, n)
  {
    if n > 0 {
      CatBuilt(whole, part, n - 1);
      assert Appends(whole, part, n - 1);
    }
  }

  lemma {:induction false} CatOnly<T>(f: nat -> seq<T>, n: nat, i: nat)
    requires forall k: nat :: k < n && k != i ==> f(k) == []
    ensures Cat(f, n) == if i < n then f(i) else []
  {
    if n > 0 {
      CatOnly(f, n - 1, i);
    }
  }

  /** A map that distributes over `+` distributes over `Cat`. */
  ghost predicate Distributes<T(!new), U>(h: seq<T> -> seq<U>) {
    h([]) == [] && forall a, b {:trigger h(a + b)} :: h(a + b) == h(a) + h(b)
  }

  lemma {:induction false} CatMap<T(!new), U>(h: seq<T> -> seq<U>, f: nat -> seq<T>, g: nat -> seq<U>, n: nat)
    requires Distributes(h)
    requires forall k: nat :: k < n ==> h(f(k)) == g(k)
    ensures h(Cat(f, n)) == Cat(g, n)
  {
    if n > 0 {
      CatMap(h, f, g, n - 1);
      assert h(Cat(f, n - 1) + f(n - 1)) == h(Cat(f, n - 1)) + h(f(n - 1));
    }
  }

  /** The indices below `n` that satisfy `p`, in order. */
  function Picked(p: nat -> bool, n: nat): seq<nat> {
    if n == 0 then [] else Picked(p, n - 1) + if p(n - 1) then [n - 1] else []
  }

  ghost predicate Rising(xs: seq<nat>, bound: nat) {
    && (forall a, b :: 0 <= a < b < |xs| ==> xs[a] < xs[b])
    && (forall a :: 0 <= a < |xs| ==> xs[a] < bound)
  }

  lemma RisingSnoc(xs: seq<nat>, n: nat)
    requires Rising(xs, n)
    ensures Rising(xs, n + 1) && Rising(xs + [n], n + 1)
  {
  }

  lemma InSnoc(xs: seq<nat>, n: nat, i: nat)
    ensures i in xs + [n] <==> i in xs || i == n
  {
  }

  lemma {:induction false} PickedExactly(p: nat -> bool, n: nat)
    ensures Rising(Picked(p, n), n)
    ensures forall i: nat :: i in Picked(p, n) <==> i < n && p(i)
  {
    if n > 0 {
      PickedExactly(p, n - 1);
      RisingSnoc(Picked(p, n - 1), n - 1);
      forall i: nat ensures i in Picked(p, n) <==> i < n && p(i) {
        InSnoc(Picked(p, n - 1), n - 1, i);
      }
    }
  }

  lemma {:induction false} PickedOne(p: nat -> bool, n: nat, i: nat)
    requires i < n && forall k: nat :: k < n && k != i ==> !p(k)
    ensures Picked(p, n) == if p(i) then [i] else []
  {
    if n - 1 == i {
      PickedNone(p, i);
    } else {
      PickedOne(p, n - 1, i);
    }
  }

  lemma {:induction false} PickedNone(p: nat -> bool, n: nat)
    requires forall k: nat :: k < n ==> !p(k)
    ensures Picked(p, n) == []
  {
    if n > 0 { PickedNone(p, n - 1); }
  }

  ghost predicate Carried(p: nat -> bool, n: nat) {
    p(n) ==> p(n + 1)
  }

  /** Plain induction, for predicates whose content is best left folded. */
  lemma {:induction false} Upward(p: nat -> bool, n: nat)
    requires p(0) && forall i: nat {:trigger Carried(p, i)} :: i < n ==> Carried(p, i)
    ensures p(n)
  {
    for i := 0 to n
      invariant p(i)
    {
      assert Carried(p, i);
    }
  }
}
