/** Sorted, duplicate-free lists of names, as `sort` then `dedup` make them. */
module Sorting {

  /** Lexicographic by character, which is byte order in UTF-8. */
  predicate Below(a: string, b: string) {
    if b == "" then false
    else if a == "" then true
    else a[0] < b[0] || (a[0] == b[0] && Below(a[1..], b[1..]))
  }

  lemma {:induction false} BelowTotal(a: string, b: string)
    ensures Below(a, b) || Below(b, a) || a == b
  {
    if a != "" && b != "" && a[0] == b[0] {
      BelowTotal(a[1..], b[1..]);
      assert a == [a[0]] + a[1..] && b == [b[0]] + b[1..];
    }
  }

  lemma {:induction false} BelowTransitive(a: string, b: string, c: string)
    requires Below(a, b) && Below(b, c)
    ensures Below(a, c)
  {
    if a != "" && a[0] == b[0] && b[0] == c[0] {
      BelowTransitive(a[1..], b[1..], c[1..]);
    }
  }

  lemma {:induction false} BelowStrict(a: string)
    ensures !Below(a, a)
  {
    if a != "" { BelowStrict(a[1..]); }
  }

  predicate AtMost(a: string, b: string) {
    a == b || Below(a, b)
  }

  ghost predicate Ascending(xs: seq<string>) {
    forall i, j :: 0 <= i < j < |xs| ==> AtMost(xs[i], xs[j])
  }

  ghost predicate StrictlyAscending(xs: seq<string>) {
    forall i, j :: 0 <= i < j < |xs| ==> Below(xs[i], xs[j])
  }

  function Insert(x: string, xs: seq<string>): seq<string> {
    if xs == [] || AtMost(x, xs[0]) then [x] + xs else [xs[0]] + Insert(x, xs[1..])
  }

  function Sort(xs: seq<string>): seq<string> {
    if xs == [] then [] else Insert(xs[0], Sort(xs[1..]))
  }

  /** `Vec::dedup`: drop an element equal to its successor. */
  function Dedup(xs: seq<string>): seq<string> {
    if |xs| <= 1 then xs
    else if xs[0] == xs[1] then Dedup(xs[1..])
    else [xs[0]] + Dedup(xs[1..])
  }

  lemma AscendingTail(xs: seq<string>)
    requires Ascending(xs) && xs != []
    ensures Ascending(xs[1..]) && forall x :: x in xs[1..] ==> AtMost(xs[0], x)
  {
  }

  lemma AscendingCons(x: string, xs: seq<string>)
    requires Ascending(xs) && forall y :: y in xs ==> AtMost(x, y)
    ensures Ascending([x] + xs)
  {
  }

  lemma {:induction false} InsertSorted(x: string, xs: seq<string>)
    requires Ascending(xs)
    ensures Ascending(Insert(x, xs)) && multiset(Insert(x, xs)) == multiset(xs) + multiset{x}
  {
    if xs == [] || AtMost(x, xs[0]) {
      forall y | y in xs ensures AtMost(x, y) {
        if xs[0] != y && x != xs[0] {
          AscendingTail(xs);
          assert xs == [xs[0]] + xs[1..];
          BelowTransitive(x, xs[0], y);
        }
      }
      AscendingCons(x, xs);
    } else {
      BelowTotal(x, xs[0]);
      AscendingTail(xs);
      InsertSorted(x, xs[1..]);
      forall y | y in Insert(x, xs[1..]) ensures AtMost(xs[0], y) {
        assert y in multiset(xs[1..]) + multiset{x};
      }
      AscendingCons(xs[0], Insert(x, xs[1..]));
      assert xs == [xs[0]] + xs[1..];
    }
  }

  lemma {:induction false} SortSorts(xs: seq<string>)
    ensures Ascending(Sort(xs)) && multiset(Sort(xs)) == multiset(xs)
  {
    if xs != [] {
      SortSorts(xs[1..]);
      InsertSorted(xs[0], Sort(xs[1..]));
      assert xs == [xs[0]] + xs[1..];
    }
  }

  lemma {:induction false} DedupStrict(xs: seq<string>)
    requires Ascending(xs)
    ensures StrictlyAscending(Dedup(xs))
    ensures forall x :: x in Dedup(xs) <==> x in xs
  {
    if |xs| > 1 {
      AscendingTail(xs);
      DedupStrict(xs[1..]);
      assert xs == [xs[0]] + xs[1..];
      if xs[0] == xs[1] {
        assert xs[0] in xs[1..];
      } else {
        forall y | y in Dedup(xs[1..]) ensures Below(xs[0], y) {
          assert AtMost(xs[1], y) by {
            if y != xs[1] { AscendingTail(xs[1..]); assert xs[1..] == [xs[1]] + xs[1..][1..]; }
          }
          if y != xs[1] { BelowTransitive(xs[0], xs[1], y); }
        }
      }
    }
  }

  /** `sort` and then `dedup`. */
  function Once(xs: seq<string>): seq<string> {
    Dedup(Sort(xs))
  }

  /** Sorting and deduplicating lists each name once, in strictly rising order. */
  lemma SortedOnce(xs: seq<string>)
    ensures StrictlyAscending(Once(xs))
    ensures forall x :: x in Once(xs) <==> x in xs
  {
    SortSorts(xs);
    DedupStrict(Sort(xs));
    forall x ensures x in Sort(xs) <==> x in xs {
      assert x in multiset(Sort(xs)) <==> x in multiset(xs);
    }
  }

  lemma RisingTail(xs: seq<string>)
    requires StrictlyAscending(xs) && xs != []
    ensures StrictlyAscending(xs[1..])
    ensures forall x :: x in xs[1..] <==> x in xs && x != xs[0]
  {
    forall x | x in xs[1..] ensures x in xs && x != xs[0] {
      var i :| 0 <= i < |xs[1..]| && xs[1..][i] == x;
      assert xs[i + 1] == x;
      BelowStrict(x);
    }
    forall x | x in xs && x != xs[0] ensures x in xs[1..] {
      var i :| 0 <= i < |xs| && xs[i] == x;
      assert xs[1..][i - 1] == x;
    }
  }

  lemma EmptyTogether(xs: seq<string>, ys: seq<string>)
    requires forall x :: x in xs <==> x in ys
    ensures xs == [] <==> ys == []
  {
    if xs != [] { assert xs[0] in ys; }
    if ys != [] { assert ys[0] in xs; }
  }

  /** A strictly rising list is fixed by what it contains. */
  lemma {:induction false} OneRisingList(xs: seq<string>, ys: seq<string>)
    requires StrictlyAscending(xs) && StrictlyAscending(ys)
    requires forall x :: x in xs <==> x in ys
    ensures xs == ys
  {
    EmptyTogether(xs, ys);
    if xs != [] {
      Least(xs, ys);
      assert xs == [xs[0]] + xs[1..] && ys == [ys[0]] + ys[1..];
      RisingTail(xs);
      RisingTail(ys);
      OneRisingList(xs[1..], ys[1..]);
    }
  }

  lemma Least(xs: seq<string>, ys: seq<string>)
    requires StrictlyAscending(xs) && StrictlyAscending(ys) && xs != [] && ys != []
    requires forall x :: x in xs <==> x in ys
    ensures xs[0] == ys[0]
  {
    assert xs[0] in ys && ys[0] in xs;
    if xs[0] != ys[0] {
      assert Below(xs[0], ys[0]) && Below(ys[0], xs[0]);
      BelowTransitive(xs[0], ys[0], xs[0]);
      BelowStrict(xs[0]);
    }
  }

  lemma LeastOfMany(xs: seq<string>, ys: seq<string>)
    requires Ascending(xs) && Ascending(ys) && xs != [] && multiset(xs) == multiset(ys)
    ensures ys != [] && xs[0] == ys[0]
  {
    assert xs[0] in multiset(ys) && xs[0] in ys;
    assert ys[0] in multiset(xs) && ys[0] in xs;
    if xs[0] != ys[0] {
      assert Below(xs[0], ys[0]) && Below(ys[0], xs[0]);
      BelowTransitive(xs[0], ys[0], xs[0]);
      BelowStrict(xs[0]);
    }
  }

  lemma WithoutFirst(xs: seq<string>)
    requires xs != []
    ensures xs == [xs[0]] + xs[1..] && multiset(xs[1..]) == multiset(xs) - multiset{xs[0]}
  {
    assert xs == [xs[0]] + xs[1..];
  }

  lemma {:induction false} OneAscendingList(xs: seq<string>, ys: seq<string>)
    requires Ascending(xs) && Ascending(ys) && multiset(xs) == multiset(ys)
    ensures xs == ys
  {
    if xs != [] {
      LeastOfMany(xs, ys);
      WithoutFirst(xs);
      WithoutFirst(ys);
      OneAscendingList(xs[1..], ys[1..]);
    } else {
      assert |multiset(ys)| == 0;
    }
  }

  /** Sorted lists are equal exactly when they hold the same names as often. */
  lemma SortsAlikeExactly(xs: seq<string>, ys: seq<string>)
    ensures Sort(xs) == Sort(ys) <==> multiset(xs) == multiset(ys)
  {
    SortSorts(xs);
    SortSorts(ys);
    if multiset(xs) == multiset(ys) { OneAscendingList(Sort(xs), Sort(ys)); }
  }
}
