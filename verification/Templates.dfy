/** Exactly which path templates do not care in what order their parameters are
    declared: those in which no brace of the literal text is ever closed. */
module Templates {
  import opened Prelude
  import opened Rest

  // ---- Reading a path as a template ----

  predicate IsBrace(b: byte) {
    b == OPEN || b == CLOSE
  }

  /** The index of the first brace at or after `from`, or the length. */
  function NextBrace(s: Text, from: nat): (k: nat)
    requires from <= |s|
    ensures from <= k <= |s| && (k < |s| ==> IsBrace(s[k]))
    ensures forall i :: from <= i < k ==> !IsBrace(s[i])
    decreases |s| - from
  {
    if from == |s| || IsBrace(s[from]) then from else NextBrace(s, from + 1)
  }

  /** A complete placeholder stands at the front. */
  predicate HoleAt(s: Text) {
    s != [] && s[0] == OPEN && NextBrace(s, 1) < |s| && s[NextBrace(s, 1)] == CLOSE
  }

  /** Every complete placeholder is a slot; anything else is literal text. */
  function Parse(path: Text): (t: Template)
    ensures Slotted(t)
    decreases |path|
  {
    if path == [] then []
    else if HoleAt(path) then
      var k := NextBrace(path, 1);
      [Slot(path[1..k])] + Parse(path[k + 1..])
    else [Lit([path[0]])] + Parse(path[1..])
  }

  /** Slot names hold no braces; literals may. */
  predicate Slotted(t: Template) {
    forall i :: 0 <= i < |t| && t[i].Slot? ==> NoBraces(t[i].name)
  }

  lemma HoleText(path: Text)
    requires HoleAt(path)
    ensures var k := NextBrace(path, 1); NoBraces(path[1..k]) && path == Hole(path[1..k]) + path[k + 1..]
  {
    var k := NextBrace(path, 1);
    assert path == [path[0]] + path[1..k] + [path[k]] + path[k + 1..];
  }

  lemma RenderCons(p: Piece, t: Template)
    ensures Render([p] + t) == PieceText(p) + Render(t)
  {
    assert ([p] + t)[1..] == t;
  }

  lemma {:induction false} RenderParse(path: Text)
    ensures Render(Parse(path)) == path
    decreases |path|
  {
    if path == [] {
    } else if HoleAt(path) {
      var k := NextBrace(path, 1);
      RenderParse(path[k + 1..]);
      RenderCons(Slot(path[1..k]), Parse(path[k + 1..]));
      HoleText(path);
    } else {
      RenderParse(path[1..]);
      RenderCons(Lit([path[0]]), Parse(path[1..]));
      assert path == [path[0]] + path[1..];
    }
  }

  lemma RenderConcatStep(p: Piece, a: Template, b: Template)
    requires Render(a + b) == Render(a) + Render(b)
    ensures Render([p] + a + b) == Render([p] + a) + Render(b)
  {
    AppendAppend([p], a, b);
    RenderCons(p, a + b);
    RenderCons(p, a);
    AppendAppend(PieceText(p), Render(a), Render(b));
  }

  lemma {:induction false} RenderConcat(a: Template, b: Template)
    ensures Render(a + b) == Render(a) + Render(b)
  {
    if a == [] {
      assert a + b == b;
      assert Render([]) + Render(b) == Render(b);
    } else {
      RenderConcat(a[1..], b);
      RenderConcatStep(a[0], a[1..], b);
      assert a == [a[0]] + a[1..];
    }
  }

  // ---- The condition ----

  /** No closing brace follows an opening one; `open` says one came before. */
  predicate OkText(s: Text, open: bool) {
    if s == [] then true
    else if s[0] == CLOSE then !open && OkText(s[1..], open)
    else OkText(s[1..], open || s[0] == OPEN)
  }

  /** The same of a template's literal text, placeholders left out. */
  predicate Unclosed(t: Template, open: bool) {
    if t == [] then true
    else if t[0].Slot? then Unclosed(t[1..], open)
    else OkText(t[0].text, open) && Unclosed(t[1..], open || OPEN in t[0].text)
  }

  lemma {:induction false} PlainIsOk(s: Text, open: bool)
    requires NoBraces(s)
    ensures OkText(s, open) && OPEN !in s
  {
    if s != [] { PlainIsOk(s[1..], open); }
  }

  lemma {:induction false} FillKeepsUnclosed(t: Template, name: Text, value: Text, open: bool)
    requires Unclosed(t, open) && NoBraces(value)
    ensures Unclosed(FillOne(t, name, value), open)
    decreases |t|
  {
    if t != [] {
      assert FillOne(t, name, value)[1..] == FillOne(t[1..], name, value);
      if t[0].Slot? {
        PlainIsOk(value, open);
        FillKeepsUnclosed(t[1..], name, value, open);
      } else {
        FillKeepsUnclosed(t[1..], name, value, open || OPEN in t[0].text);
      }
    }
  }

  // ---- Replacement fills exactly the slots ----

  lemma NextBraceCons(b: byte, s: Text)
    ensures NextBrace([b] + s, 0) == if IsBrace(b) then 0 else NextBrace(s, 0) + 1
    ensures NextBrace([b] + s, 1) == NextBrace(s, 0) + 1
  {
    var k := NextBrace(s, 0);
    assert forall i :: 0 <= i < |s| ==> ([b] + s)[i + 1] == s[i];
    NextBraceIs([b] + s, 1, k + 1);
    NextBraceIs([b] + s, 0, if IsBrace(b) then 0 else k + 1);
  }

  lemma NextBraceIs(s: Text, from: nat, k: nat)
    requires from <= k <= |s| && (k < |s| ==> IsBrace(s[k])) && forall i :: from <= i < k ==> !IsBrace(s[i])
    ensures NextBrace(s, from) == k
  {
  }

  /** The next brace, if there is one, opens. */
  predicate OpensNext(x: Text) {
    NextBrace(x, 0) < |x| ==> x[NextBrace(x, 0)] == OPEN
  }

  lemma OpensNextCons(b: byte, s: Text)
    requires b == OPEN || (b != CLOSE && OpensNext(s))
    ensures OpensNext([b] + s)
  {
    NextBraceCons(b, s);
  }

  /** After an opening brace of the literal text no brace closes. */
  lemma {:induction false} OpenFirst(t: Template)
    requires Unclosed(t, true)
    ensures OpensNext(Render(t))
    decreases |t|
  {
    if t == [] {
    } else if t[0].Slot? {
      var rest := t[0].name + [CLOSE] + Render(t[1..]);
      assert Render(t) == [OPEN] + rest;
      OpensNextCons(OPEN, rest);
    } else {
      OpenFirst(t[1..]);
      OpenFirstText(t[0].text, Render(t[1..]));
    }
  }

  lemma {:induction false} OpenFirstText(s: Text, x: Text)
    requires OkText(s, true) && OpensNext(x)
    ensures OpensNext(s + x)
  {
    if s == [] {
      assert s + x == x;
    } else {
      OpenFirstText(s[1..], x);
      assert s + x == [s[0]] + (s[1..] + x);
      OpensNextCons(s[0], s[1..] + x);
    }
  }

  /** A placeholder's first brace after its own closes it. */
  lemma NoMatchAtOpen(x: Text, name: Text)
    requires NoBraces(name) && OpensNext(x)
    ensures !StartsWith([OPEN] + x, Hole(name))
  {
    StartsPointwise([OPEN] + x, Hole(name));
    HoleCloses(name);
    if |name| < |x| && x[|name|] == CLOSE && forall i :: 0 <= i < |name| ==> x[i] == name[i] {
      NextBraceIs(x, 0, |name|);
    }
    assert forall i :: 0 <= i < |x| ==> ([OPEN] + x)[i + 1] == x[i];
    assert forall i :: 0 <= i < |name| ==> Hole(name)[i + 1] == name[i];
  }

  /** Unclosed literal text is skipped over. */
  lemma {:induction false} ReplaceSkipsText(s: Text, x: Text, open: bool, name: Text, value: Text)
    requires NoBraces(name) && OkText(s, open) && ((open || OPEN in s) ==> OpensNext(x))
    ensures Replace(s + x, Hole(name), value) == s + Replace(x, Hole(name), value)
    decreases |s|
  {
    if s == [] {
      assert s + x == x;
      assert [] + Replace(x, Hole(name), value) == Replace(x, Hole(name), value);
    } else {
      var rest := s[1..];
      ReplaceSkipsText(rest, x, open || s[0] == OPEN, name, value);
      assert s == [s[0]] + rest && s + x == [s[0]] + (rest + x);
      if s[0] == OPEN { OpenFirstText(rest, x); }
      ReplaceSkipsByte(s[0], rest + x, name, value);
      AppendAppend([s[0]], rest, Replace(x, Hole(name), value));
    }
  }

  lemma ReplaceSkipsByte(b: byte, x: Text, name: Text, value: Text)
    requires NoBraces(name) && (b == OPEN ==> OpensNext(x))
    ensures Replace([b] + x, Hole(name), value) == [b] + Replace(x, Hole(name), value)
  {
    assert ([b] + x)[1..] == x;
    StartsPointwise([b] + x, Hole(name));
    assert Hole(name)[0] == OPEN && ([b] + x)[0] == b;
    if b == OPEN { NoMatchAtOpen(x, name); }
  }

  /** One replacement fills one placeholder name throughout, and nothing else. */
  lemma {:induction false} ReplaceFillsUnclosed(t: Template, open: bool, name: Text, value: Text)
    requires Slotted(t) && Unclosed(t, open) && NoBraces(name)
    ensures Replace(Render(t), Hole(name), value) == Render(FillOne(t, name, value))
    decreases |t|
  {
    if t != [] {
      var rest := t[1..];
      assert t == [t[0]] + rest;
      FillOneCons(t[0], rest, name, value);
      match t[0]
      case Slot(m) =>
        ReplaceFillsUnclosed(rest, open, name, value);
        ReplaceHole(m, Render(rest), name, value);
      case Lit(s) =>
        ReplaceFillsUnclosed(rest, open || OPEN in s, name, value);
        if open || OPEN in s { OpenFirst(rest); }
        ReplaceSkipsText(s, Render(rest), open, name, value);
    }
  }

  // ---- Unclosed templates are filled all at once ----

  lemma FillOneSlotted(t: Template, name: Text, value: Text)
    requires Slotted(t)
    ensures Slotted(FillOne(t, name, value))
  {
  }

  /** What the first `n` replacements have made of the path. */
  ghost predicate FilledSoFar(t: Template, pairs: seq<Pair>, n: nat)
    requires n <= |pairs|
  {
    var now := Fill(t, pairs, n);
    Slotted(now) && Unclosed(now, false) && Sequential(Render(t), pairs, n) == Render(now)
  }

  lemma FilledNone(t: Template, pairs: seq<Pair>)
    requires Slotted(t) && Unclosed(t, false)
    ensures FilledSoFar(t, pairs, 0)
  {
    assert Fill(t, pairs, 0) == t;
  }

  lemma EncodedNoBraces(v: Text)
    ensures NoBraces(PercentEncode(v))
  {
    EncodedWithout(OPEN, v);
    EncodedWithout(CLOSE, v);
  }

  lemma FilledNext(t: Template, pairs: seq<Pair>, n: nat)
    requires n < |pairs| && NoBraces(pairs[n].0) && FilledSoFar(t, pairs, n)
    ensures FilledSoFar(t, pairs, n + 1)
  {
    var now, name, value := Fill(t, pairs, n), pairs[n].0, PercentEncode(pairs[n].1);
    FillNext(t, pairs, n);
    FillOneSlotted(now, name, value);
    EncodedNoBraces(pairs[n].1);
    FillKeepsUnclosed(now, name, value, false);
    ReplaceFillsUnclosed(now, false, name, value);
  }

  ghost predicate BraceFreeNames(pairs: seq<Pair>) {
    forall i :: 0 <= i < |pairs| ==> NoBraces(pairs[i].0)
  }

  /** Replacing placeholders one after another is substituting them all at once,
      when no brace of the literal text is closed. */
  lemma SequentialIsSimultaneous(t: Template, pairs: seq<Pair>)
    requires Slotted(t) && Unclosed(t, false) && BraceFreeNames(pairs)
    ensures Sequential(Render(t), pairs, |pairs|) == Render(Fill(t, pairs, |pairs|))
  {
    FilledNone(t, pairs);
    for n := 0 to |pairs|
      invariant FilledSoFar(t, pairs, n)
    {
      FilledNext(t, pairs, n);
    }
  }

  /** The same parameters, each named once, in two orders. */
  ghost predicate Reordered(ps: seq<Pair>, qs: seq<Pair>) {
    NamedOnce(ps) && NamedOnce(qs) && BraceFreeNames(ps) && forall p :: p in ps <==> p in qs
  }

  ghost predicate OrderFree(path: Text) {
    forall ps, qs {:trigger Reordered(ps, qs)} ::
      Reordered(ps, qs) ==> Sequential(path, ps, |ps|) == Sequential(path, qs, |qs|)
  }

  lemma UnclosedIsOrderFree(path: Text)
    requires Unclosed(Parse(path), false)
    ensures OrderFree(path)
  {
    RenderParse(path);
    forall ps: seq<Pair>, qs: seq<Pair> | Reordered(ps, qs)
      ensures Sequential(path, ps, |ps|) == Sequential(path, qs, |qs|)
    {
      forall i | 0 <= i < |qs| ensures NoBraces(qs[i].0) {
        assert qs[i] in ps;
      }
      SequentialIsSimultaneous(Parse(path), ps);
      SequentialIsSimultaneous(Parse(path), qs);
      FillUnordered(Parse(path), ps, qs);
    }
  }

  // ---- A closed brace encloses a placeholder ----

  ghost predicate HasSlot(r: Template) {
    exists i :: 0 <= i < |r| && r[i].Slot?
  }

  /** Literal braces around tidy text with at least one placeholder in it. */
  ghost predicate Encloses(path: Text, a: Text, r: Template, b: Text) {
    Tidy(r) && HasSlot(r) && path == a + (([OPEN] + Render(r) + [CLOSE]) + b)
  }

  ghost predicate Nested(path: Text) {
    exists a, r, b :: Encloses(path, a, r, b)
  }

  lemma SlotInTail(r: Template)
    requires r != []
    ensures HasSlot(r[1..]) ==> HasSlot(r)
  {
    if i :| 0 <= i < |r[1..]| && r[1..][i].Slot? {
      assert r[i + 1].Slot?;
    }
  }

  lemma {:induction false} NoSlotNoBraces(r: Template)
    requires Tidy(r) && !HasSlot(r)
    ensures NoBraces(Render(r))
  {
    if r != [] {
      SlotInTail(r);
      NoSlotNoBraces(r[1..]);
      assert !r[0].Slot?;
    }
  }

  lemma WholeHole(r: Template, s: Text)
    requires Tidy(r) && !HasSlot(r) && s != [] && s[0] == CLOSE
    ensures HoleAt([OPEN] + (Render(r) + s))
  {
    NoSlotNoBraces(r);
    var x := [OPEN] + (Render(r) + s);
    NextBraceIs(x, 1, |Render(r)| + 1);
  }

  lemma RenderSnoc(r: Template, p: Piece)
    ensures Render(r + [p]) == Render(r) + PieceText(p)
  {
    RenderConcat(r, [p]);
    assert [p][1..] == [] && Render([p]) == PieceText(p) + Render([]);
    assert PieceText(p) + [] == PieceText(p);
  }

  lemma TidySnoc(r: Template, p: Piece)
    requires Tidy(r) && NoBraces(match p case Lit(text) => text case Slot(name) => name)
    ensures Tidy(r + [p]) && (HasSlot(r + [p]) <==> p.Slot? || HasSlot(r))
    ensures Render(r + [p]) == Render(r) + PieceText(p)
  {
    RenderSnoc(r, p);
    if p.Slot? { assert (r + [p])[|r|].Slot?; }
    if HasSlot(r) {
      var i :| 0 <= i < |r| && r[i].Slot?;
      assert (r + [p])[i].Slot?;
    }
  }

  /** Reading one piece more of a path. */
  lemma ParseStep(s: Text, open: bool)
    requires s != []
    ensures Unclosed(Parse(s), open) ==
      if HoleAt(s) then Unclosed(Parse(s[NextBrace(s, 1) + 1..]), open)
      else if s[0] == CLOSE then !open && Unclosed(Parse(s[1..]), open)
      else Unclosed(Parse(s[1..]), open || s[0] == OPEN)
  {
    var p := if HoleAt(s) then Slot(s[1..NextBrace(s, 1)]) else Lit([s[0]]);
    var rest := if HoleAt(s) then Parse(s[NextBrace(s, 1) + 1..]) else Parse(s[1..]);
    assert Parse(s) == [p] + rest;
    UnclosedCons(p, rest, open);
    if p.Lit? { OneByte(s[0], open); }
  }

  lemma UnclosedCons(p: Piece, t: Template, open: bool)
    ensures Unclosed([p] + t, open) ==
      if p.Slot? then Unclosed(t, open) else OkText(p.text, open) && Unclosed(t, open || OPEN in p.text)
  {
    assert ([p] + t)[1..] == t;
  }

  lemma OneByte(b: byte, open: bool)
    ensures OkText([b], open) == (b == CLOSE ==> !open)
    ensures OPEN in [b] <==> b == OPEN
  {
    assert [b][1..] == [];
  }

  /** After `a` and a literal opening brace comes `r`, then what is left to read. */
  function Reading(a: Text, r: Template, s: Text): Text {
    a + ([OPEN] + (Render(r) + s))
  }

  ghost predicate Open(r: Template, s: Text) {
    Tidy(r) && !Unclosed(Parse(s), true) && (!HasSlot(r) ==> !HoleAt([OPEN] + (Render(r) + s)))
  }

  lemma ReadSlot(a: Text, r: Template, s: Text)
    requires Open(r, s) && HoleAt(s)
    ensures var (k, p) := (NextBrace(s, 1), Slot(s[1..NextBrace(s, 1)]));
      Open(r + [p], s[k + 1..]) && Reading(a, r, s) == Reading(a, r + [p], s[k + 1..])
  {
    var k := NextBrace(s, 1);
    HoleText(s);
    ParseStep(s, true);
    TidySnoc(r, Slot(s[1..k]));
    AppendAppend(Render(r), Hole(s[1..k]), s[k + 1..]);
  }

  lemma ReadByte(a: Text, r: Template, s: Text)
    requires Open(r, s) && s != [] && !IsBrace(s[0])
    ensures Open(r + [Lit([s[0]])], s[1..]) && Reading(a, r, s) == Reading(a, r + [Lit([s[0]])], s[1..])
  {
    ParseStep(s, true);
    TidySnoc(r, Lit([s[0]]));
    assert s == [s[0]] + s[1..];
    AppendAppend(Render(r), [s[0]], s[1..]);
  }

  lemma ReadOpen(a: Text, r: Template, s: Text)
    requires Open(r, s) && s != [] && s[0] == OPEN && !HoleAt(s)
    ensures Open([], s[1..]) && Reading(a, r, s) == Reading(a + ([OPEN] + Render(r)), [], s[1..])
  {
    ParseStep(s, true);
    StartReading(s);
    AppendAppend([OPEN], Render(r), s);
    AppendAppend(a, [OPEN] + Render(r), s);
  }

  lemma StartReading(s: Text)
    requires s != [] && s[0] == OPEN
    ensures [OPEN] + (Render([]) + s[1..]) == s
  {
    assert Render([]) + s[1..] == s[1..];
    assert s == [s[0]] + s[1..];
  }

  lemma ReadClose(a: Text, r: Template, s: Text)
    requires Open(r, s) && s != [] && s[0] == CLOSE
    ensures Encloses(Reading(a, r, s), a, r, s[1..])
  {
    if !HasSlot(r) { WholeHole(r, s); }
    assert s == [CLOSE] + s[1..];
    AppendAppend(Render(r), [CLOSE], s[1..]);
    AppendAppend([OPEN], Render(r) + [CLOSE], s[1..]);
    AppendAppend([OPEN], Render(r), [CLOSE]);
  }

  lemma {:induction false} FindClosing(a: Text, r: Template, s: Text) returns (a': Text, r': Template, b: Text)
    requires Open(r, s)
    ensures Encloses(Reading(a, r, s), a', r', b)
    decreases |s|
  {
    if HoleAt(s) {
      ReadSlot(a, r, s);
      a', r', b := FindClosing(a, r + [Slot(s[1..NextBrace(s, 1)])], s[NextBrace(s, 1) + 1..]);
    } else if s[0] == CLOSE {
      ReadClose(a, r, s);
      a', r', b := a, r, s[1..];
    } else if s[0] == OPEN {
      ReadOpen(a, r, s);
      a', r', b := FindClosing(a + ([OPEN] + Render(r)), [], s[1..]);
    } else {
      ReadByte(a, r, s);
      a', r', b := FindClosing(a, r + [Lit([s[0]])], s[1..]);
    }
  }

  lemma MoveLeft(a: Text, s: Text, k: nat)
    requires k <= |s|
    ensures a + s == (a + s[..k]) + s[k..]
  {
  }

  lemma OpenHere(a: Text, s: Text)
    requires s != [] && s[0] == OPEN && !HoleAt(s) && !Unclosed(Parse(s), false)
    ensures Open([], s[1..]) && Reading(a, [], s[1..]) == a + s
  {
    ParseStep(s, false);
    StartReading(s);
  }

  lemma NotYetOpen(s: Text)
    requires !Unclosed(Parse(s), false)
    ensures s != []
    ensures HoleAt(s) ==> !Unclosed(Parse(s[NextBrace(s, 1) + 1..]), false)
    ensures !HoleAt(s) && s[0] != OPEN ==> !Unclosed(Parse(s[1..]), false)
  {
    if s != [] { ParseStep(s, false); }
  }

  lemma {:induction false} FindOpening(a: Text, s: Text) returns (a': Text, r: Template, b: Text)
    requires !Unclosed(Parse(s), false)
    ensures Encloses(a + s, a', r, b)
    decreases |s|
  {
    NotYetOpen(s);
    if !HoleAt(s) && s[0] == OPEN {
      OpenHere(a, s);
      a', r, b := FindClosing(a, [], s[1..]);
    } else {
      var k := if HoleAt(s) then NextBrace(s, 1) + 1 else 1;
      MoveLeft(a, s, k);
      a', r, b := FindOpening(a + s[..k], s[k..]);
    }
  }

  // ---- An enclosed placeholder makes order matter ----

  lemma FillOneSplit(p: Piece, r: Template, name: Text, value: Text)
    ensures FillOne([p] + r, name, value) == [FillPiece(p, name, value)] + FillOne(r, name, value)
  {
  }

  lemma FillOneCons(p: Piece, r: Template, name: Text, value: Text)
    ensures Render(FillOne([p] + r, name, value)) ==
      PieceText(FillPiece(p, name, value)) + Render(FillOne(r, name, value))
  {
    FillOneSplit(p, r, name, value);
    RenderCons(FillPiece(p, name, value), FillOne(r, name, value));
  }

  lemma FillsBeforeStep(p: Piece, r: Template, x: Text, name: Text, value: Text)
    requires NoBraces(match p case Lit(text) => text case Slot(m) => m) && NoBraces(name)
    requires Replace(Render(r) + x, Hole(name), value) ==
      Render(FillOne(r, name, value)) + Replace(x, Hole(name), value)
    ensures Replace(Render([p] + r) + x, Hole(name), value) ==
      Render(FillOne([p] + r, name, value)) + Replace(x, Hole(name), value)
  {
    RenderCons(p, r);
    AppendAppend(PieceText(p), Render(r), x);
    FillsPiece(p, Render(r) + x, name, value);
    FillOneCons(p, r, name, value);
    var done := Render(FillOne(r, name, value));
    AppendAppend(PieceText(FillPiece(p, name, value)), done, Replace(x, Hole(name), value));
  }

  lemma {:induction false} FillsBefore(r: Template, x: Text, name: Text, value: Text)
    requires Tidy(r) && NoBraces(name)
    ensures Replace(Render(r) + x, Hole(name), value) == Render(FillOne(r, name, value)) + Replace(x, Hole(name), value)
    decreases |r|
  {
    if r == [] {
      assert Render(r) + x == x;
      assert FillOne(r, name, value) == [] && [] + Replace(x, Hole(name), value) == Replace(x, Hole(name), value);
    } else {
      FillsBefore(r[1..], x, name, value);
      FillsBeforeStep(r[0], r[1..], x, name, value);
      assert r == [r[0]] + r[1..];
    }
  }

  lemma FillsPiece(p: Piece, y: Text, name: Text, value: Text)
    requires NoBraces(match p case Lit(text) => text case Slot(m) => m) && NoBraces(name)
    ensures Replace(PieceText(p) + y, Hole(name), value) ==
      PieceText(FillPiece(p, name, value)) + Replace(y, Hole(name), value)
  {
    match p
    case Lit(text) => ReplaceSkips(text, y, name, value);
    case Slot(m) => ReplaceHole(m, y, name, value);
  }

  lemma HoleOpens(name: Text, x: Text)
    ensures OpensNext(Hole(name) + x)
  {
    assert Hole(name) + x == [OPEN] + (name + [CLOSE] + x);
    OpensNextCons(OPEN, name + [CLOSE] + x);
  }

  lemma {:induction false} SlotOpensNext(r: Template, y: Text)
    requires Tidy(r) && HasSlot(r)
    ensures OpensNext(Render(r) + y)
    decreases |r|
  {
    var rest := Render(r[1..]) + y;
    AppendAppend(PieceText(r[0]), Render(r[1..]), y);
    if r[0].Slot? {
      HoleOpens(r[0].name, rest);
    } else {
      SlotLater(r);
      SlotOpensNext(r[1..], y);
      assert NoBraces(r[0].text);
      PlainIsOk(r[0].text, true);
      OpenFirstText(r[0].text, rest);
    }
  }

  lemma SlotLater(r: Template)
    requires Tidy(r) && HasSlot(r) && !r[0].Slot?
    ensures Tidy(r[1..]) && HasSlot(r[1..])
  {
    var i :| 0 <= i < |r| && r[i].Slot?;
    assert r[1..][i - 1].Slot?;
  }

  /** The enclosing braces are not themselves a placeholder of that name. */
  lemma OuterMisses(r: Template, b: Text, name: Text)
    requires Tidy(r) && NoBraces(name) && Render(r) != name
    ensures !StartsWith([OPEN] + (Render(r) + ([CLOSE] + b)), Hole(name))
  {
    if HasSlot(r) {
      SlotOpensNext(r, [CLOSE] + b);
      NoMatchAtOpen(Render(r) + ([CLOSE] + b), name);
    } else {
      NoSlotNoBraces(r);
      HoleMatches(Render(r), b, name);
      assert Hole(Render(r)) + b == [OPEN] + (Render(r) + ([CLOSE] + b));
    }
  }

  lemma ReplaceMiss(t: Text, name: Text, value: Text)
    requires t != [] && !StartsWith(t, Hole(name))
    ensures Replace(t, Hole(name), value) == [t[0]] + Replace(t[1..], Hole(name), value)
  {
  }

  function Closed(r: Template, b: Text): Text {
    [OPEN] + (Render(r) + ([CLOSE] + b))
  }

  lemma ReplaceInside(r: Template, b: Text, name: Text, value: Text)
    requires Tidy(r) && NoBraces(name) && Render(r) != name
    ensures Replace(Closed(r, b), Hole(name), value) == Closed(FillOne(r, name, value), Replace(b, Hole(name), value))
  {
    var inner := Render(r) + ([CLOSE] + b);
    OuterMisses(r, b, name);
    ReplaceMiss(Closed(r, b), name, value);
    assert Closed(r, b)[1..] == inner;
    FillsBefore(r, [CLOSE] + b, name, value);
    ReplaceSkipsByte(CLOSE, b, name, value);
  }

  /** A match never straddles an opening brace. */
  lemma {:induction false} ReplaceAfter(a: Text, x: Text, name: Text, value: Text) returns (a': Text)
    requires x != [] && x[0] == OPEN && NoBraces(name)
    ensures Replace(a + x, Hole(name), value) == a' + Replace(x, Hole(name), value)
    decreases |a|
  {
    var p := Hole(name);
    if a == [] {
      assert a + x == x && [] + Replace(x, p, value) == Replace(x, p, value);
      a' := [];
    } else if StartsWith(a + x, p) {
      MatchFits(a, x, name);
      a' := ReplaceAfter(a[|p|..], x, name, value);
      assert (a + x)[|p|..] == a[|p|..] + x;
      AppendAppend(value, a', Replace(x, p, value));
      a' := value + a';
    } else {
      a' := ReplaceAfter(a[1..], x, name, value);
      assert (a + x)[1..] == a[1..] + x;
      AppendAppend([a[0]], a', Replace(x, p, value));
      a' := [a[0]] + a';
    }
  }

  lemma MatchFits(a: Text, x: Text, name: Text)
    requires a != [] && x != [] && x[0] == OPEN && NoBraces(name) && StartsWith(a + x, Hole(name))
    ensures |Hole(name)| <= |a|
  {
    StartsPointwise(a + x, Hole(name));
    assert (a + x)[|a|] == OPEN;
    assert forall i :: 0 < i < |Hole(name)| ==> Hole(name)[i] != OPEN;
  }

  /** Somewhere in the path, `r` stands between braces. */
  ghost predicate Around(path: Text, a: Text, r: Template, b: Text) {
    path == a + Closed(r, b)
  }

  lemma AroundStays(path: Text, a: Text, r: Template, b: Text, name: Text, value: Text) returns (a': Text, b': Text)
    requires Around(path, a, r, b) && Tidy(r) && NoBraces(name) && Render(r) != name
    ensures Around(Replace(path, Hole(name), value), a', FillOne(r, name, value), b')
  {
    a' := ReplaceAfter(a, Closed(r, b), name, value);
    b' := Replace(b, Hole(name), value);
    ReplaceInside(r, b, name, value);
  }

  // ---- The parameters that show it ----

  function SlotNames(r: Template): (names: seq<Text>) {
    if r == [] then []
    else
      var rest := SlotNames(r[1..]);
      if r[0].Slot? && r[0].name !in rest then [r[0].name] + rest else rest
  }

  lemma {:induction false} SlotNamesDistinct(r: Template)
    ensures Distinct(SlotNames(r))
  {
    if r != [] { SlotNamesDistinct(r[1..]); }
  }

  lemma {:induction false} SlotNamesAll(r: Template, i: nat)
    requires i < |r| && r[i].Slot?
    ensures r[i].name in SlotNames(r)
  {
    if i > 0 {
      assert r[1..][i - 1] == r[i];
      SlotNamesAll(r[1..], i - 1);
    }
  }

  lemma {:induction false} SlotNameFits(r: Template, name: Text)
    requires Tidy(r) && name in SlotNames(r)
    ensures NoBraces(name) && |name| <= |Render(r)|
  {
    assert Tidy(r[1..]);
    if name in SlotNames(r[1..]) {
      SlotNameFits(r[1..], name);
    } else {
      assert r[0] == Slot(name);
    }
  }

  lemma SlotNamesAre(r: Template)
    requires Tidy(r)
    ensures Distinct(SlotNames(r))
    ensures forall i :: 0 <= i < |r| && r[i].Slot? ==> r[i].name in SlotNames(r)
    ensures forall name :: name in SlotNames(r) ==> NoBraces(name) && |name| <= |Render(r)|
  {
    SlotNamesDistinct(r);
    forall i | 0 <= i < |r| && r[i].Slot? ensures r[i].name in SlotNames(r) {
      SlotNamesAll(r, i);
    }
    forall name | name in SlotNames(r) ensures NoBraces(name) && |name| <= |Render(r)| {
      SlotNameFits(r, name);
    }
  }

  /** Every name with one and the same value. */
  function Given(names: seq<Text>, value: Text): seq<Pair> {
    seq(|names|, i requires 0 <= i < |names| => (names[i], value))
  }

  lemma {:induction false} GivenLookup(names: seq<Text>, value: Text, n: nat, name: Text)
    requires n <= |names|
    ensures Lookup(Given(names, value), n, name) == if name in names[..n] then Some(value) else None
  {
    if n > 0 {
      GivenLookup(names, value, n - 1, name);
      assert names[..n] == names[..n - 1] + [names[n - 1]];
    }
  }

  lemma {:induction false} EncodedNoShorter(v: Text)
    ensures |PercentEncode(v)| >= |v|
  {
    if v != [] { EncodedNoShorter(v[1..]); }
  }

  lemma {:induction false} PieceInside(t: Template, j: nat) returns (before: Text, after: Text)
    requires j < |t|
    ensures Render(t) == before + PieceText(t[j]) + after
  {
    if j == 0 {
      before, after := [], Render(t[1..]);
    } else {
      before, after := PieceInside(t[1..], j - 1);
      before := PieceText(t[0]) + before;
    }
  }

  /** While `r` is being filled with a long value, it never spells a short name. */
  lemma NeverSpells(r: Template, names: seq<Text>, value: Text, n: nat, name: Text)
    requires Tidy(r) && HasSlot(r) && n <= |names| && NoBraces(name) && |name| < |value|
    ensures Render(Fill(r, Given(names, value), n)) != name
  {
    var j :| 0 <= j < |r| && r[j].Slot?;
    var now := Fill(r, Given(names, value), n);
    var before, after := PieceInside(now, j);
    GivenLookup(names, value, n, r[j].name);
    EncodedNoShorter(value);
    if now[j].Slot? { assert Render(now)[|before|] == OPEN; }
  }

  lemma FilledAroundNext(path: Text, a: Text, r: Template, b: Text, names: seq<Text>, value: Text, n: nat)
      returns (a': Text, b': Text)
    requires Tidy(r) && HasSlot(r) && n < |names| && NoBraces(names[n]) && |names[n]| < |value|
    requires Around(Sequential(path, Given(names, value), n), a, Fill(r, Given(names, value), n), b)
    ensures Around(Sequential(path, Given(names, value), n + 1), a', Fill(r, Given(names, value), n + 1), b')
  {
    var given := Given(names, value);
    NeverSpells(r, names, value, n, names[n]);
    FillKeepsTidy(r, given, n);
    FillNext(r, given, n);
    a', b' := AroundStays(Sequential(path, given, n), a, Fill(r, given, n), b, names[n], PercentEncode(value));
  }

  lemma AroundAtFirst(path: Text, a: Text, r: Template, b: Text, names: seq<Text>, value: Text)
    requires Around(path, a, r, b)
    ensures Around(Sequential(path, Given(names, value), 0), a, Fill(r, Given(names, value), 0), b)
  {
    assert Fill(r, Given(names, value), 0) == r;
  }

  /** After `n` of the replacements `r` still stands between braces, filled so far. */
  ghost predicate AroundAt(path: Text, r: Template, names: seq<Text>, value: Text, n: nat)
    requires n <= |names|
  {
    exists a, b :: Around(Sequential(path, Given(names, value), n), a, Fill(r, Given(names, value), n), b)
  }

  lemma AroundNext(path: Text, r: Template, names: seq<Text>, value: Text, n: nat)
    requires Tidy(r) && HasSlot(r) && n < |names| && NoBraces(names[n]) && |names[n]| < |value|
    requires AroundAt(path, r, names, value, n)
    ensures AroundAt(path, r, names, value, n + 1)
  {
    var a, b :| Around(Sequential(path, Given(names, value), n), a, Fill(r, Given(names, value), n), b);
    var a', b' := FilledAroundNext(path, a, r, b, names, value, n);
  }

  ghost function AroundUpTo(path: Text, r: Template, names: seq<Text>, value: Text): nat -> bool {
    (n: nat) => n <= |names| && AroundAt(path, r, names, value, n)
  }

  lemma AroundCarries(path: Text, r: Template, names: seq<Text>, value: Text, n: nat)
    requires Tidy(r) && HasSlot(r) && n < |names| && NoBraces(names[n]) && |names[n]| < |value|
    ensures Carried(AroundUpTo(path, r, names, value), n)
  {
    if AroundAt(path, r, names, value, n) { AroundNext(path, r, names, value, n); }
  }

  lemma FilledAround(path: Text, a: Text, r: Template, b: Text, names: seq<Text>, value: Text)
    requires Around(path, a, r, b) && Tidy(r) && HasSlot(r)
    requires forall i :: 0 <= i < |names| ==> NoBraces(names[i]) && |names[i]| < |value|
    ensures AroundUpTo(path, r, names, value)(|names|)
  {
    var p := AroundUpTo(path, r, names, value);
    AroundAtFirst(path, a, r, b, names, value);
    forall n: nat | n < |names| ensures Carried(p, n) {
      AroundCarries(path, r, names, value, n);
    }
    Upward(p, |names|);
  }

  // ---- A placeholder spelt by the values ----

  lemma {:induction false} ReplaceTooLong(t: Text, p: Text, value: Text)
    requires |p| > |t|
    ensures Replace(t, p, value) == t
  {
    if t != [] {
      ReplaceTooLong(t[1..], p, value);
      assert t == [t[0]] + t[1..];
    }
  }

  lemma {:induction false} RemoveShrinks(t: Text, p: Text)
    requires p != []
    ensures |Replace(t, p, [])| <= |t|
    ensures |Replace(t, p, [])| == |t| ==> forall i :: 0 <= i <= |t| ==> !StartsWith(t[i..], p)
    decreases |t|
  {
    if t == [] {
    } else if StartsWith(t, p) {
      RemoveShrinks(t[|p|..], p);
    } else {
      RemoveShrinks(t[1..], p);
      forall i | 0 <= i <= |t| && |Replace(t, p, [])| == |t| ensures !StartsWith(t[i..], p) {
        if i > 0 { assert t[i..] == t[1..][i - 1..]; } else { assert t[0..] == t; }
      }
    }
  }

  lemma {:induction false} SequentialAfterNothing(path: Text, first: Pair, pairs: seq<Pair>, n: nat)
    requires n <= |pairs| && Replace(path, Hole(first.0), PercentEncode(first.1)) == path
    ensures Sequential(path, [first] + pairs, n + 1) == Sequential(path, pairs, n)
  {
    if n > 0 {
      SequentialAfterNothing(path, first, pairs, n - 1);
      assert ([first] + pairs)[n] == pairs[n - 1];
    } else {
      assert Sequential(path, [first] + pairs, 0) == path;
    }
  }

  /** With every slot given the same long value, `r` spells a long new name. */
  lemma SpeltName(r: Template, value: Text)
    requires Tidy(r) && HasSlot(r)
    ensures var (names, given) := (SlotNames(r), Given(SlotNames(r), value));
      NoBraces(Render(Fill(r, given, |names|))) && |Render(Fill(r, given, |names|))| >= |value|
  {
    var names, given := SlotNames(r), Given(SlotNames(r), value);
    var full := Fill(r, given, |names|);
    SlotNamesAre(r);
    assert names[..|names|] == names;
    forall i | 0 <= i < |r| ensures !full[i].Slot? && (r[i].Slot? ==> full[i] == Lit(PercentEncode(value))) {
      if r[i].Slot? { GivenLookup(names, value, |names|, r[i].name); }
    }
    FillKeepsTidy(r, given, |names|);
    NoSlotNoBraces(full);
    var j :| 0 <= j < |r| && r[j].Slot?;
    var before, after := PieceInside(full, j);
    EncodedNoShorter(value);
  }

  lemma GivenOnce(names: seq<Text>, value: Text, extra: Text)
    requires Distinct(names) && extra !in names && NoBraces(extra)
    requires forall i :: 0 <= i < |names| ==> NoBraces(names[i])
    ensures Reordered(Given(names, value) + [(extra, [])], [(extra, [])] + Given(names, value))
  {
    var given := Given(names, value);
    forall i | 0 <= i < |given| ensures given[i].0 != extra {
      assert given[i].0 in names;
    }
  }

  /** The last replacement removes a placeholder that only the values spelt. */
  lemma ExtraMatters(path: Text, given: seq<Pair>, name: Text, a: Text, b: Text)
    requires Sequential(path, given, |given|) == a + (Hole(name) + b) && |name| > |path|
    ensures var (ps, qs) := (given + [(name, [])], [(name, [])] + given);
      Sequential(path, ps, |ps|) != Sequential(path, qs, |qs|)
  {
    var s := Sequential(path, given, |given|);
    SequentialSnoc(path, given, (name, []));
    assert PercentEncode([]) == [];
    ReplaceTooLong(path, Hole(name), []);
    SequentialAfterNothing(path, (name, []), given, |given|);
    RemoveShrinks(s, Hole(name));
    assert s[|a|..] == Hole(name) + b;
    assert StartsWith(s[|a|..], Hole(name));
  }

  /** Literal braces closed around a placeholder make the order matter: there
      are parameters, all brace-free, that give two different paths. */
  lemma EnclosedIsNotOrderFree(path: Text, a: Text, r: Template, b: Text) returns (ps: seq<Pair>, qs: seq<Pair>)
    requires Encloses(path, a, r, b)
    ensures Reordered(ps, qs) && Sequential(path, ps, |ps|) != Sequential(path, qs, |qs|)
  {
    var names := SlotNames(r);
    var value: Text := seq(|path| + 1, i => 120);
    var given := Given(names, value);
    SlotNamesAre(r);
    ClosedText(r, b);
    assert |Render(r)| <= |path|;
    FilledAround(path, a, r, b, names, value);
    var a', b' :| Around(Sequential(path, given, |names|), a', Fill(r, given, |names|), b');
    var spelt := Render(Fill(r, given, |names|));
    SpeltName(r, value);
    ClosedText(Fill(r, given, |names|), b');
    ps, qs := given + [(spelt, [])], [(spelt, [])] + given;
    GivenOnce(names, value, spelt);
    ExtraMatters(path, given, spelt, a', b');
  }

  lemma ClosedText(r: Template, b: Text)
    ensures Closed(r, b) == ([OPEN] + Render(r) + [CLOSE]) + b
    ensures Closed(r, b) == Hole(Render(r)) + b
  {
    AppendAppend(Render(r), [CLOSE], b);
    AppendAppend([OPEN], Render(r) + [CLOSE], b);
    AppendAppend([OPEN], Render(r), [CLOSE]);
  }

  /** Exactly the paths whose literal braces enclose no placeholder are filled the
      same way in every order; and that is decided by one scan of the path. */
  lemma OrderFreeExactly(path: Text)
    ensures OrderFree(path) <==> !Nested(path)
    ensures OrderFree(path) <==> Unclosed(Parse(path), false)
  {
    if Unclosed(Parse(path), false) {
      UnclosedIsOrderFree(path);
    } else {
      var a, r, b := FindOpening([], path);
      assert [] + path == path;
      assert Encloses(path, a, r, b);
    }
    if Nested(path) {
      var a, r, b :| Encloses(path, a, r, b);
      var ps, qs := EnclosedIsNotOrderFree(path, a, r, b);
      assert Reordered(ps, qs);
    }
  }
}
