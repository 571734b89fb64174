/** What the length-framed reader makes of any header block, whoever wrote it:
    lines with LF or CRLF ends up to a blank one, among them a Content-Length in
    any case, with white space around its name and value. */
module HeaderBlocks {
  import opened Prelude
  import opened Framing
  import Decimal

  // ---- Texts ----

  predicate White(b: Bytes) {
    forall i :: 0 <= i < |b| ==> b[i] == 32 || b[i] == 9 || b[i] == 10 || b[i] == 12 || b[i] == 13
  }

  /** Nothing, or a text with no white space at either end. */
  predicate Bare(b: Bytes) {
    b == [] || !(White([b[0]]) || White([b[|b| - 1]]))
  }

  predicate NoColon(b: Bytes) {
    forall i :: 0 <= i < |b| ==> b[i] != 58
  }

  /** "content-length" in any mixture of cases. */
  predicate NamesLength(b: Bytes) {
    && |b| == 14
    && var spelt := "content-length";
      forall i :: 0 <= i < 14 ==>
        b[i] as int == spelt[i] as int || (spelt[i] != '-' && b[i] as int == spelt[i] as int - 32)
  }

  lemma {:induction false} StartTrims(a: Bytes, x: Bytes)
    requires White(a)
    ensures TrimStart(a + x) == TrimStart(x)
  {
    if a == [] {
      assert a + x == x;
    } else {
      StartTrims(a[1..], x);
      assert (a + x)[1..] == a[1..] + x;
    }
  }

  lemma {:induction false} EndTrims(x: Bytes, b: Bytes)
    requires White(b)
    ensures TrimEnd(x + b) == TrimEnd(x)
  {
    if b == [] {
      assert x + b == x;
    } else {
      EndTrims(x, b[..|b| - 1]);
      assert (x + b)[..|x + b| - 1] == x + b[..|b| - 1];
    }
  }

  lemma {:induction false} WhiteTrims(b: Bytes)
    requires White(b)
    ensures TrimStart(b) == [] && TrimEnd(b) == []
  {
    StartTrims(b, []);
    assert b + [] == b && [] + b == b;
    EndTrims([], b);
  }

  /** White space around a bare text, and only that, is trimmed off. */
  lemma Trims(a: Bytes, x: Bytes, b: Bytes)
    requires White(a) && White(b) && Bare(x)
    ensures Trim(a + x + b) == x
  {
    assert a + x + b == a + (x + b);
    StartTrims(a, x + b);
    if x == [] {
      assert x + b == b;
      WhiteTrims(b);
    } else {
      assert (x + b)[0] == x[0];
      assert !IsSpace(x[0]) by { assert !White([x[0]]); }
      assert TrimStart(x + b) == x + b;
      EndTrims(x, b);
      assert !IsSpace(x[|x| - 1]) by { assert !White([x[|x| - 1]]); }
    }
  }

  /** Every text is white space around a bare one. */
  lemma {:induction false} Trimmed(t: Bytes) returns (a: Bytes, x: Bytes, b: Bytes)
    ensures White(a) && White(b) && Bare(x) && t == a + x + b
    decreases |t|
  {
    if t == [] {
      a, x, b := [], [], [];
    } else if White([t[0]]) {
      a, x, b := Trimmed(t[1..]);
      assert t == [t[0]] + t[1..];
      assert [t[0]] + (a + x + b) == ([t[0]] + a) + x + b;
      a := [t[0]] + a;
    } else if White([t[|t| - 1]]) {
      var init := t[..|t| - 1];
      a, x, b := Trimmed(init);
      assert t == init + [t[|t| - 1]];
      assert (a + x + b) + [t[|t| - 1]] == a + x + (b + [t[|t| - 1]]);
      b := b + [t[|t| - 1]];
    } else {
      a, x, b := [], t, [];
    }
  }

  lemma NamesLengthIs(b: Bytes)
    ensures NamesLength(b) <==> IsContentLength(b)
  {
    var spelt := "content-length";
    assert forall i :: 0 <= i < 14 ==> CONTENT_LENGTH[i] as int == spelt[i] as int;
    if |b| == 14 {
      forall i | 0 <= i < 14
        ensures Lower(b[i]) == CONTENT_LENGTH[i] <==>
          b[i] as int == spelt[i] as int || (spelt[i] != '-' && b[i] as int == spelt[i] as int - 32)
      {
        LetterAt(b[i], i);
      }
    }
  }

  lemma LetterAt(b: byte, i: nat)
    requires i < 14
    ensures var c := "content-length"[i] as int;
      Lower(b) as int == c <==> b as int == c || ("content-length"[i] != '-' && b as int == c - 32)
  {
    assert "content-length"[i] == '-' || 'a' <= "content-length"[i] <= 'z';
  }

  // ---- Numbers ----

  function ZeroDigits(k: nat): Bytes {
    seq(k, i => 48)
  }

  /** A number as a writer may put it: perhaps a plus, perhaps leading zeros. */
  function NumberText(plus: bool, zeros: nat, n: nat): Bytes {
    (if plus then [43] else []) + (ZeroDigits(zeros) + DecimalBytes(n))
  }

  lemma {:induction false} ZerosCount(k: nat, d: Bytes)
    requires Digits(d)
    ensures Digits(ZeroDigits(k) + d) && NumberOf(ZeroDigits(k) + d) == NumberOf(d)
    decreases |d|
  {
    var s := ZeroDigits(k) + d;
    if d == [] {
      assert s == ZeroDigits(k);
      ZerosAreZero(k);
    } else {
      ZerosCount(k, d[..|d| - 1]);
      assert s[..|s| - 1] == ZeroDigits(k) + d[..|d| - 1];
    }
  }

  lemma {:induction false} ZerosAreZero(k: nat)
    ensures Digits(ZeroDigits(k)) && NumberOf(ZeroDigits(k)) == 0
  {
    if k > 0 {
      ZerosAreZero(k - 1);
      assert ZeroDigits(k)[..k - 1] == ZeroDigits(k - 1);
    }
  }

  lemma DecimalSnoc(n: nat, c: byte)
    requires n % 10 == c as int - 48
    ensures n >= 10 ==> DecimalBytes(n) == DecimalBytes(n / 10) + [c]
    ensures n < 10 ==> DecimalBytes(n) == [c]
  {
  }

  lemma NumberSnoc(init: Bytes, c: byte)
    requires Digits(init) && IsDigit(c)
    ensures Digits(init + [c]) && NumberOf(init + [c]) == NumberOf(init) * 10 + (c as int - 48)
  {
    assert (init + [c])[..|init|] == init;
  }

  /** One more digit of a number behind zeros. */
  lemma DecimalGrows(zeros: nat, m: nat, c: byte) returns (zeros': nat)
    requires IsDigit(c)
    ensures ZeroDigits(zeros) + DecimalBytes(m) + [c] == ZeroDigits(zeros') + DecimalBytes(m * 10 + (c as int - 48))
  {
    var n := m * 10 + (c as int - 48);
    DecimalSnoc(n, c);
    zeros' := zeros;
    if m == 0 {
      DecimalSnoc(0, 48);
      zeros' := zeros + 1;
      assert ZeroDigits(zeros) + [48] == ZeroDigits(zeros');
    }
  }

  /** Digits that denote `n` are its decimal form behind some zeros. */
  lemma {:induction false} DigitsAreDecimal(d: Bytes) returns (zeros: nat)
    requires d != [] && Digits(d)
    ensures d == ZeroDigits(zeros) + DecimalBytes(NumberOf(d))
    decreases |d|
  {
    var init, c := d[..|d| - 1], d[|d| - 1];
    assert d == init + [c] && IsDigit(c) && Digits(init);
    NumberSnoc(init, c);
    if init == [] {
      zeros := 0;
      DecimalSnoc(NumberOf(d), c);
    } else {
      zeros := DigitsAreDecimal(init);
      zeros := DecimalGrows(zeros, NumberOf(init), c);
    }
  }

  lemma NumberIsRead(plus: bool, zeros: nat, n: nat)
    ensures ParseUsize(NumberText(plus, zeros, n)) == if n <= 0xFFFF_FFFF_FFFF_FFFF then Some(n) else None
  {
    DecimalIsRead(n);
    var d := ZeroDigits(zeros) + DecimalBytes(n);
    ZerosCount(zeros, DecimalBytes(n));
    NumberOfDecimal(n);
    if plus {
      assert NumberText(plus, zeros, n)[1..] == d;
    } else {
      assert NumberText(plus, zeros, n) == d;
      assert IsDigit(d[0]);
    }
  }

  lemma NumberOfDecimal(n: nat)
    ensures Digits(DecimalBytes(n)) && NumberOf(DecimalBytes(n)) == n
  {
    NumberOfAscii(Decimal.Render(n));
    Decimal.ValueOfRender(n);
  }

  /** Nothing else is a number. */
  lemma OnlyNumbersAreRead(s: Bytes) returns (plus: bool, zeros: nat)
    requires ParseUsize(s).Some?
    ensures s == NumberText(plus, zeros, ParseUsize(s).value)
  {
    plus := s != [] && s[0] == 43;
    var digits := if plus then s[1..] else s;
    zeros := DigitsAreDecimal(digits);
    if plus {
      assert s == [43] + digits;
    }
  }

  // ---- Header lines ----

  datatype Line = Line(text: Bytes, crlf: bool)

  function LineText(l: Line): Bytes {
    l.text + if l.crlf then [CR, NL] else [NL]
  }

  function Text(ls: seq<Line>): Bytes {
    if ls == [] then [] else LineText(ls[0]) + Text(ls[1..])
  }

  predicate EndsInCr(text: Bytes) {
    text != [] && text[|text| - 1] == CR
  }

  /** A header line: not blank, and its text without line ends of its own. */
  predicate Proper(l: Line) {
    l.text != [] && NoNl(l.text) && (EndsInCr(l.text) ==> l.crlf)
  }

  predicate AllProper(ls: seq<Line>) {
    forall i :: 0 <= i < |ls| ==> Proper(ls[i])
  }

  ghost predicate FieldAt(text: Bytes, name: Bytes, value: Bytes, a: Bytes, b: Bytes, c: Bytes, d: Bytes) {
    && White(a) && White(b) && White(c) && White(d)
    && NoColon(a + name + b) && text == (a + name + b) + [58] + (c + value + d)
  }

  /** The text is a field called `name`, white space aside, with this value. */
  ghost predicate IsField(text: Bytes, name: Bytes, value: Bytes) {
    exists a, b, c, d :: FieldAt(text, name, value, a, b, c, d)
  }

  /** The line is a Content-Length with this (bare) value. */
  ghost predicate Speaks(text: Bytes, value: Bytes) {
    exists name :: NamesLength(name) && IsField(text, name, value)
  }

  ghost predicate Silent(text: Bytes) {
    forall value :: Bare(value) ==> !Speaks(text, value)
  }

  /** What one line's text says of the length, as the parser reads it. */
  function Said(text: Bytes): Option<Bytes> {
    var pos := FindColon(text, 0);
    if pos < |text| && IsContentLength(Trim(text[..pos])) then Some(Trim(text[pos + 1..])) else None
  }

  lemma NameIsBare(name: Bytes)
    requires NamesLength(name)
    ensures Bare(name)
  {
    var spelt := "content-length";
    assert spelt[0] as int == 99 && spelt[13] as int == 104;
    assert name[0] as int == 99 || name[0] as int == 67;
    assert name[13] as int == 104 || name[13] as int == 72;
    assert [name[0]][0] == name[0] && [name[|name| - 1]][0] == name[13];
  }

  lemma ColonIsFound(head: Bytes, tail: Bytes)
    requires NoColon(head)
    ensures var text := head + [58] + tail;
      && FindColon(text, 0) == |head| < |text|
      && text[..|head|] == head && text[|head| + 1..] == tail
  {
    var text := head + [58] + tail;
    assert text[|head|] == 58 && forall i :: 0 <= i < |head| ==> text[i] == head[i];
  }

  lemma SaidAround(head: Bytes, tail: Bytes)
    requires NoColon(head)
    ensures Said(head + [58] + tail) == if IsContentLength(Trim(head)) then Some(Trim(tail)) else None
  {
    ColonIsFound(head, tail);
  }

  lemma SaidAt(text: Bytes, name: Bytes, value: Bytes, a: Bytes, b: Bytes, c: Bytes, d: Bytes)
    requires Bare(name) && Bare(value) && FieldAt(text, name, value, a, b, c, d)
    ensures Said(text) == if IsContentLength(name) then Some(value) else None
  {
    SaidAround(a + name + b, c + value + d);
    Trims(a, name, b);
    Trims(c, value, d);
  }

  lemma FieldIsSaid(text: Bytes, name: Bytes, value: Bytes)
    requires Bare(name) && Bare(value) && IsField(text, name, value)
    ensures Said(text) == if NamesLength(name) then Some(value) else None
  {
    var a, b, c, d :| FieldAt(text, name, value, a, b, c, d);
    SaidAt(text, name, value, a, b, c, d);
    NamesLengthIs(name);
  }

  /** A text with a colon is a field of some bare name and value. */
  lemma ColonMakesField(text: Bytes) returns (name: Bytes, value: Bytes)
    requires !NoColon(text)
    ensures Bare(name) && Bare(value) && IsField(text, name, value)
  {
    var pos := FindColon(text, 0);
    assert pos < |text|;
    var a, n, b := Trimmed(text[..pos]);
    var c, v, d := Trimmed(text[pos + 1..]);
    name, value := n, v;
    assert text == text[..pos] + [58] + text[pos + 1..];
    assert FieldAt(text, n, v, a, b, c, d);
  }

  /** A line says a value exactly when it is a Content-Length with that value. */
  lemma SaidExactly(text: Bytes)
    ensures Said(text).Some? ==> Bare(Said(text).value) && Speaks(text, Said(text).value)
    ensures Said(text).None? ==> Silent(text)
    ensures forall value :: Bare(value) && Speaks(text, value) ==> Said(text) == Some(value)
  {
    forall value | Bare(value) && Speaks(text, value) ensures Said(text) == Some(value) {
      var name :| NamesLength(name) && IsField(text, name, value);
      NameIsBare(name);
      FieldIsSaid(text, name, value);
    }
    if Said(text).Some? {
      var name, value := ColonMakesField(text);
      FieldIsSaid(text, name, value);
    }
  }

  // ---- Whole blocks ----

  lemma LineIsCut(l: Line, rest: Bytes)
    requires NoNl(l.text)
    ensures var s := LineText(l) + rest;
      s != [] && LineLen(s) == |LineText(l)| && s[..LineLen(s)] == LineText(l) && s[LineLen(s)..] == rest
  {
    var raw := l.text + if l.crlf then [CR] else [];
    assert LineText(l) == raw + [NL];
    assert LineText(l) + rest == raw + [NL] + rest;
    LineLenIs(raw, rest);
  }

  lemma LineIsNotBlank(l: Line)
    requires Proper(l)
    ensures LineText(l) != [CR, NL] && LineText(l) != [NL]
  {
    assert LineText(l)[0] == l.text[0] && |LineText(l)| == |l.text| + if l.crlf then 2 else 1;
  }

  lemma ReadsOneMore(l: Line, more: Bytes, header: Bytes)
    requires Proper(l)
    ensures ReadHeader(LineText(l) + more, header) == ReadHeader(more, header + LineText(l))
  {
    LineIsCut(l, more);
    LineIsNotBlank(l);
  }

  /** The reader collects the lines up to the blank one. */
  lemma {:induction false} BlockIsRead(ls: seq<Line>, blank: Line, rest: Bytes, header: Bytes)
    requires AllProper(ls) && blank.text == []
    ensures ReadHeader(Text(ls) + (LineText(blank) + rest), header) == Header(header + Text(ls), rest)
    decreases |ls|
  {
    var tail := LineText(blank) + rest;
    if ls == [] {
      assert Text(ls) + tail == tail && header + Text(ls) == header;
      LineIsCut(blank, rest);
    } else {
      assert Text(ls) + tail == LineText(ls[0]) + (Text(ls[1..]) + tail);
      ReadsOneMore(ls[0], Text(ls[1..]) + tail, header);
      BlockIsRead(ls[1..], blank, rest, header + LineText(ls[0]));
      assert header + LineText(ls[0]) + Text(ls[1..]) == header + Text(ls);
    }
  }

  lemma {:induction false} NoBlockYet(ls: seq<Line>, last: Bytes, header: Bytes)
    requires AllProper(ls) && NoNl(last)
    ensures ReadHeader(Text(ls) + last, header) == NoHeader([])
    decreases |ls|
  {
    if ls == [] {
      assert Text(ls) + last == last;
      if last != [] {
        assert FindNl(last, 0) == |last|;
        assert last[..|last|] == last && last[|last|..] == [];
      }
    } else {
      assert Text(ls) + last == LineText(ls[0]) + (Text(ls[1..]) + last);
      ReadsOneMore(ls[0], Text(ls[1..]) + last, header);
      NoBlockYet(ls[1..], last, header + LineText(ls[0]));
    }
  }

  /** What one more line means for the length. */
  function Decide(text: Bytes, otherwise: Length): Length {
    match Said(text)
    case None => otherwise
    case Some(value) =>
      match ParseUsize(value)
      case None => Invalid
      case Some(n) => if n > MAX_FRAME_BYTES then Invalid else Exactly(n)
  }

  lemma FirstLineIsCut(l: Line, more: Bytes) returns (raw: Bytes)
    requires Proper(l)
    ensures SplitNl(LineText(l) + more) == [raw] + SplitNl(more) && DropCr(raw) == l.text
  {
    raw := l.text + if l.crlf then [CR] else [];
    assert LineText(l) + more == raw + [NL] + more;
    SplitFirstLine(raw, more);
    if l.crlf { assert raw[..|raw| - 1] == l.text; }
  }

  lemma LengthInFirst(raw: Bytes, lines: seq<Bytes>)
    ensures LengthIn([raw] + lines) == Decide(DropCr(raw), LengthIn(lines))
  {
    assert ([raw] + lines)[1..] == lines;
  }

  lemma FirstLineDecides(l: Line, more: Bytes)
    requires Proper(l)
    ensures LengthIn(SplitNl(LineText(l) + more)) == Decide(l.text, LengthIn(SplitNl(more)))
  {
    var raw := FirstLineIsCut(l, more);
    LengthInFirst(raw, SplitNl(more));
  }

  /** The length is told by the first line that says one. */
  lemma {:induction false} SilentLinesAreSkipped(before: seq<Line>, more: Bytes)
    requires AllProper(before) && forall i :: 0 <= i < |before| ==> Silent(before[i].text)
    ensures LengthIn(SplitNl(Text(before) + more)) == LengthIn(SplitNl(more))
    decreases |before|
  {
    if before == [] {
      assert Text(before) + more == more;
    } else {
      assert Text(before) + more == LineText(before[0]) + (Text(before[1..]) + more);
      FirstLineDecides(before[0], Text(before[1..]) + more);
      SaidExactly(before[0].text);
      SilentLinesAreSkipped(before[1..], more);
    }
  }

  lemma TextConcat(a: seq<Line>, b: seq<Line>)
    ensures Text(a + b) == Text(a) + Text(b)
    decreases |a|
  {
    if a == [] {
      assert a + b == b;
    } else {
      TextConcat(a[1..], b);
      assert (a + b)[1..] == a[1..] + b;
    }
  }

  /** What a block says of the body that follows it. */
  function Body(length: Length, rest: Bytes): Recv {
    match length
    case Invalid => Bad(rest)
    case Exactly(n) => if n <= |rest| then Msg(rest[..n], rest[n..]) else Eof([])
  }

  lemma BlockGivesBody(ls: seq<Line>, blank: Line, rest: Bytes)
    requires AllProper(ls) && blank.text == []
    ensures FramedReceive(Text(ls) + (LineText(blank) + rest)) == Body(LengthIn(SplitNl(Text(ls))), rest)
  {
    BlockIsRead(ls, blank, rest, []);
    assert [] + Text(ls) == Text(ls);
  }

  lemma DecidingLine(before: seq<Line>, l: Line, after: seq<Line>, value: Bytes)
    requires AllProper(before + [l] + after) && (forall i :: 0 <= i < |before| ==> Silent(before[i].text))
    requires Bare(value) && Speaks(l.text, value)
    ensures LengthIn(SplitNl(Text(before + [l] + after))) == Decide(l.text, Invalid)
    ensures Said(l.text) == Some(value)
  {
    var all := before + [l] + after;
    assert forall i :: 0 <= i < |before| ==> before[i] == all[i];
    assert all[|before|] == l;
    assert all == before + ([l] + after);
    TextConcat(before, [l] + after);
    SilentLinesAreSkipped(before, Text([l] + after));
    assert ([l] + after)[1..] == after;
    FirstLineDecides(l, Text(after));
    SaidExactly(l.text);
  }

  /** A block in which the first Content-Length, however spelt and spaced, says `n`
      is followed by exactly `n` bytes of body: they are the message. A length over
      the cap is an error, and a body cut short is the end of the stream. */
  lemma LengthIsObeyed(before: seq<Line>, l: Line, after: seq<Line>, blank: Line, rest: Bytes,
      plus: bool, zeros: nat, n: nat)
    requires AllProper(before + [l] + after) && blank.text == []
    requires forall i :: 0 <= i < |before| ==> Silent(before[i].text)
    requires Speaks(l.text, NumberText(plus, zeros, n))
    ensures FramedReceive(Text(before + [l] + after) + (LineText(blank) + rest)) ==
      if n > 64 * 1024 * 1024 then Bad(rest)
      else if n <= |rest| then Msg(rest[..n], rest[n..])
      else Eof([])
  {
    NumberIsBare(plus, zeros, n);
    DecidingLine(before, l, after, NumberText(plus, zeros, n));
    NumberIsRead(plus, zeros, n);
    BlockGivesBody(before + [l] + after, blank, rest);
  }

  lemma NumberIsBare(plus: bool, zeros: nat, n: nat)
    ensures Bare(NumberText(plus, zeros, n))
  {
    var t := NumberText(plus, zeros, n);
    NumberOfDecimal(n);
    DecimalIsRead(n);
    var d := DecimalBytes(n);
    assert IsDigit(d[|d| - 1]) && IsDigit(d[0]);
    assert t[|t| - 1] == d[|d| - 1];
    assert t[0] == 43 || t[0] == 48 || t[0] == d[0];
    assert [t[0]][0] == t[0] && [t[|t| - 1]][0] == t[|t| - 1];
  }

  /** A first Content-Length whose value is no number is an error. */
  lemma BadLengthIsAnError(before: seq<Line>, l: Line, after: seq<Line>, blank: Line, rest: Bytes, value: Bytes)
    requires AllProper(before + [l] + after) && blank.text == []
    requires forall i :: 0 <= i < |before| ==> Silent(before[i].text)
    requires Bare(value) && Speaks(l.text, value)
    requires forall plus, zeros, n {:trigger NumberText(plus, zeros, n)} ::
      n <= 0xFFFF_FFFF_FFFF_FFFF ==> value != NumberText(plus, zeros, n)
    ensures FramedReceive(Text(before + [l] + after) + (LineText(blank) + rest)) == Bad(rest)
  {
    DecidingLine(before, l, after, value);
    if ParseUsize(value).Some? {
      var plus, zeros := OnlyNumbersAreRead(value);
    }
    BlockGivesBody(before + [l] + after, blank, rest);
  }

  /** So is a block that says no length. */
  lemma MissingLengthIsAnError(ls: seq<Line>, blank: Line, rest: Bytes)
    requires AllProper(ls) && blank.text == [] && forall i :: 0 <= i < |ls| ==> Silent(ls[i].text)
    ensures FramedReceive(Text(ls) + (LineText(blank) + rest)) == Bad(rest)
  {
    BlockGivesBody(ls, blank, rest);
    SilentLinesAreSkipped(ls, []);
    assert Text(ls) + [] == Text(ls);
  }

  /** A stream that ends within a block is the end of the stream. */
  lemma BlockMayBeCut(ls: seq<Line>, last: Bytes)
    requires AllProper(ls) && NoNl(last)
    ensures FramedReceive(Text(ls) + last) == Eof([])
  {
    NoBlockYet(ls, last, []);
  }
}
