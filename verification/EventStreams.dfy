/** What the event reader makes of any stream, whoever wrote it. Every stream is
    lines with LF or CRLF ends; each line is a data line with or without a space
    after the colon, a comment, some other field, or blank. */
module EventStreams {
  import opened Prelude
  import opened Framing

  datatype Field = Data(value: Bytes) | SpacedData(value: Bytes) | Comment(text: Bytes) | Other(text: Bytes) | Blank

  datatype Line = Line(field: Field, crlf: bool)

  /** "data:" */
  const DATA_FIELD: seq<byte> := [100, 97, 116, 97, 58]

  predicate HoldsData(f: Field) {
    f.Data? || f.SpacedData?
  }

  function FieldText(f: Field): Bytes {
    match f
    case Data(value) => DATA_FIELD + value
    case SpacedData(value) => DATA_FIELD + [32] + value
    case Comment(text) => [58] + text
    case Other(text) => text
    case Blank => []
  }

  predicate BeginsWith(text: Bytes, prefix: Bytes) {
    |prefix| <= |text| && forall i :: 0 <= i < |prefix| ==> text[i] == prefix[i]
  }

  predicate EndsInCr(text: Bytes) {
    text != [] && text[|text| - 1] == CR
  }

  /** A value without a leading space is written so; other fields are not data or
      comments; no text holds a newline, nor an LF line a CR before its end. */
  predicate Proper(l: Line) {
    && NoNl(FieldText(l.field))
    && (EndsInCr(FieldText(l.field)) ==> l.crlf)
    && match l.field
       case Data(value) => value == [] || value[0] != 32
       case Other(text) => text != [] && text[0] != 58 && !BeginsWith(text, DATA_FIELD)
       case _ => true
  }

  function LineText(l: Line): Bytes {
    FieldText(l.field) + if l.crlf then [CR, NL] else [NL]
  }

  function Text(ls: seq<Line>): Bytes {
    if ls == [] then [] else LineText(ls[0]) + Text(ls[1..])
  }

  predicate AllProper(ls: seq<Line>) {
    forall i :: 0 <= i < |ls| ==> Proper(ls[i])
  }

  /** The values of the data lines, in order. */
  function Values(ls: seq<Line>): seq<Bytes> {
    if ls == [] then []
    else (if HoldsData(ls[0].field) then [ls[0].field.value] else []) + Values(ls[1..])
  }

  // ---- One line ----

  function Raw(l: Line): Bytes {
    FieldText(l.field) + if l.crlf then [CR] else []
  }

  /** The reader sees the field's text, whichever way the line ends. */
  lemma LineIsCut(l: Line, rest: Bytes)
    requires Proper(l)
    ensures var s := LineText(l) + rest;
      && s != [] && s[LineLen(s)..] == rest
      && DropCr(DropNl(s[..LineLen(s)])) == FieldText(l.field)
  {
    var raw := Raw(l);
    assert LineText(l) + rest == raw + [NL] + rest;
    LineLenIs(raw, rest);
    assert DropNl(raw + [NL]) == raw;
    if l.crlf {
      assert raw[..|raw| - 1] == FieldText(l.field);
    }
  }

  lemma BeginsIsStarts(text: Bytes)
    ensures BeginsWith(text, DATA_FIELD) <==> StartsWith(text, DATA)
  {
    if |DATA| <= |text| {
      assert forall i :: 0 <= i < |DATA| ==> text[..|DATA|][i] == text[i];
    }
  }

  lemma DataText(f: Field)
    requires HoldsData(f) && Proper(Line(f, true))
    ensures var text := FieldText(f);
      text != [] && text[0] != COLON && StartsWith(text, DATA) && FieldValue(text) == f.value
  {
    var text := FieldText(f);
    assert text[..|DATA|] == DATA && text[0] == DATA[0];
    if f.Data? {
      assert text[|DATA|..] == f.value;
    } else {
      assert text[|DATA|..] == [SPACE] + f.value && ([SPACE] + f.value)[1..] == f.value;
    }
  }

  lemma OtherText(f: Field)
    requires !HoldsData(f) && Proper(Line(f, true))
    ensures var text := FieldText(f);
      if f.Blank? then text == [] else text != [] && (text[0] == COLON || !StartsWith(text, DATA))
  {
    BeginsIsStarts(FieldText(f));
  }

  /** What a reader holding `data` makes of the text of a line. */
  lemma TextIsRead(s: Bytes, f: Field, crlf: bool, data: seq<Bytes>)
    requires s != [] && Proper(Line(f, crlf)) && DropCr(DropNl(s[..LineLen(s)])) == FieldText(f)
    ensures var rest := s[LineLen(s)..];
      SseReceive(s, data) ==
        if HoldsData(f) then SseReceive(rest, data + [f.value])
        else if f.Blank? && data != [] then Msg(Join(data), rest)
        else SseReceive(rest, data)
  {
    if HoldsData(f) {
      DataText(f);
    } else {
      OtherText(f);
    }
  }

  lemma LineIsRead(l: Line, rest: Bytes, data: seq<Bytes>)
    requires Proper(l)
    ensures SseReceive(LineText(l) + rest, data) ==
      if HoldsData(l.field) then SseReceive(rest, data + [l.field.value])
      else if l.field.Blank? && data != [] then Msg(Join(data), rest)
      else SseReceive(rest, data)
  {
    LineIsCut(l, rest);
    TextIsRead(LineText(l) + rest, l.field, l.crlf, data);
  }

  // ---- Whole events ----

  lemma TextStep(ls: seq<Line>, rest: Bytes)
    requires ls != []
    ensures Text(ls) + rest == LineText(ls[0]) + (Text(ls[1..]) + rest)
  {
  }

  /** What one line adds to the values held. */
  function Taken(data: seq<Bytes>, f: Field): seq<Bytes> {
    if HoldsData(f) then data + [f.value] else data
  }

  lemma ValuesStep(ls: seq<Line>, data: seq<Bytes>)
    requires ls != []
    ensures Taken(data, ls[0].field) + Values(ls[1..]) == data + Values(ls)
  {
    var own := if HoldsData(ls[0].field) then [ls[0].field.value] else [];
    AppendAppend(data, own, Values(ls[1..]));
    assert data + own == Taken(data, ls[0].field);
  }

  lemma FullLineIsRead(ls: seq<Line>, rest: Bytes, data: seq<Bytes>)
    requires ls != [] && Proper(ls[0]) && !ls[0].field.Blank?
    ensures SseReceive(Text(ls) + rest, data) == SseReceive(Text(ls[1..]) + rest, Taken(data, ls[0].field))
  {
    TextStep(ls, rest);
    LineIsRead(ls[0], Text(ls[1..]) + rest, data);
  }

  /** Lines without a blank add their data lines' values and nothing else. */
  lemma {:induction false} LinesAreRead(ls: seq<Line>, rest: Bytes, data: seq<Bytes>)
    requires AllProper(ls) && forall i :: 0 <= i < |ls| ==> !ls[i].field.Blank?
    ensures SseReceive(Text(ls) + rest, data) == SseReceive(rest, data + Values(ls))
    decreases |ls|
  {
    if ls == [] {
      assert Text(ls) + rest == rest && data + Values(ls) == data;
    } else {
      FullLineIsRead(ls, rest, data);
      LinesAreRead(ls[1..], rest, Taken(data, ls[0].field));
      ValuesStep(ls, data);
    }
  }

  /** Lines without data, blank ones among them, are passed over between events. */
  lemma {:induction false} QuietIsSkipped(ls: seq<Line>, rest: Bytes)
    requires AllProper(ls) && forall i :: 0 <= i < |ls| ==> !HoldsData(ls[i].field)
    ensures SseReceive(Text(ls) + rest, []) == SseReceive(rest, [])
    decreases |ls|
  {
    if ls == [] {
      assert Text(ls) + rest == rest;
    } else {
      TextStep(ls, rest);
      LineIsRead(ls[0], Text(ls[1..]) + rest, []);
      QuietIsSkipped(ls[1..], rest);
    }
  }

  /** An event in a stream: lines that say nothing, then lines up to a blank one,
      the first of them data. */
  ghost predicate EventAt(quiet: seq<Line>, event: seq<Line>) {
    && AllProper(quiet) && (forall i :: 0 <= i < |quiet| ==> !HoldsData(quiet[i].field))
    && AllProper(event) && (forall i :: 0 <= i < |event| ==> !event[i].field.Blank?)
    && event != [] && HoldsData(event[0].field)
  }

  /** The next message is the values of the event's data lines joined by newlines:
      comments, other fields, blank lines between events and the way lines end
      contribute nothing, and what follows the blank line is left unread. */
  lemma EventIsRead(quiet: seq<Line>, event: seq<Line>, blank: Line, rest: Bytes)
    requires EventAt(quiet, event) && blank.field.Blank?
    ensures SseReceive(Text(quiet) + (Text(event) + (LineText(blank) + rest)), []) == Msg(Join(Values(event)), rest)
  {
    QuietIsSkipped(quiet, Text(event) + (LineText(blank) + rest));
    LinesAreRead(event, LineText(blank) + rest, []);
    assert [] + Values(event) == Values(event);
    assert Values(event) == [event[0].field.value] + Values(event[1..]);
    LineIsRead(blank, rest, Values(event));
  }

  /** At the end of the stream an event needs no blank line, and lines without
      data make no message. */
  lemma EndIsRead(quiet: seq<Line>, event: seq<Line>)
    ensures EventAt(quiet, event) ==> SseReceive(Text(quiet) + Text(event), []) == Msg(Join(Values(event)), [])
    ensures AllProper(quiet) && (forall i :: 0 <= i < |quiet| ==> !HoldsData(quiet[i].field)) ==>
      SseReceive(Text(quiet), []) == Eof([])
  {
    if AllProper(quiet) && forall i :: 0 <= i < |quiet| ==> !HoldsData(quiet[i].field) {
      QuietIsSkipped(quiet, []);
      assert Text(quiet) + [] == Text(quiet);
      if EventAt(quiet, event) {
        QuietIsSkipped(quiet, Text(event));
        LinesAreRead(event, [], []);
        assert Text(event) + [] == Text(event) && [] + Values(event) == Values(event);
        assert Values(event) == [event[0].field.value] + Values(event[1..]);
      }
    }
  }

  /** A last line that lacks its newline is read as if it had one. */
  lemma LastLineMayBeCut(last: Bytes, data: seq<Bytes>)
    requires last != [] && NoNl(last)
    ensures SseReceive(last, data) == SseReceive(last + [NL], data)
  {
    assert last + [NL] == last + [NL] + [];
    LineLenIs(last, []);
    assert DropNl(last + [NL]) == last == DropNl(last);
    assert FindNl(last, 0) == |last|;
    assert last[..|last|] == last && last[|last|..] == [];
  }

  // ---- Every stream is of this form ----

  /** What a text without newlines is as a line. */
  function Classify(text: Bytes): Field {
    if text == [] then Blank
    else if text[0] == 58 then Comment(text[1..])
    else if BeginsWith(text, DATA_FIELD) then
      if |text| > 5 && text[5] == 32 then SpacedData(text[6..]) else Data(text[5..])
    else Other(text)
  }

  lemma ClassifyIsText(text: Bytes)
    ensures FieldText(Classify(text)) == text
    ensures NoNl(text) && !EndsInCr(text) ==> Proper(Line(Classify(text), false))
    ensures NoNl(text) ==> Proper(Line(Classify(text), true))
  {
    if BeginsWith(text, DATA_FIELD) {
      assert text == text[..5] + text[5..] && text[..5] == DATA_FIELD;
      if |text| > 5 {
        assert text[5..] == [text[5]] + text[6..];
      }
    }
  }

  /** A text and its newline are a line of one of these kinds. */
  lemma CutIsLine(text: Bytes) returns (l: Line)
    requires NoNl(text)
    ensures Proper(l) && LineText(l) == text + [NL]
  {
    if EndsInCr(text) {
      var body := text[..|text| - 1];
      l := Line(Classify(body), true);
      ClassifyIsText(body);
      assert text == body + [CR];
    } else {
      l := Line(Classify(text), false);
      ClassifyIsText(text);
    }
  }

  lemma TextCons(l: Line, more: seq<Line>)
    ensures Text([l] + more) == LineText(l) + Text(more)
    ensures Proper(l) && AllProper(more) ==> AllProper([l] + more)
  {
    assert ([l] + more)[1..] == more;
  }

  /** Any bytes at all are lines of these kinds and perhaps a last one cut short. */
  lemma {:induction false} EveryStream(s: Bytes) returns (ls: seq<Line>, last: Bytes)
    ensures AllProper(ls) && NoNl(last) && s == Text(ls) + last
    decreases |s|
  {
    var k := FindNl(s, 0);
    if k == |s| {
      ls, last := [], s;
    } else {
      var l := CutIsLine(s[..k]);
      var more, end := EveryStream(s[k + 1..]);
      ls, last := [l] + more, end;
      TextCons(l, more);
      assert s == s[..k] + [NL] + s[k + 1..];
      AppendAppend(LineText(l), Text(more), last);
    }
  }
}
