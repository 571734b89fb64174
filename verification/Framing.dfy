/** The three message framings over byte streams: newline-delimited,
    Content-Length, and server-sent events. Each `Receive` function consumes one
    message from the unread bytes. */
module Framing {
  import opened Prelude
  import Decimal

  type Bytes = seq<byte>

  /** One call of `receive`: a message, end of stream, or an error. */
  datatype Recv = Msg(payload: Bytes, rest: Bytes) | Eof(rest: Bytes) | Bad(rest: Bytes)

  // ---- Lines ----

  /** The index of the first newline at or after `from`, or the length. */
  function FindNl(s: Bytes, from: nat): (k: nat)
    requires from <= |s|
    ensures from <= k <= |s|
    ensures k < |s| ==> s[k] == NL
    ensures forall i :: from <= i < k ==> s[i] != NL
    decreases |s| - from
  {
    if from == |s| || s[from] == NL then from else FindNl(s, from + 1)
  }

  /** What `read_until(b'\n')` consumes: up to and including a newline. */
  function LineLen(s: Bytes): (n: nat)
    ensures n <= |s| && (s != [] ==> n > 0)
  {
    var k := FindNl(s, 0);
    if k < |s| then k + 1 else k
  }

  predicate NoNl(p: Bytes) {
    forall i :: 0 <= i < |p| ==> p[i] != NL
  }

  lemma LineLenIs(p: Bytes, rest: Bytes)
    requires NoNl(p)
    ensures LineLen(p + [NL] + rest) == |p| + 1
    ensures (p + [NL] + rest)[..|p| + 1] == p + [NL]
    ensures (p + [NL] + rest)[|p| + 1..] == rest
  {
    var s := p + [NL] + rest;
    assert s[|p|] == NL;
    assert forall i :: 0 <= i < |p| ==> s[i] == p[i];
    assert FindNl(s, 0) == |p|;
  }

  function DropNl(line: Bytes): Bytes {
    if line != [] && line[|line| - 1] == NL then line[..|line| - 1] else line
  }

  function DropCr(line: Bytes): Bytes {
    if line != [] && line[|line| - 1] == CR then line[..|line| - 1] else line
  }

  /** `payload.split(|b| b == '\n')`: one more part than there are newlines. */
  function SplitNl(p: Bytes): (parts: seq<Bytes>)
    ensures |parts| > 0
  {
    if p == [] then [[]]
    else if p[0] == NL then [[]] + SplitNl(p[1..])
    else
      var parts := SplitNl(p[1..]);
      [[p[0]] + parts[0]] + parts[1..]
  }

  /** `join`: parts with a newline between them. */
  function Join(parts: seq<Bytes>): Bytes {
    if parts == [] then []
    else if |parts| == 1 then parts[0]
    else parts[0] + [NL] + Join(parts[1..])
  }

  lemma {:induction false} JoinOfSplit(p: Bytes)
    ensures Join(SplitNl(p)) == p
  {
    if p != [] {
      JoinOfSplit(p[1..]);
      var parts := SplitNl(p[1..]);
      if p[0] == NL {
        assert ([[]] + parts)[1..] == parts;
        assert Join([[]] + parts) == [] + [NL] + Join(parts);
      } else {
        var all := [[p[0]] + parts[0]] + parts[1..];
        assert all[1..] == parts[1..];
        if |parts| > 1 {
          assert ([p[0]] + parts[0]) + [NL] + Join(parts[1..]) == [p[0]] + (parts[0] + [NL] + Join(parts[1..]));
        }
      }
    }
  }

  lemma {:induction false} SplitPartsAreLines(p: Bytes)
    ensures forall i :: 0 <= i < |SplitNl(p)| ==> NoNl(SplitNl(p)[i])
    ensures |SplitNl(p)| == 1 <==> NoNl(p)
    ensures NoNl(p) ==> SplitNl(p) == [p]
  {
    if p != [] {
      SplitPartsAreLines(p[1..]);
      assert p == [p[0]] + p[1..];
    }
  }

  // ---- Newline-delimited ----

  function LineReceive(s: Bytes): (r: Recv)
    ensures r.Msg? ==> |r.rest| < |s|
  {
    if s == [] then Eof([])
    else Msg(DropNl(s[..LineLen(s)]), s[LineLen(s)..])
  }

  function LineFrame(p: Bytes): Bytes {
    p + [NL]
  }

  // ---- Server-sent events ----

  const COLON: byte := 58
  const SPACE: byte := 32
  const DATA: seq<byte> := [100, 97, 116, 97, 58]

  predicate StartsWith(s: Bytes, prefix: Bytes) {
    |prefix| <= |s| && s[..|prefix|] == prefix
  }

  function FieldValue(line: Bytes): Bytes
    requires StartsWith(line, DATA)
  {
    var value := line[|DATA|..];
    if value != [] && value[0] == SPACE then value[1..] else value
  }

  /** The reader's loop: `data` holds the data lines of the event so far. */
  function SseReceive(s: Bytes, data: seq<Bytes>): (r: Recv)
    ensures r.Msg? && data == [] ==> |r.rest| < |s|
    ensures |r.rest| <= |s|
    decreases |s|
  {
    if s == [] then (if data == [] then Eof([]) else Msg(Join(data), []))
    else
      var line := DropCr(DropNl(s[..LineLen(s)]));
      var rest := s[LineLen(s)..];
      if line == [] then (if data == [] then SseReceive(rest, data) else Msg(Join(data), rest))
      else if line[0] == COLON then SseReceive(rest, data)
      else if StartsWith(line, DATA) then SseReceive(rest, data + [FieldValue(line)])
      else SseReceive(rest, data)
  }

  function SseLines(parts: seq<Bytes>): Bytes {
    if parts == [] then [] else DATA + [SPACE] + parts[0] + [NL] + SseLines(parts[1..])
  }

  function SseFrame(p: Bytes): Bytes {
    SseLines(SplitNl(p)) + [NL]
  }

  function DropCrs(parts: seq<Bytes>): seq<Bytes> {
    seq(|parts|, i requires 0 <= i < |parts| => DropCr(parts[i]))
  }

  /** One written data line is read back as one data part, less a final CR. */
  lemma SseReadsLine(part: Bytes, rest: Bytes, data: seq<Bytes>)
    requires NoNl(part)
    ensures SseReceive(DATA + [SPACE] + part + [NL] + rest, data) == SseReceive(rest, data + [DropCr(part)])
  {
    var full := DATA + [SPACE] + part;
    assert NoNl(full);
    assert DATA + [SPACE] + part + [NL] + rest == full + [NL] + rest;
    LineLenIs(full, rest);
    assert DropNl(full + [NL]) == full;
    var line := DropCr(full);
    assert line == DATA + [SPACE] + DropCr(part) by {
      if part != [] { assert full[|full| - 1] == part[|part| - 1]; }
    }
    assert line[0] == DATA[0] && StartsWith(line, DATA);
    assert line[|DATA|..] == [SPACE] + DropCr(part);
    assert FieldValue(line) == DropCr(part);
  }

  lemma SseReadsBlank(rest: Bytes, data: seq<Bytes>)
    requires data != []
    ensures SseReceive([NL] + rest, data) == Msg(Join(data), rest)
  {
    LineLenIs([], rest);
    assert [] + [NL] + rest == [NL] + rest;
    assert ([NL] + rest)[..1] == [NL];
  }

  lemma SseReadsFirst(parts: seq<Bytes>, rest: Bytes, data: seq<Bytes>)
    requires parts != [] && NoNl(parts[0])
    ensures SseReceive(SseLines(parts) + [NL] + rest, data)
         == SseReceive(SseLines(parts[1..]) + [NL] + rest, data + [DropCr(parts[0])])
  {
    var tail := SseLines(parts[1..]) + [NL] + rest;
    assert SseLines(parts) + [NL] + rest == DATA + [SPACE] + parts[0] + [NL] + tail;
    SseReadsLine(parts[0], tail, data);
  }

  /** `read` takes one part off the front and appends it, less a final CR. */
  ghost predicate TakesFirst(read: (seq<Bytes>, seq<Bytes>) -> Recv, parts: seq<Bytes>, data: seq<Bytes>) {
    parts != [] && read(parts, data) == read(parts[1..], data + [DropCr(parts[0])])
  }

  lemma {:induction false} TakesAll(read: (seq<Bytes>, seq<Bytes>) -> Recv, parts: seq<Bytes>, data: seq<Bytes>)
    requires forall i, d {:trigger TakesFirst(read, parts[i..], d)} ::
      0 <= i < |parts| ==> TakesFirst(read, parts[i..], d)
    ensures read(parts, data) == read([], data + DropCrs(parts))
  {
    assert parts[0..] == parts && data + DropCrs(parts[..0]) == data;
    for i := 0 to |parts|
      invariant read(parts, data) == read(parts[i..], data + DropCrs(parts[..i]))
    {
      var d := data + DropCrs(parts[..i]);
      assert TakesFirst(read, parts[i..], d);
      assert parts[i..][1..] == parts[i + 1..];
      assert d + [DropCr(parts[i])] == data + DropCrs(parts[..i + 1]);
    }
    assert parts[|parts|..] == [] && parts[..|parts|] == parts;
  }

  lemma SseReadsLines(parts: seq<Bytes>, rest: Bytes)
    requires parts != [] && forall i :: 0 <= i < |parts| ==> NoNl(parts[i])
    ensures SseReceive(SseLines(parts) + [NL] + rest, []) == Msg(Join(DropCrs(parts)), rest)
  {
    var read := (ps: seq<Bytes>, d: seq<Bytes>) => SseReceive(SseLines(ps) + [NL] + rest, d);
    forall i, d: seq<Bytes> | 0 <= i < |parts| ensures TakesFirst(read, parts[i..], d) {
      SseReadsFirst(parts[i..], rest, d);
    }
    TakesAll(read, parts, []);
    assert [] + DropCrs(parts) == DropCrs(parts);
    SseReadsBlank(rest, DropCrs(parts));
    assert SseLines([]) + [NL] + rest == [NL] + rest;
  }

  /** The payload without each CR that stands before a newline or at the end. */
  function WithoutCrs(p: Bytes): (r: Bytes)
    ensures |r| <= |p|
  {
    if p == [] then []
    else if p[0] == CR && (|p| == 1 || p[1] == NL) then WithoutCrs(p[1..])
    else [p[0]] + WithoutCrs(p[1..])
  }

  /** No CR just before a newline or at the end. */
  predicate CrFree(p: Bytes) {
    forall i :: 0 <= i < |p| && p[i] == CR ==> i + 1 < |p| && p[i + 1] != NL
  }

  lemma {:induction false} WithoutCrsExactly(p: Bytes)
    ensures WithoutCrs(p) == p <==> CrFree(p)
  {
    if p != [] {
      WithoutCrsExactly(p[1..]);
      assert p == [p[0]] + p[1..];
      if CrFree(p) {
        forall i | 0 <= i < |p[1..]| && p[1..][i] == CR ensures i + 1 < |p[1..]| && p[1..][i + 1] != NL {
          assert p[i + 1] == CR;
        }
      } else if !(p[0] == CR && (|p| == 1 || p[1] == NL)) {
        var i :| 0 <= i < |p| && p[i] == CR && !(i + 1 < |p| && p[i + 1] != NL);
        assert i > 0 && p[1..][i - 1] == CR;
        assert !CrFree(p[1..]);
      }
    }
  }

  lemma DropCrCons(b: byte, part: Bytes)
    ensures DropCr([b] + part) == if part == [] && b == CR then [] else [b] + DropCr(part)
  {
    if part != [] {
      assert ([b] + part)[|part|] == part[|part| - 1];
    }
  }

  lemma JoinDropsNl(parts: seq<Bytes>)
    requires parts != []
    ensures Join(DropCrs([[]] + parts)) == [NL] + Join(DropCrs(parts))
  {
    var dropped := DropCrs(parts);
    assert DropCrs([[]] + parts) == [[]] + dropped;
    assert ([[]] + dropped)[1..] == dropped;
    assert Join([[]] + dropped) == [] + [NL] + Join(dropped);
  }

  lemma DropCrsCons(first: Bytes, rest: seq<Bytes>)
    ensures DropCrs([first] + rest) == [DropCr(first)] + DropCrs(rest)
  {
  }

  lemma JoinDropsByte(b: byte, parts: seq<Bytes>)
    requires parts != []
    ensures Join(DropCrs([[b] + parts[0]] + parts[1..]))
         == (if parts[0] == [] && b == CR then [] else [b]) + Join(DropCrs(parts))
  {
    var first, rest := parts[0], parts[1..];
    assert parts == [first] + rest;
    DropCrsCons(first, rest);
    DropCrsCons([b] + first, rest);
    DropCrCons(b, first);
    JoinFirst(DropCr([b] + first), DropCr(first), DropCrs(rest));
  }

  /** Stripping a CR from every line is stripping CRs before line ends. */
  lemma {:induction false} JoinDropsCrs(p: Bytes)
    ensures Join(DropCrs(SplitNl(p))) == WithoutCrs(p)
  {
    if p == [] {
      assert DropCrs(SplitNl(p)) == [[]];
    } else {
      JoinDropsCrs(p[1..]);
      if p[0] == NL {
        JoinDropsNl(SplitNl(p[1..]));
      } else {
        JoinDropsByte(p[0], SplitNl(p[1..]));
        FirstPartEmpty(p[1..]);
      }
    }
  }

  lemma FirstPartEmpty(p: Bytes)
    ensures SplitNl(p)[0] == [] <==> p == [] || p[0] == NL
  {
  }

  lemma JoinFirst(first: Bytes, second: Bytes, rest: seq<Bytes>)
    ensures first == second ==> Join([first] + rest) == Join([second] + rest)
    ensures forall b: byte :: first == [b] + second ==> Join([first] + rest) == [b] + Join([second] + rest)
  {
    assert ([first] + rest)[1..] == rest && ([second] + rest)[1..] == rest;
    forall b: byte | first == [b] + second ensures Join([first] + rest) == [b] + Join([second] + rest) {
      if rest != [] {
        assert ([b] + second) + [NL] + Join(rest) == [b] + (second + [NL] + Join(rest));
      }
    }
  }

  /** One written event is read back as one message, less those CRs. */
  lemma SseRoundTrip(p: Bytes, rest: Bytes)
    ensures SseReceive(SseFrame(p) + rest, []) == Msg(WithoutCrs(p), rest)
  {
    SplitPartsAreLines(p);
    SseReadsLines(SplitNl(p), rest);
    JoinDropsCrs(p);
  }

  // ---- Content-Length ----

  const MAX_FRAME_BYTES := 64 * 1024 * 1024

  predicate IsSpace(b: byte) {
    b == 32 || b == 9 || b == 10 || b == 12 || b == 13
  }

  function TrimStart(b: Bytes): Bytes {
    if b != [] && IsSpace(b[0]) then TrimStart(b[1..]) else b
  }

  function TrimEnd(b: Bytes): Bytes {
    if b != [] && IsSpace(b[|b| - 1]) then TrimEnd(b[..|b| - 1]) else b
  }

  function Trim(b: Bytes): Bytes {
    TrimEnd(TrimStart(b))
  }

  method TrimLoop(bytes: Bytes) returns (out: Bytes)
    ensures out == Trim(bytes)
  {
    out := bytes;
    while out != [] && IsSpace(out[0])
      invariant TrimStart(out) == TrimStart(bytes)
      decreases |out|
    {
      out := out[1..];
    }
    while out != [] && IsSpace(out[|out| - 1])
      invariant TrimEnd(out) == Trim(bytes)
      decreases |out|
    {
      out := out[..|out| - 1];
    }
  }

  function Lower(b: byte): byte {
    if 65 <= b <= 90 then b + 32 else b
  }

  /** "content-length" */
  const CONTENT_LENGTH: seq<byte> := [99, 111, 110, 116, 101, 110, 116, 45, 108, 101, 110, 103, 116, 104]

  predicate IsContentLength(name: Bytes) {
    |name| == |CONTENT_LENGTH| && forall i :: 0 <= i < |name| ==> Lower(name[i]) == CONTENT_LENGTH[i]
  }

  function FindColon(s: Bytes, from: nat): (k: nat)
    requires from <= |s|
    ensures from <= k <= |s| && (k < |s| ==> s[k] == COLON)
    ensures forall i :: from <= i < k ==> s[i] != COLON
    decreases |s| - from
  {
    if from == |s| || s[from] == COLON then from else FindColon(s, from + 1)
  }

  predicate IsDigit(b: byte) {
    48 <= b <= 57
  }

  predicate Digits(s: Bytes) {
    forall i :: 0 <= i < |s| ==> IsDigit(s[i])
  }

  function NumberOf(s: Bytes): nat
    requires Digits(s)
  {
    if s == [] then 0 else NumberOf(s[..|s| - 1]) * 10 + (s[|s| - 1] as int - 48)
  }

  const USIZE_MAX := 0xFFFF_FFFF_FFFF_FFFF

  /** `str::parse::<usize>`: an optional plus, then at least one digit. */
  function ParseUsize(s: Bytes): Option<nat> {
    var digits := if s != [] && s[0] == 43 then s[1..] else s;
    if digits != [] && Digits(digits) && NumberOf(digits) <= USIZE_MAX then Some(NumberOf(digits)) else None
  }

  datatype Length = Exactly(n: nat) | Invalid

  /** The first Content-Length line among the header's lines decides. */
  function LengthIn(lines: seq<Bytes>): Length {
    if lines == [] then Invalid
    else
      var line := DropCr(lines[0]);
      var pos := FindColon(line, 0);
      if pos < |line| && IsContentLength(Trim(line[..pos])) then
        match ParseUsize(Trim(line[pos + 1..]))
        case None => Invalid
        case Some(n) => if n > MAX_FRAME_BYTES then Invalid else Exactly(n)
      else LengthIn(lines[1..])
  }

  function ParseContentLength(header: Bytes): Length {
    LengthIn(SplitNl(header))
  }

  datatype Header = Header(bytes: Bytes, rest: Bytes) | NoHeader(rest: Bytes)

  function ReadHeader(s: Bytes, header: Bytes): (h: Header)
    ensures |h.rest| <= |s| && (h.Header? ==> |h.rest| < |s|)
    decreases |s|
  {
    if s == [] then NoHeader([])
    else
      var line := s[..LineLen(s)];
      var rest := s[LineLen(s)..];
      if line == [CR, NL] || line == [NL] then Header(header, rest)
      else ReadHeader(rest, header + line)
  }

  function FramedReceive(s: Bytes): (r: Recv)
    ensures r.Msg? ==> |r.rest| < |s|
  {
    match ReadHeader(s, [])
    case NoHeader(rest) => Eof(rest)
    case Header(header, rest) =>
      match ParseContentLength(header)
      case Invalid => Bad(rest)
      case Exactly(n) => if n <= |rest| then Msg(rest[..n], rest[n..]) else Eof([])
  }

  /** "Content-Length: " */
  const HEADER_NAME: seq<byte> := [67, 111, 110, 116, 101, 110, 116, 45, 76, 101, 110, 103, 116, 104, 58, 32]

  function DecimalBytes(n: nat): Bytes {
    Decimal.DigitsAreAscii(Decimal.Render(n));
    Ascii(Decimal.Render(n))
  }

  function FramedFrame(p: Bytes): Bytes {
    HEADER_NAME + DecimalBytes(|p|) + [CR, NL] + [CR, NL] + p
  }

  lemma {:induction false} NumberOfAscii(s: string)
    requires Decimal.AllDigits(s)
    ensures IsAscii(s) && Digits(Ascii(s)) && NumberOf(Ascii(s)) == Decimal.Value(s)
    decreases |s|
  {
    if s != [] {
      var init := s[..|s| - 1];
      NumberOfAscii(init);
      assert Ascii(s)[..|s| - 1] == Ascii(init);
    }
  }

  lemma DecimalIsRead(n: nat)
    ensures Digits(DecimalBytes(n)) && DecimalBytes(n) != []
    ensures ParseUsize(DecimalBytes(n)) == if n <= USIZE_MAX then Some(n) else None
  {
    NumberOfAscii(Decimal.Render(n));
    Decimal.ValueOfRender(n);
    assert IsDigit(DecimalBytes(n)[0]);
  }

  lemma SplitFirstLine(a: Bytes, b: Bytes)
    requires NoNl(a)
    ensures SplitNl(a + [NL] + b) == [a] + SplitNl(b)
    decreases |a|
  {
    if a == [] {
      assert [] + [NL] + b == [NL] + b && ([NL] + b)[1..] == b;
    } else {
      SplitFirstLine(a[1..], b);
      assert (a + [NL] + b)[1..] == a[1..] + [NL] + b;
      assert a == [a[0]] + a[1..];
      assert ([a[1..]] + SplitNl(b))[1..] == SplitNl(b);
    }
  }

  lemma DigitsTrim(d: Bytes)
    requires Digits(d) && d != []
    ensures Trim([SPACE] + d) == d
  {
    assert IsDigit(d[0]) && IsDigit(d[|d| - 1]);
    assert ([SPACE] + d)[1..] == d;
    assert TrimStart(d) == d && TrimStart([SPACE] + d) == d;
    assert TrimEnd(d) == d;
  }

  lemma HeaderNameParts()
    ensures |HEADER_NAME| == 16 && HEADER_NAME[14] == COLON && HEADER_NAME[15] == SPACE
    ensures forall i :: 0 <= i < 14 ==> HEADER_NAME[i] != COLON
    ensures NoNl(HEADER_NAME)
    ensures Trim(HEADER_NAME[..14]) == HEADER_NAME[..14] && IsContentLength(HEADER_NAME[..14])
  {
    assert HEADER_NAME[..14][0] == 67 && HEADER_NAME[..14][13] == 104;
  }

  lemma HeaderColon(d: Bytes)
    ensures var line := HEADER_NAME + d;
      FindColon(line, 0) == 14 && line[..14] == HEADER_NAME[..14] && line[15..] == [SPACE] + d
  {
    var line := HEADER_NAME + d;
    HeaderNameParts();
    assert forall i :: 0 <= i < 16 ==> line[i] == HEADER_NAME[i];
    var k := FindColon(line, 0);
    assert line[14] == COLON;
    assert k <= 14;
    assert line[k] == COLON;
  }

  lemma HeaderLength(n: nat)
    ensures LengthIn([HEADER_NAME + DecimalBytes(n) + [CR], []])
         == if n <= MAX_FRAME_BYTES then Exactly(n) else Invalid
  {
    var d := DecimalBytes(n);
    HeaderNameParts();
    HeaderColon(d);
    DecimalIsRead(n);
    DigitsTrim(d);
    assert DropCr(HEADER_NAME + d + [CR]) == HEADER_NAME + d;
  }

  /** The header a writer emits is read as the payload's length, up to the cap. */
  lemma HeaderIsRead(n: nat)
    ensures ParseContentLength(HEADER_NAME + DecimalBytes(n) + [CR] + [NL])
         == if n <= MAX_FRAME_BYTES then Exactly(n) else Invalid
  {
    var raw := HEADER_NAME + DecimalBytes(n) + [CR];
    HeaderNameParts();
    DecimalIsRead(n);
    assert NoNl(raw);
    assert raw + [NL] == raw + [NL] + [];
    SplitFirstLine(raw, []);
    HeaderLength(n);
  }

  lemma HeaderLines(line: Bytes, body: Bytes)
    requires NoNl(line) && |line| > 1
    ensures ReadHeader(line + [NL] + ([CR, NL] + body), []) == Header(line + [NL], body)
  {
    var tail := [CR, NL] + body;
    LineLenIs(line, tail);
    assert [CR] + [NL] + body == tail;
    LineLenIs([CR], body);
    assert tail[..2] == [CR, NL] && tail[2..] == body;
    assert [] + (line + [NL]) == line + [NL];
    assert ReadHeader(tail, line + [NL]) == Header(line + [NL], body);
  }

  /** A framed payload is read back whole up to the cap, and is refused above. */
  lemma FramedRoundTrip(p: Bytes, rest: Bytes)
    ensures FramedReceive(FramedFrame(p) + rest)
         == if |p| <= MAX_FRAME_BYTES then Msg(p, rest) else Bad(p + rest)
  {
    var line := HEADER_NAME + DecimalBytes(|p|) + [CR];
    HeaderNameParts();
    DecimalIsRead(|p|);
    assert NoNl(line);
    assert FramedFrame(p) + rest == line + [NL] + ([CR, NL] + (p + rest));
    HeaderLines(line, p + rest);
    HeaderIsRead(|p|);
    assert (p + rest)[..|p|] == p && (p + rest)[|p|..] == rest;
  }

  /** A written payload without a newline is read back as one message. */
  lemma LineReadsOne(p: Bytes, rest: Bytes)
    requires NoNl(p)
    ensures LineReceive(LineFrame(p) + rest) == Msg(p, rest)
  {
    LineLenIs(p, rest);
    assert DropNl(p + [NL]) == p;
  }

  /** A last line that lacks its newline is a message all the same. */
  lemma LineReadsLast(p: Bytes)
    requires NoNl(p)
    ensures LineReceive(p) == if p == [] then Eof([]) else Msg(p, [])
  {
    assert FindNl(p, 0) == |p|;
  }
}
