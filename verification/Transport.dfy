/** The transports as objects: a reader that consumes a byte stream, a writer
    that appends to one, and the relay's pump loop between them. */
module Transport {
  import opened Prelude
  import opened Framing
  import Relay

  /** `io::Result<Option<Vec<u8>>>`. */
  datatype Received = Message(payload: Bytes) | End | Failure

  /** What `receive` reports for one step of the specification. */
  function Reported(r: Recv): Received {
    match r
    case Msg(p, _) => Message(p)
    case Eof(_) => End
    case Bad(_) => Failure
  }

  lemma JoinSnoc(parts: seq<Bytes>, p: Bytes)
    requires parts != []
    ensures Join(parts + [p]) == Join(parts) + [NL] + p
    decreases |parts|
  {
    assert (parts + [p])[1..] == parts[1..] + [p];
    if |parts| > 1 {
      JoinSnoc(parts[1..], p);
      var tail := Join(parts[1..]);
      assert parts[0] + [NL] + (tail + [NL] + p) == (parts[0] + [NL] + tail) + [NL] + p;
    }
  }

  method JoinLoop(parts: seq<Bytes>) returns (out: Bytes)
    ensures out == Join(parts)
  {
    out := [];
    for i := 0 to |parts|
      invariant out == Join(parts[..i])
    {
      assert parts[..i + 1] == parts[..i] + [parts[i]];
      if i > 0 {
        JoinSnoc(parts[..i], parts[i]);
        out := out + [NL];
      }
      out := out + parts[i];
    }
    assert parts[..|parts|] == parts;
  }

  method ParseContentLengthLoop(header: Bytes) returns (length: Length)
    ensures length == ParseContentLength(header)
  {
    var lines := SplitNl(header);
    for i := 0 to |lines|
      invariant LengthIn(lines) == LengthIn(lines[i..])
    {
      var line := DropCr(lines[i]);
      var pos := FindColon(line, 0);
      if pos < |line| {
        var name := TrimLoop(line[..pos]);
        if IsContentLength(name) {
          var value := TrimLoop(line[pos + 1..]);
          match ParseUsize(value) {
            case None => return Invalid;
            case Some(n) => return if n > MAX_FRAME_BYTES then Invalid else Exactly(n);
          }
        }
      }
    }
    return Invalid;
  }

  class Reader {
    const kind: Relay.Kind
    var unread: Bytes

    constructor (kind: Relay.Kind, stream: Bytes)
      ensures this.kind == kind && unread == stream
    {
      this.kind, unread := kind, stream;
    }

    /** `read_until(b'\n')`. */
    method ReadLine() returns (line: Bytes)
      modifies this
      ensures line == old(unread)[..LineLen(old(unread))]
      ensures unread == old(unread)[LineLen(old(unread))..]
    {
      var n := LineLen(unread);
      line, unread := unread[..n], unread[n..];
    }

    method ReceiveLine() returns (r: Received)
      modifies this
      ensures r == Reported(LineReceive(old(unread))) && unread == LineReceive(old(unread)).rest
    {
      var buf := ReadLine();
      if buf == [] { return End; }
      if buf[|buf| - 1] == NL {
        buf := buf[..|buf| - 1];
      }
      return Message(buf);
    }

    method ReceiveSse() returns (r: Received)
      modifies this
      ensures r == Reported(SseReceive(old(unread), [])) && unread == SseReceive(old(unread), []).rest
    {
      var data: seq<Bytes> := [];
      while true
        invariant SseReceive(unread, data) == SseReceive(old(unread), [])
        decreases |unread|
      {
        var line := ReadLine();
        if line == [] {
          if data == [] { return End; }
          var joined := JoinLoop(data);
          return Message(joined);
        }
        line := DropCr(DropNl(line));
        if line == [] {
          if data != [] {
            var joined := JoinLoop(data);
            return Message(joined);
          }
        } else if line[0] != COLON && StartsWith(line, DATA) {
          data := data + [FieldValue(line)];
        }
      }
    }

    method ReadHeaderLoop() returns (header: Option<Bytes>)
      modifies this
      ensures match ReadHeader(old(unread), [])
              case Header(bytes, rest) => header == Some(bytes) && unread == rest
              case NoHeader(rest) => header == None && unread == rest
    {
      var bytes: Bytes := [];
      while true
        invariant ReadHeader(unread, bytes) == ReadHeader(old(unread), [])
        decreases |unread|
      {
        var line := ReadLine();
        if line == [] { return None; }
        if line == [CR, NL] || line == [NL] { return Some(bytes); }
        bytes := bytes + line;
      }
    }

    method ReceiveFramed() returns (r: Received)
      modifies this
      ensures r == Reported(FramedReceive(old(unread))) && unread == FramedReceive(old(unread)).rest
    {
      var header := ReadHeaderLoop();
      if header == None { return End; }
      var length := ParseContentLengthLoop(header.value);
      match length {
        case Invalid => return Failure;
        case Exactly(n) =>
          if n > |unread| {
            unread := [];
            return End;
          }
          r, unread := Message(unread[..n]), unread[n..];
      }
    }

    method Receive() returns (r: Received)
      modifies this
      ensures r == Reported(Relay.Receive(kind, old(unread)))
      ensures unread == Relay.Receive(kind, old(unread)).rest
    {
      match kind {
        case Line => r := ReceiveLine();
        case Framed => r := ReceiveFramed();
        case Sse => r := ReceiveSse();
      }
    }
  }

  lemma SseLinesSnoc(parts: seq<Bytes>, p: Bytes)
    ensures SseLines(parts + [p]) == SseLines(parts) + DATA + [SPACE] + p + [NL]
    decreases |parts|
  {
    if parts == [] {
      assert SseLines([p]) == DATA + [SPACE] + p + [NL] + SseLines([]);
      assert [] + [p] == [p];
    } else {
      SseLinesSnoc(parts[1..], p);
      assert (parts + [p])[1..] == parts[1..] + [p];
      var head, tail := DATA + [SPACE] + parts[0] + [NL], SseLines(parts[1..]);
      assert head + (tail + DATA + [SPACE] + p + [NL]) == (head + tail) + DATA + [SPACE] + p + [NL];
    }
  }

  class Writer {
    const kind: Relay.Kind
    var written: Bytes
    var ended: bool

    constructor (kind: Relay.Kind)
      ensures this.kind == kind && written == [] && !ended
    {
      this.kind, written, ended := kind, [], false;
    }

    method WriteAll(bytes: Bytes)
      modifies this`written
      ensures written == old(written) + bytes
    {
      written := written + bytes;
    }

    method SendSse(payload: Bytes)
      modifies this`written
      ensures written == old(written) + SseFrame(payload)
    {
      var parts := SplitNl(payload);
      for i := 0 to |parts|
        invariant written == old(written) + SseLines(parts[..i])
      {
        ghost var sent := SseLines(parts[..i]);
        WriteAll(DATA + [SPACE]);
        WriteAll(parts[i]);
        WriteAll([NL]);
        SseLinesSnoc(parts[..i], parts[i]);
        assert parts[..i + 1] == parts[..i] + [parts[i]];
        assert written == old(written) + (sent + DATA + [SPACE] + parts[i] + [NL]);
      }
      assert parts[..|parts|] == parts;
      WriteAll([NL]);
    }

    method Send(payload: Bytes)
      modifies this`written
      ensures written == old(written) + Relay.Frame(kind, payload)
    {
      match kind {
        case Line =>
          WriteAll(payload);
          WriteAll([NL]);
        case Framed =>
          WriteAll(HEADER_NAME + DecimalBytes(|payload|) + [CR, NL] + [CR, NL]);
          WriteAll(payload);
        case Sse => SendSse(payload);
      }
    }

    method SendEof()
      modifies this`ended
      ensures ended
    {
      ended := true;
    }
  }

  /** Written so far, plus the pump's work on what is unread, makes `target`. */
  ghost predicate Remains(src: Relay.Kind, dst: Relay.Kind, unread: Bytes, written: Bytes, target: Bytes, eof: bool) {
    var left := Relay.Pump(src, dst, unread);
    written + left.written == target && left.eof == eof
  }

  lemma TurnRemains(src: Relay.Kind, dst: Relay.Kind, unread: Bytes, written: Bytes, target: Bytes, eof: bool)
    requires Remains(src, dst, unread, written, target, eof)
    ensures var r := Relay.Receive(src, unread);
      if r.Msg? then Remains(src, dst, r.rest, written + Relay.Frame(dst, r.payload), target, eof)
      else written == target && eof == r.Eof?
  {
    var r := Relay.Receive(src, unread);
    if r.Msg? {
      Relay.PumpMsg(src, dst, unread);
      var piece, left := Relay.Frame(dst, r.payload), Relay.Pump(src, dst, r.rest).written;
      assert (written + piece) + left == written + (piece + left);
    } else {
      Relay.PumpEnds(src, dst, unread);
    }
  }

  /** The relay's loop: it writes exactly what `Relay.Pump` says, and signals the
      end of the stream exactly when the source ended without an error. */
  method Pump(src: Reader, dst: Writer) returns (ok: bool)
    modifies src, dst
    ensures var goal := Relay.Pump(src.kind, dst.kind, old(src.unread));
      && dst.written == old(dst.written) + goal.written
      && ok == goal.eof
      && dst.ended == (old(dst.ended) || goal.eof)
  {
    ghost var goal := Relay.Pump(src.kind, dst.kind, src.unread);
    ghost var target := dst.written + goal.written;
    while true
      invariant dst.ended == old(dst.ended)
      invariant Remains(src.kind, dst.kind, src.unread, dst.written, target, goal.eof)
      decreases |src.unread|
    {
      TurnRemains(src.kind, dst.kind, src.unread, dst.written, target, goal.eof);
      var r := src.Receive();
      match r {
        case End =>
          dst.SendEof();
          return true;
        case Failure => return false;
        case Message(p) => dst.Send(p);
      }
    }
  }
}
