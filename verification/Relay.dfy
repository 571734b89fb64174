/** Whole message streams: what a reader recovers from what a writer wrote, and
    the relay that pumps one framing into another. */
module Relay {
  import opened Prelude
  import opened Framing

  datatype Kind = Line | Framed | Sse

  function Receive(k: Kind, s: Bytes): (r: Recv)
    ensures r.Msg? ==> |r.rest| < |s|
  {
    match k
    case Line => LineReceive(s)
    case Framed => FramedReceive(s)
    case Sse => SseReceive(s, [])
  }

  function Frame(k: Kind, p: Bytes): Bytes {
    match k
    case Line => LineFrame(p)
    case Framed => FramedFrame(p)
    case Sse => SseFrame(p)
  }

  /** Every message of a stream, and whether it ended without an error. */
  datatype Stream = Stream(msgs: seq<Bytes>, clean: bool)

  function Then(first: seq<Bytes>, rest: Stream): Stream {
    Stream(first + rest.msgs, rest.clean)
  }

  function ReadAll(k: Kind, s: Bytes): Stream
    decreases |s|
  {
    match Receive(k, s)
    case Msg(p, rest) => Then([p], ReadAll(k, rest))
    case Eof(_) => Stream([], true)
    case Bad(_) => Stream([], false)
  }

  function WriteAll(k: Kind, ps: seq<Bytes>): Bytes {
    if ps == [] then [] else Frame(k, ps[0]) + WriteAll(k, ps[1..])
  }

  /** What the reader makes of each written payload. */
  function Echo(k: Kind, ps: seq<Bytes>): Stream {
    if ps == [] then Stream([], true)
    else
      match k
      case Line => Then(SplitNl(ps[0]), Echo(k, ps[1..]))
      case Sse => Then([WithoutCrs(ps[0])], Echo(k, ps[1..]))
      case Framed =>
        if |ps[0]| <= MAX_FRAME_BYTES then Then([ps[0]], Echo(k, ps[1..])) else Stream([], false)
  }

  predicate Clean(k: Kind, p: Bytes) {
    match k
    case Line => NoNl(p)
    case Framed => |p| <= MAX_FRAME_BYTES
    case Sse => CrFree(p)
  }

  predicate AllClean(k: Kind, ps: seq<Bytes>) {
    forall i :: 0 <= i < |ps| ==> Clean(k, ps[i])
  }

  // ---- What a reader recovers ----

  lemma ReceiveFrame(k: Kind, p: Bytes, rest: Bytes)
    requires k == Line ==> NoNl(p)
    ensures Receive(k, Frame(k, p) + rest) ==
      match k
      case Line => Msg(p, rest)
      case Framed => if |p| <= MAX_FRAME_BYTES then Msg(p, rest) else Bad(p + rest)
      case Sse => Msg(WithoutCrs(p), rest)
  {
    match k
    case Line => LineReadsOne(p, rest);
    case Framed => FramedRoundTrip(p, rest);
    case Sse => SseRoundTrip(p, rest);
  }

  lemma ReadAllMsg(k: Kind, s: Bytes)
    requires Receive(k, s).Msg?
    ensures ReadAll(k, s) == Then([Receive(k, s).payload], ReadAll(k, Receive(k, s).rest))
  {
  }

  lemma ThenThen(a: seq<Bytes>, b: seq<Bytes>, r: Stream)
    ensures Then(a, Then(b, r)) == Then(a + b, r)
  {
  }

  lemma LineReadsFirst(a: Bytes, tail: Bytes)
    requires NoNl(a)
    ensures ReadAll(Line, LineFrame(a) + tail) == Then([a], ReadAll(Line, tail))
  {
    ReceiveFrame(Line, a, tail);
    ReadAllMsg(Line, LineFrame(a) + tail);
  }

  /** A written line is read back in as many messages as it has lines. */
  lemma {:induction false} LineReadsPieces(p: Bytes, rest: Bytes)
    ensures ReadAll(Line, LineFrame(p) + rest) == Then(SplitNl(p), ReadAll(Line, rest))
    decreases |p|
  {
    var k := FindNl(p, 0);
    if k == |p| {
      SplitPartsAreLines(p);
      LineReadsFirst(p, rest);
    } else {
      var a, b := p[..k], p[k + 1..];
      assert p == a + [NL] + b;
      SplitFirstLine(a, b);
      assert LineFrame(p) + rest == LineFrame(a) + (LineFrame(b) + rest);
      LineReadsFirst(a, LineFrame(b) + rest);
      LineReadsPieces(b, rest);
      ThenThen([a], SplitNl(b), ReadAll(Line, rest));
    }
  }

  /** Reading a written stream gives `Echo`, in every framing. */
  lemma {:induction false} ReadBack(k: Kind, ps: seq<Bytes>)
    ensures ReadAll(k, WriteAll(k, ps)) == Echo(k, ps)
    decreases |ps|
  {
    if ps == [] {
      assert Receive(k, []) == Eof([]);
    } else {
      var rest := WriteAll(k, ps[1..]);
      ReadBack(k, ps[1..]);
      if k == Line {
        LineReadsPieces(ps[0], rest);
      } else {
        ReceiveFrame(k, ps[0], rest);
      }
    }
  }

  lemma {:induction false} EchoIsNoShorter(k: Kind, ps: seq<Bytes>)
    requires Echo(k, ps).clean
    ensures |Echo(k, ps).msgs| >= |ps|
  {
    if ps != [] {
      EchoIsNoShorter(k, ps[1..]);
    }
  }

  lemma AllCleanCons(k: Kind, ps: seq<Bytes>)
    requires ps != []
    ensures AllClean(k, ps) <==> Clean(k, ps[0]) && AllClean(k, ps[1..])
  {
    assert ps == [ps[0]] + ps[1..];
  }

  lemma {:induction false} EchoIsExact(k: Kind, ps: seq<Bytes>)
    ensures Echo(k, ps) == Stream(ps, true) <==> AllClean(k, ps)
  {
    if ps != [] {
      var rest := Echo(k, ps[1..]);
      EchoIsExact(k, ps[1..]);
      AllCleanCons(k, ps);
      assert ps == [ps[0]] + ps[1..];
      match k
      case Line =>
        SplitPartsAreLines(ps[0]);
        if rest.clean { EchoIsNoShorter(k, ps[1..]); }
        if Echo(k, ps) == Stream(ps, true) {
          assert |SplitNl(ps[0])| == 1;
          assert rest.msgs == Echo(k, ps).msgs[1..];
        }
      case Framed =>
        if Echo(k, ps) == Stream(ps, true) { assert rest.msgs == Echo(k, ps).msgs[1..]; }
      case Sse =>
        WithoutCrsExactly(ps[0]);
        if Echo(k, ps) == Stream(ps, true) {
          assert Echo(k, ps).msgs[0] == WithoutCrs(ps[0]);
          assert rest.msgs == Echo(k, ps).msgs[1..];
        }
    }
  }

  /** The stream law: a reader recovers exactly the written payloads, and then a
      clean end, exactly when every payload suits the framing. */
  lemma RoundTripExactly(k: Kind, ps: seq<Bytes>)
    ensures ReadAll(k, WriteAll(k, ps)) == Stream(ps, true) <==> AllClean(k, ps)
  {
    ReadBack(k, ps);
    EchoIsExact(k, ps);
  }

  // ---- The relay ----

  /** What `pump` writes, and whether it signals the end of the stream. */
  datatype Pumped = Pumped(written: Bytes, eof: bool)

  function Pump(src: Kind, dst: Kind, s: Bytes): Pumped {
    var r := ReadAll(src, s);
    Pumped(WriteAll(dst, r.msgs), r.clean)
  }

  lemma {:induction false} WithoutCrsShrinks(p: Bytes)
    ensures WithoutCrs(p) == p || |WithoutCrs(p)| < |p|
  {
    if p != [] {
      WithoutCrsShrinks(p[1..]);
      assert p == [p[0]] + p[1..];
    }
  }

  lemma {:induction false} SseEcho(ps: seq<Bytes>)
    ensures Echo(Sse, ps).clean && |Echo(Sse, ps).msgs| == |ps|
    ensures forall i :: 0 <= i < |ps| ==> Echo(Sse, ps).msgs[i] == WithoutCrs(ps[i])
  {
    if ps != [] {
      SseEcho(ps[1..]);
    }
  }

  /** Only one thing makes a bridge's two passes cancel: neither changed anything. */
  lemma EchoTwice(src: Kind, dst: Kind, ps: seq<Bytes>)
    requires Echo(src, ps).clean && Echo(dst, Echo(src, ps).msgs) == Stream(ps, true)
    ensures Echo(src, ps).msgs == ps
  {
    var ms := Echo(src, ps).msgs;
    EchoIsNoShorter(src, ps);
    EchoIsNoShorter(dst, ms);
    if src == Sse {
      SseEcho(ps);
      if dst == Sse {
        SseEcho(ms);
        forall i | 0 <= i < |ps| ensures ms[i] == ps[i] {
          WithoutCrsShrinks(ps[i]);
        }
      } else {
        SameCountSame(dst, ms);
      }
    } else {
      SameCountSame(src, ps);
    }
  }

  lemma {:induction false} SameCountSame(k: Kind, ps: seq<Bytes>)
    requires k != Sse && Echo(k, ps).clean && |Echo(k, ps).msgs| == |ps|
    ensures Echo(k, ps).msgs == ps
  {
    if ps != [] {
      EchoIsNoShorter(k, ps[1..]);
      assert ps == [ps[0]] + ps[1..];
      if k == Line { SplitPartsAreLines(ps[0]); }
      SameCountSame(k, ps[1..]);
    }
  }

  /** The bridge law, for any two framings: what a peer wrote in one framing is
      read back unchanged in the other, with the end of stream signalled,
      exactly when every payload suits both. */
  lemma BridgeExactly(src: Kind, dst: Kind, ps: seq<Bytes>)
    ensures var out := Pump(src, dst, WriteAll(src, ps));
      (out.eof && ReadAll(dst, out.written) == Stream(ps, true)) <==> (AllClean(src, ps) && AllClean(dst, ps))
  {
    ReadBack(src, ps);
    EchoIsExact(src, ps);
    EchoIsExact(dst, ps);
    var ms := Echo(src, ps).msgs;
    ReadBack(dst, ms);
    if Echo(src, ps).clean && Echo(dst, ms) == Stream(ps, true) {
      EchoTwice(src, dst, ps);
    }
  }

  /** For any incoming bytes at all, the far reader sees the near reader's
      messages exactly when each of them suits the outgoing framing. */
  lemma PumpPreservesMessages(src: Kind, dst: Kind, s: Bytes)
    ensures ReadAll(dst, Pump(src, dst, s).written) == Stream(ReadAll(src, s).msgs, true) <==>
      AllClean(dst, ReadAll(src, s).msgs)
  {
    RoundTripExactly(dst, ReadAll(src, s).msgs);
  }

  lemma PumpMsg(src: Kind, dst: Kind, s: Bytes)
    requires Receive(src, s).Msg?
    ensures var r := Receive(src, s);
      && Pump(src, dst, s).written == Frame(dst, r.payload) + Pump(src, dst, r.rest).written
      && Pump(src, dst, s).eof == Pump(src, dst, r.rest).eof
  {
    ReadAllMsg(src, s);
    var r := Receive(src, s);
    var tail := ReadAll(src, r.rest);
    assert Then([r.payload], tail).msgs[1..] == tail.msgs;
  }

  lemma LineReceiveParts(s: Bytes)
    requires s != []
    ensures var r := Receive(Line, s);
      && r.Msg? && |r.rest| < |s|
      && (if r.rest == [] && s[|s| - 1] != NL then r.payload == s else s == LineFrame(r.payload) + r.rest)
      && (r.rest != [] ==> r.rest[|r.rest| - 1] == s[|s| - 1])
  {
    var k := FindNl(s, 0);
    var n := LineLen(s);
    assert s == s[..n] + s[n..];
    if k < |s| {
      assert s[..n] == s[..k] + [NL];
    } else {
      assert n == |s| && s[..n] == s;
    }
  }

  /** A line relay is byte-faithful: it only completes an unterminated last line. */
  lemma {:induction false} LineRelayIsIdentity(s: Bytes)
    ensures Pump(Line, Line, s).eof
    ensures Pump(Line, Line, s).written == if s == [] || s[|s| - 1] == NL then s else s + [NL]
    decreases |s|
  {
    if s != [] {
      LineReceiveParts(s);
      PumpMsg(Line, Line, s);
      LineRelayIsIdentity(Receive(Line, s).rest);
    }
  }

  // ---- Both directions at once ----

  /** One direction of the relay in flight: bytes still to read, bytes written. */
  datatype Flow = Flow(unread: Bytes, written: Bytes, status: Status)
  datatype Status = Running | Finished | Failed

  /** One turn of the pump's loop, given what `receive` returned. */
  function Advance(dst: Kind, f: Flow, r: Recv): Flow {
    match r
    case Msg(p, rest) => Flow(rest, f.written + Frame(dst, p), Running)
    case Eof(rest) => Flow(rest, f.written, Finished)
    case Bad(rest) => Flow(rest, f.written, Failed)
  }

  function StepFlow(src: Kind, dst: Kind, f: Flow): Flow {
    if f.status == Running then Advance(dst, f, Receive(src, f.unread)) else f
  }

  datatype Relaying = Relaying(out: Flow, back: Flow)

  /** One scheduler choice. A failure on either side stops both. */
  function Step(client: Kind, backend: Kind, r: Relaying, outward: bool): Relaying {
    if r.out.status == Failed || r.back.status == Failed then r
    else if outward then r.(out := StepFlow(client, backend, r.out))
    else r.(back := StepFlow(backend, client, r.back))
  }

  function Run(client: Kind, backend: Kind, r: Relaying, schedule: seq<bool>): Relaying
    decreases |schedule|
  {
    if schedule == [] then r
    else Run(client, backend, Step(client, backend, r, schedule[0]), schedule[1..])
  }

  /** What is written, plus what is still to be read, is what `pump` would write. */
  ghost predicate Meets(goal: Pumped, left: Pumped, f: Flow) {
    match f.status
    case Running => f.written + left.written == goal.written && left.eof == goal.eof
    case Finished => f.written == goal.written && goal.eof
    case Failed => f.written == goal.written && !goal.eof
  }

  ghost predicate OnTrack(src: Kind, dst: Kind, whole: Bytes, f: Flow) {
    Meets(Pump(src, dst, whole), Pump(src, dst, f.unread), f)
  }

  lemma AdvanceMeets(dst: Kind, goal: Pumped, left: Pumped, left': Pumped, f: Flow, r: Recv)
    requires f.status == Running && Meets(goal, left, f)
    requires r.Msg? ==> left == Pumped(Frame(dst, r.payload) + left'.written, left'.eof)
    requires !r.Msg? ==> left == Pumped([], r.Eof?)
    ensures Meets(goal, left', Advance(dst, f, r))
  {
    if r.Msg? {
      var piece := Frame(dst, r.payload);
      assert (f.written + piece) + left'.written == f.written + (piece + left'.written);
    }
  }

  lemma StepKeepsOnTrack(src: Kind, dst: Kind, whole: Bytes, f: Flow)
    requires OnTrack(src, dst, whole, f)
    ensures OnTrack(src, dst, whole, StepFlow(src, dst, f))
  {
    if f.status == Running {
      var r := Receive(src, f.unread);
      if r.Msg? {
        PumpMsg(src, dst, f.unread);
      } else {
        PumpEnds(src, dst, f.unread);
      }
      AdvanceMeets(dst, Pump(src, dst, whole), Pump(src, dst, f.unread), Pump(src, dst, r.rest), f, r);
    }
  }

  lemma PumpEnds(src: Kind, dst: Kind, s: Bytes)
    requires !Receive(src, s).Msg?
    ensures Pump(src, dst, s) == Pumped([], Receive(src, s).Eof?)
  {
  }

  lemma {:induction false} RunKeepsOnTrack(client: Kind, backend: Kind, a: Bytes, b: Bytes, r: Relaying,
      schedule: seq<bool>)
    requires OnTrack(client, backend, a, r.out) && OnTrack(backend, client, b, r.back)
    ensures OnTrack(client, backend, a, Run(client, backend, r, schedule).out)
    ensures OnTrack(backend, client, b, Run(client, backend, r, schedule).back)
    decreases |schedule|
  {
    if schedule != [] {
      StepKeepsOnTrack(client, backend, a, r.out);
      StepKeepsOnTrack(backend, client, b, r.back);
      RunKeepsOnTrack(client, backend, a, b, Step(client, backend, r, schedule[0]), schedule[1..]);
    }
  }

  /** However the two pumps interleave, each side has at every moment received a
      prefix of what `pump` alone would give it, the whole of it once that pump
      has finished, and never a byte of the other direction. */
  lemma RelayNeverMixes(client: Kind, backend: Kind, a: Bytes, b: Bytes, schedule: seq<bool>)
    ensures var start := Relaying(Flow(a, [], Running), Flow(b, [], Running));
      var end := Run(client, backend, start, schedule);
      var (toBackend, toClient) := (Pump(client, backend, a), Pump(backend, client, b));
      && end.out.written <= toBackend.written
      && end.back.written <= toClient.written
      && (end.out.status == Finished ==> end.out.written == toBackend.written && toBackend.eof)
      && (end.back.status == Finished ==> end.back.written == toClient.written && toClient.eof)
  {
    var start := Relaying(Flow(a, [], Running), Flow(b, [], Running));
    assert forall w: Bytes :: [] + w == w;
    RunKeepsOnTrack(client, backend, a, b, start, schedule);
  }
}
