/** The resilient router: one breaker per backend decides, request by request,
    which channels may be used. Whole runs are compared with a router that keeps
    no breaker at all, only the history of outcomes. */
module Resilient {
  import opened Prelude
  import opened JsonValue
  import opened Breaker
  import Namespace
  import Sorting

  const SERVER_NOT_AVAILABLE := -32003
  const INVALID_PARAMS := -32602
  const INTERNAL_ERROR := -32603

  datatype Member = Member(id: string, threshold: nat, reset: real)
  type Members = seq<Member>

  /** One request: when it came, and what each channel would answer (none for a
      transport failure). `Survey` only asks who is available. */
  datatype Request =
    | List(at: real, answers: nat -> Option<Json>)
    | Call(at: real, message: Json, answer: Option<Json>)
    | Survey(at: real)

  function Position(ms: Members, id: string, from: nat): (r: Option<nat>)
    requires from <= |ms|
    ensures r.Some? ==> from <= r.value < |ms| && ms[r.value].id == id
    ensures r.Some? ==> forall j :: from <= j < r.value ==> ms[j].id != id
    ensures r.None? ==> forall j :: from <= j < |ms| ==> ms[j].id != id
    decreases |ms| - from
  {
    if from == |ms| then None else if ms[from].id == id then Some(from) else Position(ms, id, from + 1)
  }

  function NameIn(message: Json): string {
    OrEmpty(GetStr(Index(message, "params"), "name"))
  }

  /** The backend a call names, and the name it has there. */
  function Resolved(ms: Members, message: Json): Option<(nat, string)> {
    match Namespace.Split(NameIn(message))
    case None => None
    case Some((id, original)) =>
      match Position(ms, id, 0)
      case None => None
      case Some(i) => Some((i, original))
  }

  /** The request would use channel `i` if its breaker lets it. */
  predicate Wants(ms: Members, q: Request, i: nat) {
    match q
    case List(_, _) => true
    case Call(_, message, _) => Resolved(ms, message).Some? && Resolved(ms, message).value.0 == i
    case Survey(_) => false
  }

  function AnswerOf(q: Request, i: nat): Option<Json> {
    match q
    case List(_, answers) => answers(i)
    case Call(_, _, answer) => answer
    case Survey(_) => None
  }

  /** What a call hands to its channel: the client's parameters, with the name
      the backend itself uses. */
  function CallParams(ms: Members, message: Json): Json {
    var params := if Get(message, "params").Some? then Get(message, "params").value else Obj(map[]);
    match Resolved(ms, message)
    case None => params
    case Some((_, original)) => Put(params, "name", Str(original))
  }

  lemma {:induction false} PositionFirst(ms: Members, i: nat, from: nat)
    requires from <= i < |ms| && forall j :: from <= j < i ==> ms[j].id != ms[i].id
    ensures Position(ms, ms[i].id, from) == Some(i)
    decreases i - from
  {
    if from < i { PositionFirst(ms, i, from + 1); }
  }

  /** A call under a label leads to the labelled backend, and the parameters it is
      handed are the client's but for the name, which is the backend's own. */
  lemma CallReachesItsTool(ms: Members, message: Json, i: nat, original: string)
    requires i < |ms| && forall j :: 0 <= j < i ==> ms[j].id != ms[i].id
    requires Namespace.ValidBackendId(ms[i].id) && !Namespace.EndsInUnderscore(ms[i].id) && original != ""
    requires NameIn(message) == Namespace.Prefix(ms[i].id, original)
    ensures Resolved(ms, message) == Some((i, original))
    ensures var (params, sent) := (Index(message, "params"), CallParams(ms, message));
      && GetStr(sent, "name") == Some(original)
      && forall key :: key != "name" ==> Get(sent, key) == Get(params, key)
  {
    Namespace.SplitUndoesPrefix(ms[i].id, original);
    PositionFirst(ms, i, 0);
    assert NameIn(message) != "";
  }

  // ---- One breaker through one request ----

  predicate Used(ms: Members, q: Request, i: nat, c: Cell) {
    Wants(ms, q, i) && Allow(c, q.at)
  }

  function StepCell(ms: Members, q: Request, i: nat, c: Cell): Cell {
    if Used(ms, q, i, c) then
      if AnswerOf(q, i).Some? then Succeed(Poll(c, q.at)) else Fail(Poll(c, q.at), q.at)
    else if Wants(ms, q, i) || q.Survey? then Poll(c, q.at)
    else c
  }

  type Cells = seq<Cell>

  function StepAll(ms: Members, q: Request, cells: Cells): Cells
    requires |cells| == |ms|
  {
    seq(|ms|, i requires 0 <= i < |ms| => StepCell(ms, q, i, cells[i]))
  }

  /** The cells part way through a request: the first `n` have had their turn. */
  function StepSome(ms: Members, q: Request, cells: Cells, n: nat): Cells
    requires n <= |ms| == |cells|
  {
    seq(|ms|, i requires 0 <= i < |ms| => if i < n then StepCell(ms, q, i, cells[i]) else cells[i])
  }

  lemma StepSomeNext(ms: Members, q: Request, cells: Cells, n: nat)
    requires n <= |ms| == |cells|
    ensures StepSome(ms, q, cells, 0) == cells && StepSome(ms, q, cells, |ms|) == StepAll(ms, q, cells)
    ensures n < |ms| ==> StepSome(ms, q, cells, n)[n := StepCell(ms, q, n, cells[n])] == StepSome(ms, q, cells, n + 1)
  {
  }

  function Uses(ms: Members, q: Request, cells: Cells): nat -> bool {
    (i: nat) => i < |cells| && Used(ms, q, i, cells[i])
  }

  function Silent(ms: Members, q: Request, cells: Cells): nat -> bool {
    (i: nat) => !(i < |cells| && Used(ms, q, i, cells[i])) || AnswerOf(q, i).None?
  }

  function Up(cells: Cells, at: real): nat -> bool {
    (i: nat) => i < |cells| && Allow(cells[i], at)
  }

  /** The channels used, in the order they are used. */
  function Invoked(ms: Members, q: Request, cells: Cells): seq<nat> {
    Picked(Uses(ms, q, cells), |ms|)
  }

  /** The ids of the first `n` members that satisfy `p`. */
  function IdsOf(ms: Members, p: nat -> bool, n: nat): seq<string>
    requires n <= |ms|
  {
    if n == 0 then [] else IdsOf(ms, p, n - 1) + if p(n - 1) then [ms[n - 1].id] else []
  }

  lemma {:induction false} IdsOfExactly(ms: Members, p: nat -> bool, n: nat, id: string)
    requires n <= |ms|
    ensures id in IdsOf(ms, p, n) <==> exists i: nat :: i < n && p(i) && ms[i].id == id
  {
    if n > 0 {
      IdsOfExactly(ms, p, n - 1, id);
      if p(n - 1) && ms[n - 1].id == id { assert IdsOf(ms, p, n)[|IdsOf(ms, p, n - 1)|] == id; }
    }
  }

  function PrefixTool(id: string, tool: Json): Json {
    Put(tool, "name", Str(Namespace.Prefix(id, OrEmpty(GetStr(tool, "name")))))
  }

  function ToolsIn(response: Json): seq<Json> {
    var tools := GetArr(Index(response, "result"), "tools");
    if tools.Some? then tools.value else []
  }

  function Prefixed(id: string, tools: seq<Json>, n: nat): seq<Json>
    requires n <= |tools|
  {
    if n == 0 then [] else Prefixed(id, tools, n - 1) + [PrefixTool(id, tools[n - 1])]
  }

  function Contribution(ms: Members, q: Request, cells: Cells, i: nat): seq<Json>
    requires i < |ms| == |cells|
  {
    if Used(ms, q, i, cells[i]) && AnswerOf(q, i).Some?
    then Prefixed(ms[i].id, ToolsIn(AnswerOf(q, i).value), |ToolsIn(AnswerOf(q, i).value)|)
    else []
  }

  method PrefixAll(id: string, listed: seq<Json>, before: seq<Json>) returns (tools: seq<Json>)
    ensures tools == before + Prefixed(id, listed, |listed|)
  {
    tools := before;
    for k := 0 to |listed|
      invariant tools == before + Prefixed(id, listed, k)
    {
      tools := tools + [PrefixTool(id, listed[k])];
    }
  }

  function Gathered(ms: Members, q: Request, cells: Cells, n: nat): seq<Json>
    requires n <= |ms| == |cells|
  {
    if n == 0 then [] else Gathered(ms, q, cells, n - 1) + Contribution(ms, q, cells, n - 1)
  }

  function Strings(xs: seq<string>): Json {
    Arr(seq(|xs|, i requires 0 <= i < |xs| => Str(xs[i])))
  }

  function PartialMeta(missing: seq<string>, reason: string): Json {
    Obj(map["io.modelcontextprotocol/proxy-partial" := Obj(map[
      "unavailable_backends" := Strings(Sorting.Once(missing)),
      "reason" := Str(reason)])])
  }

  function Result(id: Json, result: Json): Json {
    Obj(map["jsonrpc" := Str("2.0"), "id" := id, "result" := result])
  }

  function ErrorReply(id: Json, error: Json): Json {
    Obj(map["jsonrpc" := Str("2.0"), "id" := id, "error" := error])
  }

  function Refusal(id: Json, code: int, text: string): Json {
    ErrorReply(id, Obj(map["code" := Num(code), "message" := Str(text)]))
  }

  /** What one more backend adds to each of the three lists. */
  lemma AskNext(ms: Members, q: Request, cells: Cells, i: nat)
    requires i < |ms| == |cells|
    ensures Picked(Uses(ms, q, cells), i + 1) ==
      Picked(Uses(ms, q, cells), i) + if Used(ms, q, i, cells[i]) then [i] else []
    ensures IdsOf(ms, Silent(ms, q, cells), i + 1) == IdsOf(ms, Silent(ms, q, cells), i) +
      if Used(ms, q, i, cells[i]) && AnswerOf(q, i).Some? then [] else [ms[i].id]
    ensures Gathered(ms, q, cells, i + 1) == Gathered(ms, q, cells, i) + Contribution(ms, q, cells, i)
  {
  }

  function ListResult(id: Json, tools: seq<Json>, missing: seq<string>): Json {
    var result := Obj(map["tools" := Arr(tools)]);
    Result(id, if missing == [] then result else Put(result, "_meta", PartialMeta(missing, "circuit_breaker_open")))
  }

  function ListReply(ms: Members, q: Request, cells: Cells, id: Json): Json
    requires |ms| == |cells|
  {
    ListResult(id, Gathered(ms, q, cells, |ms|), IdsOf(ms, Silent(ms, q, cells), |ms|))
  }

  function CallReply(ms: Members, q: Request, cells: Cells, id: Json): Json
    requires q.Call? && |ms| == |cells|
  {
    var r := Resolved(ms, q.message);
    if r.None? then Refusal(id, INVALID_PARAMS, "unknown tool: " + NameIn(q.message))
    else
      var i := r.value.0;
      if !Allow(cells[i], q.at) then Refusal(id, SERVER_NOT_AVAILABLE, "backend " + ms[i].id + " unavailable")
      else
        match q.answer
        case None => Refusal(id, SERVER_NOT_AVAILABLE, "backend " + ms[i].id + " failed")
        case Some(response) =>
          if Get(response, "result").Some? then Result(id, Get(response, "result").value)
          else if Get(response, "error").Some? then ErrorReply(id, Get(response, "error").value)
          else Refusal(id, INTERNAL_ERROR, "backend error")
  }

  /** The channel a call is sent on, if any. */
  function OneChannel(ms: Members, q: Request, cells: Cells): seq<nat>
    requires q.Call? && |ms| == |cells|
  {
    var r := Resolved(ms, q.message);
    if r.Some? && Used(ms, q, r.value.0, cells[r.value.0]) then [r.value.0] else []
  }

  function AvailableIds(ms: Members, cells: Cells, at: real): seq<string> {
    IdsOf(ms, Up(cells, at), |ms|)
  }

  class ResilientRouter {
    const ms: Members
    var cells: Cells
    var last: seq<string>

    ghost predicate Valid()
      reads this
    {
      |cells| == |ms|
    }

    constructor (ms: Members, at: real)
      ensures this.ms == ms && Valid()
      ensures cells == StepAll(ms, Survey(at), NewCells(ms))
      ensures last == Sorting.Sort(AvailableIds(ms, NewCells(ms), at))
    {
      this.ms, cells, last := ms, NewCells(ms), [];
      new;
      last := Available(at);
    }

    method Available(at: real) returns (ids: seq<string>)
      requires Valid()
      modifies this`cells
      ensures Valid() && cells == StepAll(ms, Survey(at), old(cells))
      ensures ids == Sorting.Sort(AvailableIds(ms, old(cells), at))
    {
      ids := [];
      ghost var before := cells;
      for i := 0 to |ms|
        invariant Valid()
        invariant forall j :: 0 <= j < |ms| ==>
          cells[j] == if j < i then StepCell(ms, Survey(at), j, before[j]) else before[j]
        invariant ids == IdsOf(ms, Up(before, at), i)
      {
        if Allow(cells[i], at) {
          ids := ids + [ms[i].id];
        }
        cells := cells[i := Poll(cells[i], at)];
      }
      assert cells == StepAll(ms, Survey(at), before);
      ids := Sorting.Sort(ids);
    }

    /** One backend's turn: the breaker is asked, then told how it went. */
    method Turn(q: Request, i: nat) returns (answer: Option<Json>, used: bool)
      requires Valid() && q.List? && i < |ms|
      modifies this`cells
      ensures Valid() && cells == old(cells)[i := StepCell(ms, q, i, old(cells)[i])]
      ensures used == Used(ms, q, i, old(cells)[i])
      ensures answer == if used then AnswerOf(q, i) else None
    {
      used := Allow(cells[i], q.at);
      cells := cells[i := Poll(cells[i], q.at)];
      answer := None;
      if used {
        answer := q.answers(i);
        cells := cells[i := if answer.None? then Fail(cells[i], q.at) else Succeed(cells[i])];
      }
    }

    method AskAll(q: Request) returns (tools: seq<Json>, unavailable: seq<string>, invoked: seq<nat>)
      requires Valid() && q.List?
      modifies this`cells
      ensures Valid() && cells == StepAll(ms, q, old(cells))
      ensures invoked == Invoked(ms, q, old(cells))
      ensures unavailable == IdsOf(ms, Silent(ms, q, old(cells)), |ms|)
      ensures tools == Gathered(ms, q, old(cells), |ms|)
    {
      tools, unavailable, invoked := [], [], [];
      ghost var before := cells;
      StepSomeNext(ms, q, before, 0);
      for i := 0 to |ms|
        invariant cells == StepSome(ms, q, before, i)
        invariant invoked == Picked(Uses(ms, q, before), i)
        invariant unavailable == IdsOf(ms, Silent(ms, q, before), i)
        invariant tools == Gathered(ms, q, before, i)
      {
        StepSomeNext(ms, q, before, i);
        AskNext(ms, q, before, i);
        var answer, used := Turn(q, i);
        if used {
          invoked := invoked + [i];
        }
        if answer.None? {
          unavailable := unavailable + [ms[i].id];
        } else {
          tools := PrefixAll(ms[i].id, ToolsIn(answer.value), tools);
        }
      }
    }

    /** `invoked` records which channels were used, in order. */
    method ToolsList(q: Request, id: Json) returns (reply: Json, invoked: seq<nat>)
      requires Valid() && q.List?
      modifies this`cells
      ensures Valid() && cells == StepAll(ms, q, old(cells))
      ensures invoked == Invoked(ms, q, old(cells))
      ensures reply == ListReply(ms, q, old(cells), id)
    {
      var tools, unavailable, used := AskAll(q);
      invoked := used;
      var result := Obj(map["tools" := Arr(tools)]);
      if unavailable != [] {
        result := Put(result, "_meta", PartialMeta(unavailable, "circuit_breaker_open"));
      }
      reply := Result(id, result);
    }

    /** `sent` records the parameters handed to the channel that was used. */
    method ToolsCall(q: Request, id: Json) returns (reply: Json, invoked: seq<nat>, sent: seq<Json>)
      requires Valid() && q.Call?
      modifies this`cells
      ensures Valid() && cells == StepAll(ms, q, old(cells))
      ensures reply == CallReply(ms, q, old(cells), id)
      ensures invoked == OneChannel(ms, q, old(cells))
      ensures sent == if invoked == [] then [] else [CallParams(ms, q.message)]
    {
      ghost var before := cells;
      invoked, sent := [], [];
      var resolved := Resolved(ms, q.message);
      if resolved.None? {
        assert cells == StepAll(ms, q, before);
        return Refusal(id, INVALID_PARAMS, "unknown tool: " + NameIn(q.message)), [], [];
      }
      var i := resolved.value.0;
      var allowed := Allow(cells[i], q.at);
      cells := cells[i := Poll(cells[i], q.at)];
      if !allowed {
        assert cells == StepAll(ms, q, before);
        return Refusal(id, SERVER_NOT_AVAILABLE, "backend " + ms[i].id + " unavailable"), [], [];
      }
      var params := if Get(q.message, "params").Some? then Get(q.message, "params").value else Obj(map[]);
      params := Put(params, "name", Str(resolved.value.1));
      invoked, sent := [i], [params];
      match q.answer {
        case None =>
          cells := cells[i := Fail(cells[i], q.at)];
          reply := Refusal(id, SERVER_NOT_AVAILABLE, "backend " + ms[i].id + " failed");
        case Some(response) =>
          cells := cells[i := Succeed(cells[i])];
          if Get(response, "result").Some? {
            reply := Result(id, Get(response, "result").value);
          } else if Get(response, "error").Some? {
            reply := ErrorReply(id, Get(response, "error").value);
          } else {
            reply := Refusal(id, INTERNAL_ERROR, "backend error");
          }
      }
      assert cells == StepAll(ms, q, before);
    }

    method SurfaceChanged(at: real) returns (changed: bool)
      requires Valid()
      modifies this
      ensures Valid() && cells == StepAll(ms, Survey(at), old(cells))
      ensures last == Sorting.Sort(AvailableIds(ms, old(cells), at))
      ensures changed == (last != old(last))
    {
      var current := Available(at);
      changed := current != last;
      last := current;
    }
  }

  function NewCells(ms: Members): Cells {
    seq(|ms|, i requires 0 <= i < |ms| => Fresh(ms[i].threshold, ms[i].reset))
  }

  // ---- Runs ----

  function CellsAfter(ms: Members, qs: seq<Request>, n: nat): (cells: Cells)
    requires n <= |qs|
    ensures |cells| == |ms|
  {
    if n == 0 then NewCells(ms) else StepAll(ms, qs[n - 1], CellsAfter(ms, qs, n - 1))
  }

  predicate Permits(ms: Members, i: nat, past: seq<Op>, at: real)
    requires i < |ms|
  {
    HistoryAllows(past, ms[i].threshold, ms[i].reset, at)
  }

  function EventsIf(ms: Members, q: Request, i: nat, allowed: bool): (events: seq<Op>)
    ensures |events| <= 2 && forall e :: e in events && !e.Success? ==> e.at == q.at
  {
    if Wants(ms, q, i) && allowed then [Query(q.at), if AnswerOf(q, i).Some? then Success else Failure(q.at)]
    else if Wants(ms, q, i) || q.Survey? then [Query(q.at)]
    else []
  }

  /** What a request adds to a backend's history, decided by that history alone. */
  function Events(ms: Members, q: Request, i: nat, past: seq<Op>): seq<Op>
    requires i < |ms|
  {
    EventsIf(ms, q, i, Permits(ms, i, past, q.at))
  }

  function Past(ms: Members, qs: seq<Request>, n: nat, i: nat): seq<Op>
    requires n <= |qs| && i < |ms|
  {
    if n == 0 then [] else Past(ms, qs, n - 1, i) + Events(ms, qs[n - 1], i, Past(ms, qs, n - 1, i))
  }

  /** The clock never goes back over the first `n` requests, up to `now`. */
  ghost predicate Clock(qs: seq<Request>, n: nat, now: real)
    requires n <= |qs|
  {
    n == 0 || (qs[n - 1].at <= now && Clock(qs, n - 1, qs[n - 1].at))
  }

  lemma RunSnoc(c: Cell, ops: seq<Op>, op: Op)
    ensures Run(c, ops + [op]) == Apply(Run(c, ops), op)
  {
    assert (ops + [op])[..|ops|] == ops;
  }

  lemma OrderedSnoc(ops: seq<Op>, op: Op, now: real)
    requires OrderedUpTo(ops, now) && (!op.Success? ==> op.at == now)
    ensures OrderedUpTo(ops + [op], now)
  {
    assert (ops + [op])[..|ops|] == ops;
  }

  function ApplyFew(c: Cell, ops: seq<Op>): Cell
    requires |ops| <= 2
  {
    if ops == [] then c
    else if |ops| == 1 then Apply(c, ops[0])
    else Apply(Apply(c, ops[0]), ops[1])
  }

  lemma RunFew(c: Cell, past: seq<Op>, ops: seq<Op>)
    requires |ops| <= 2
    ensures Run(c, past + ops) == ApplyFew(Run(c, past), ops)
  {
    if ops == [] {
      assert past + ops == past;
    } else {
      RunSnoc(c, past, ops[0]);
      if |ops| == 1 {
        assert past + ops == past + [ops[0]];
      } else {
        RunSnoc(c, past + [ops[0]], ops[1]);
        assert past + ops == past + [ops[0]] + [ops[1]];
      }
    }
  }

  lemma OrderedFew(past: seq<Op>, ops: seq<Op>, now: real)
    requires OrderedUpTo(past, now) && |ops| <= 2 && forall e :: e in ops && !e.Success? ==> e.at == now
    ensures OrderedUpTo(past + ops, now)
  {
    if ops == [] {
      assert past + ops == past;
    } else {
      OrderedSnoc(past, ops[0], now);
      if |ops| == 1 {
        assert past + ops == past + [ops[0]];
      } else {
        OrderedSnoc(past + [ops[0]], ops[1], now);
        assert past + ops == past + [ops[0]] + [ops[1]];
      }
    }
  }

  lemma StepIsEvents(ms: Members, q: Request, i: nat, c: Cell)
    ensures StepCell(ms, q, i, c) == ApplyFew(c, EventsIf(ms, q, i, Allow(c, q.at)))
  {
  }

  /** One request keeps a breaker in step with its history. */
  lemma StepFollows(ms: Members, q: Request, i: nat, past: seq<Op>)
    requires i < |ms| && OrderedUpTo(past, q.at)
    ensures var c := Run(Fresh(ms[i].threshold, ms[i].reset), past);
      var later := past + Events(ms, q, i, past);
      && (Allow(c, q.at) <==> Permits(ms, i, past, q.at))
      && StepCell(ms, q, i, c) == Run(Fresh(ms[i].threshold, ms[i].reset), later)
      && OrderedUpTo(later, q.at)
  {
    var f := Fresh(ms[i].threshold, ms[i].reset);
    AllowIsHistory(past, ms[i].threshold, ms[i].reset, q.at);
    StepIsEvents(ms, q, i, Run(f, past));
    RunFew(f, past, Events(ms, q, i, past));
    OrderedFew(past, Events(ms, q, i, past), q.at);
  }

  lemma CellStep(ms: Members, qs: seq<Request>, n: nat, i: nat)
    requires 0 < n <= |qs| && i < |ms|
    ensures CellsAfter(ms, qs, n)[i] == StepCell(ms, qs[n - 1], i, CellsAfter(ms, qs, n - 1)[i])
  {
  }

  lemma {:induction false} CellsFollowHistory(ms: Members, qs: seq<Request>, n: nat, now: real, i: nat)
    requires n <= |qs| && i < |ms| && Clock(qs, n, now)
    ensures CellsAfter(ms, qs, n)[i] == Run(Fresh(ms[i].threshold, ms[i].reset), Past(ms, qs, n, i))
    ensures OrderedUpTo(Past(ms, qs, n, i), now)
  {
    if n > 0 {
      CellsFollowHistory(ms, qs, n - 1, qs[n - 1].at, i);
      CellStep(ms, qs, n, i);
      StepFollows(ms, qs[n - 1], i, Past(ms, qs, n - 1, i));
      OrderedLater(Past(ms, qs, n, i), qs[n - 1].at, now);
    }
  }

  /** In every run, under every channel behaviour, a request uses a channel
      exactly when it has business with it and the outcomes recorded so far
      allow it, and then only once. */
  lemma ChannelsAreUsedAsHistoryAllows(ms: Members, qs: seq<Request>, n: nat)
    requires n < |qs| && Clock(qs, n, qs[n].at)
    ensures var used := Invoked(ms, qs[n], CellsAfter(ms, qs, n));
      && (forall a, b :: 0 <= a < b < |used| ==> used[a] < used[b])
      && (forall i: nat :: i in used <==>
            i < |ms| && Wants(ms, qs[n], i) && Permits(ms, i, Past(ms, qs, n, i), qs[n].at))
  {
    var cells := CellsAfter(ms, qs, n);
    PickedExactly(Uses(ms, qs[n], cells), |ms|);
    forall i: nat | i < |ms|
      ensures Used(ms, qs[n], i, cells[i]) <==> Wants(ms, qs[n], i) && Permits(ms, i, Past(ms, qs, n, i), qs[n].at)
    {
      CellsFollowHistory(ms, qs, n, qs[n].at, i);
      StepFollows(ms, qs[n], i, Past(ms, qs, n, i));
    }
  }

  /** A call uses at most the one channel its name leads to: no retry, no other. */
  lemma CallUsesOneChannel(ms: Members, q: Request, cells: Cells)
    requires q.Call? && |cells| == |ms|
    ensures Invoked(ms, q, cells) == OneChannel(ms, q, cells)
  {
    var p := Uses(ms, q, cells);
    if Resolved(ms, q.message).Some? {
      PickedOne(p, |ms|, Resolved(ms, q.message).value.0);
    } else {
      PickedNone(p, |ms|);
    }
  }

  // ---- The unavailable list ----

  /** Backend `i` contributes nothing: its breaker is open, or its channel failed. */
  predicate Dropped(ms: Members, q: Request, i: nat, past: seq<Op>)
    requires i < |ms|
  {
    !Permits(ms, i, past, q.at) || AnswerOf(q, i).None?
  }

  function UnavailableIn(reply: Json): Json {
    Index(Index(Index(Index(reply, "result"), "_meta"), "io.modelcontextprotocol/proxy-partial"),
      "unavailable_backends")
  }

  lemma SilentIsDropped(ms: Members, qs: seq<Request>, n: nat, i: nat)
    requires n < |qs| && qs[n].List? && Clock(qs, n, qs[n].at) && i < |ms|
    ensures Silent(ms, qs[n], CellsAfter(ms, qs, n))(i) <==> Dropped(ms, qs[n], i, Past(ms, qs, n, i))
  {
    CellsFollowHistory(ms, qs, n, qs[n].at, i);
    StepFollows(ms, qs[n], i, Past(ms, qs, n, i));
  }

  lemma ReplyNames(id: Json, tools: seq<Json>, missing: seq<string>)
    ensures var reply := ListResult(id, tools, missing);
      if missing == [] then Get(Index(reply, "result"), "_meta") == None
      else UnavailableIn(reply) == Strings(Sorting.Once(missing))
  {
  }

  /** In every run a list reply names, sorted and without repetition, exactly the
      backends dropped by an open breaker or a failure, and carries no `_meta`
      when there is none. */
  lemma UnavailableExactly(ms: Members, qs: seq<Request>, n: nat, id: Json) returns (listed: seq<string>)
    requires n < |qs| && qs[n].List? && Clock(qs, n, qs[n].at)
    ensures Sorting.StrictlyAscending(listed)
    ensures forall name :: name in listed <==>
      exists i: nat :: i < |ms| && ms[i].id == name && Dropped(ms, qs[n], i, Past(ms, qs, n, i))
    ensures var reply := ListReply(ms, qs[n], CellsAfter(ms, qs, n), id);
      if listed == [] then Get(Index(reply, "result"), "_meta") == None else UnavailableIn(reply) == Strings(listed)
  {
    var q, cells := qs[n], CellsAfter(ms, qs, n);
    var p := Silent(ms, q, cells);
    var missing := IdsOf(ms, p, |ms|);
    listed := Sorting.Once(missing);
    Sorting.SortedOnce(missing);
    Sorting.EmptyTogether(listed, missing);
    ReplyNames(id, Gathered(ms, q, cells, |ms|), missing);
    forall name ensures name in listed <==>
      exists i: nat :: i < |ms| && ms[i].id == name && Dropped(ms, q, i, Past(ms, qs, n, i))
    {
      MissingIsDropped(ms, qs, n, name);
    }
  }

  lemma MissingIsDropped(ms: Members, qs: seq<Request>, n: nat, name: string)
    requires n < |qs| && qs[n].List? && Clock(qs, n, qs[n].at)
    ensures name in IdsOf(ms, Silent(ms, qs[n], CellsAfter(ms, qs, n)), |ms|) <==>
      exists i: nat :: i < |ms| && ms[i].id == name && Dropped(ms, qs[n], i, Past(ms, qs, n, i))
  {
    var p := Silent(ms, qs[n], CellsAfter(ms, qs, n));
    IdsOfExactly(ms, p, |ms|, name);
    forall i: nat | i < |ms| ensures p(i) <==> Dropped(ms, qs[n], i, Past(ms, qs, n, i)) {
      SilentIsDropped(ms, qs, n, i);
    }
  }

  /** A change of surface is reported exactly when the available backends differ
      from those at the last survey, whatever their order. */
  lemma SurfaceChangesExactly(ms: Members, before: Cells, then_: real, cells: Cells, now: real)
    requires |ms| == |before| == |cells|
    ensures Sorting.Sort(AvailableIds(ms, cells, now)) != Sorting.Sort(AvailableIds(ms, before, then_)) <==>
      multiset(AvailableIds(ms, cells, now)) != multiset(AvailableIds(ms, before, then_))
  {
    Sorting.SortsAlikeExactly(AvailableIds(ms, cells, now), AvailableIds(ms, before, then_));
  }
}
