/** The filter chain: two folds over the same verdicts that must agree, and what
    no chain can change in a request. */
module Filters {
  import opened Prelude
  import opened JsonValue
  import Content
  import Sorting
  import Namespace
  import Folds

  const ALLOW := "allow"
  const DENY := "deny"
  const MUTATE := "mutate"
  const ANNOTATE := "annotate"
  const QUARANTINE := "quarantine"
  const FAIL_CLOSED := "fail_closed"
  const C2U := "c2u"
  const POLICY_DENIED := -32001

  function DenyResponse(id: Json, reason: string): Json {
    Obj(map["jsonrpc" := Str("2.0"), "id" := id,
            "error" := Obj(map["code" := Num(POLICY_DENIED), "message" := Str(reason)])])
  }

  function ResolveFailure(policy: string): string {
    if policy == FAIL_CLOSED then DENY else ALLOW
  }

  function KindOf(verdict: Json): string {
    OrEmpty(GetStr(verdict, "kind"))
  }

  predicate Stops(verdict: Json) {
    KindOf(verdict) == DENY || KindOf(verdict) == QUARANTINE
  }

  function Fields(v: Json): map<string, Json> {
    if v.Obj? then v.fields else map[]
  }

  /** One verdict that does not stop the chain, applied to the message. */
  function ApplyOne(verdict: Json, message: Json): Json {
    var kind := KindOf(verdict);
    if kind == ALLOW then message
    else
      var params := Fields(Index(message, "params"));
      var changed :=
        if kind == MUTATE then params["arguments" := Index(verdict, "arguments")]
        else if kind == ANNOTATE then
          var meta := Fields(if "_meta" in params then params["_meta"] else Null);
          params["_meta" := Obj(meta + Fields(Index(verdict, "provenance")))]
        else params;
      Obj(Fields(message)["params" := Obj(changed)])
  }

  function Blocked(request: Json, verdict: Json): Json {
    Obj(map["action" := Str("block"),
            "response" := DenyResponse(OrNull(Get(request, "id")), OrEmpty(GetStr(verdict, "reason"))),
            "quarantined" := Bool(KindOf(verdict) == QUARANTINE)])
  }

  function Forward(message: Json): Json {
    Obj(map["action" := Str("forward"), "message" := message])
  }

  // ---- The outcome of a verdict list ----

  function Report(request: Json, r: Folds.Result): Json {
    match r
    case Stopped(verdict) => Blocked(request, verdict)
    case Passed(message) => Forward(message)
  }

  function ChainOutcome(verdicts: seq<Json>, request: Json): Json {
    Report(request, Folds.Decide(ApplyOne, Stops, verdicts, request))
  }

  method ChainOutcomeLoop(verdicts: seq<Json>, request: Json) returns (outcome: Json)
    ensures outcome == ChainOutcome(verdicts, request)
  {
    var message := request;
    for i := 0 to |verdicts|
      invariant Folds.FirstStop(Stops, verdicts, 0) >= i
      invariant message == Folds.Fold(ApplyOne, verdicts, request, i)
    {
      if Stops(verdicts[i]) {
        return Blocked(request, verdicts[i]);
      }
      message := ApplyOne(verdicts[i], message);
    }
    return Forward(message);
  }

  // ---- Interest ----

  predicate Lists(declared: Option<Json>) {
    declared.Some? && declared.value.Arr? && declared.value.items != []
  }

  predicate Matches(declared: Option<Json>, value: Option<string>) {
    Lists(declared) ==>
      || Str("*") in declared.value.items
      || (value.Some? && Str(value.value) in declared.value.items)
  }

  predicate MimeMatch(pattern: string, mime: string) {
    || pattern == mime || pattern == "*"
    || (|pattern| >= 2 && pattern[|pattern| - 2..] == "/*" && pattern[..|pattern| - 1] <= mime)
  }

  predicate MatchesContent(declared: Option<Json>, present: seq<string>) {
    Lists(declared) ==>
      || Str("*") in declared.value.items
      || exists i, j :: 0 <= i < |declared.value.items| && 0 <= j < |present| && declared.value.items[i].Str? &&
           MimeMatch(declared.value.items[i].s, present[j])
  }

  /** What a filter's interest is matched against. */
  datatype Context = Context(name: Option<string>, tool: Option<string>, direction: string, mimes: seq<string>)

  predicate Interested(interest: Json, context: Context) {
    && Matches(Get(interest, "methods"), context.name)
    && Matches(Get(interest, "directions"), Some(context.direction))
    && Matches(Get(interest, "tools"), context.tool)
    && MatchesContent(Get(interest, "content_types"), context.mimes)
  }

  function MimesOf(blocks: seq<Content.Block>, n: nat): seq<string>
    requires n <= |blocks|
  {
    if n == 0 then []
    else MimesOf(blocks, n - 1) + if blocks[n - 1].mime.Str? then [blocks[n - 1].mime.s] else []
  }

  function MessageContext(message: Json, direction: string): Context {
    var name := GetStr(message, "method");
    var blocks := Content.Blocks(message);
    Context(name, if name == Some("tools/call") then GetStr(Index(message, "params"), "name") else None,
            direction, Sorting.Once(MimesOf(blocks, |blocks|)))
  }

  // ---- Running a chain ----

  /** A filter answers with a verdict, or fails (none) and its policy decides. */
  datatype Filter = Filter(policy: string, interest: Json, evaluate: (string, Json) -> Option<Json>)

  function VerdictOf(f: Filter, hook: string, message: Json): Json {
    match f.evaluate(hook, message)
    case Some(verdict) => verdict
    case None => Obj(map["kind" := Str(ResolveFailure(f.policy))])
  }

  /** One run: its filters, its hook and the request. */
  datatype Job = Job(fs: seq<Filter>, hook: string, request: Json)

  predicate Cares(j: Job, i: nat) {
    i < |j.fs| && Interested(j.fs[i].interest, MessageContext(j.request, C2U))
  }

  function Machine(j: Job): Folds.Machine {
    Folds.Machine(
      |j.fs|,
      j.request,
      (i: nat) => Cares(j, i),
      (i: nat, message: Json) => if i < |j.fs| then VerdictOf(j.fs[i], j.hook, message) else Null,
      ApplyOne,
      Stops)
  }

  /** At stage `i` the machine does what the job's filter `i` does. */
  ghost predicate Fits(m: Folds.Machine, j: Job, i: nat, message: Json) {
    i < |j.fs| ==>
      var verdict := VerdictOf(j.fs[i], j.hook, message);
      && m.cares(i) == Cares(j, i)
      && m.says(i, message) == verdict
      && m.stops(verdict) == Stops(verdict)
      && m.apply(verdict, message) == ApplyOne(verdict, message)
  }

  function Shown(j: Job, n: nat): Json { Folds.Shown(Machine(j), n) }
  function Says(j: Job, n: nat): Json { Folds.Says(Machine(j), n) }
  predicate Halts(j: Job, n: nat) { Folds.Halts(Machine(j), n) }

  /** The outcome, read off the filters one by one: the first interested filter to
      deny or quarantine decides, else the message all of them left goes on. */
  function Outcome(j: Job): Json {
    var k := Folds.FirstHalt(Machine(j), 0);
    if k < |j.fs| then Blocked(j.request, Says(j, k)) else Forward(Shown(j, |j.fs|))
  }

  class FilterChain {
    const filters: seq<Filter>

    constructor (filters: seq<Filter>)
      ensures this.filters == filters
    {
      this.filters := filters;
    }

    /** Evaluate the interested filters one after another, up to the first that
        stops the chain, each on the message its predecessors left. */
    method Evaluate(hook: string, request: Json, ghost m: Folds.Machine) returns (verdicts: seq<Json>)
      requires m.size == |filters| && m.start == request
      requires forall i, message {:trigger Fits(m, Job(filters, hook, request), i, message)} ::
        Fits(m, Job(filters, hook, request), i, message)
      ensures verdicts == Folds.Collected(m)
    {
      var context := MessageContext(request, C2U);
      var message := request;
      verdicts := [];
      for i := 0 to |filters|
        invariant Folds.FirstHalt(m, 0) >= i
        invariant verdicts == Folds.Pushed(m, i) && message == Folds.Shown(m, i)
      {
        assert Fits(m, Job(filters, hook, request), i, message);
        if Interested(filters[i].interest, context) {
          var verdict := VerdictOf(filters[i], hook, message);
          verdicts := verdicts + [verdict];
          if Stops(verdict) {
            assert Folds.Halts(m, i);
            return;
          }
          message := ApplyOne(verdict, message);
        }
      }
    }

    /** The outcome computed afresh from the verdicts is the one they were
        collected for. */
    method Run(hook: string, request: Json) returns (outcome: Json)
      ensures outcome == Outcome(Job(filters, hook, request))
    {
      var verdicts := Evaluate(hook, request, Machine(Job(filters, hook, request)));
      outcome := ChainOutcomeLoop(verdicts, request);
      Folds.FoldsAgree(Machine(Job(filters, hook, request)));
    }
  }

  /** A run blocks exactly when some interested filter, shown the fold of the
      verdicts before it, denies or quarantines or fails closed; otherwise it
      forwards the fold of every interested verdict. */
  lemma RunBlocksExactly(j: Job)
    ensures Get(Outcome(j), "message").None? <==> exists k :: 0 <= k < |j.fs| && Halts(j, k)
    ensures Get(Outcome(j), "message").Some? ==> Get(Outcome(j), "message").value == Shown(j, |j.fs|)
  {
    var m := Machine(j);
    var k := Folds.FirstHalt(m, 0);
    if k < |j.fs| {
      assert Halts(j, k);
    } else {
      forall i: nat | i < |j.fs| ensures !Halts(j, i) {
        assert !Folds.Halts(m, i);
      }
    }
  }

  // ---- What a chain cannot change ----

  /** All of a request but its arguments and its annotations. */
  ghost predicate SameCall(a: Json, b: Json) {
    && (forall key :: key != "params" ==> Get(a, key) == Get(b, key))
    && (forall key :: key != "arguments" && key != "_meta" ==>
          Get(Index(a, "params"), key) == Get(Index(b, "params"), key))
  }

  lemma ApplyKeepsCall(verdict: Json, message: Json)
    ensures SameCall(ApplyOne(verdict, message), message)
  {
  }

  lemma ShownNext(j: Job, n: nat)
    ensures Shown(j, n + 1) == if Cares(j, n) then ApplyOne(Says(j, n), Shown(j, n)) else Shown(j, n)
  {
  }

  lemma {:induction false} ShownKeepsCall(j: Job, n: nat)
    ensures SameCall(Shown(j, n), j.request)
  {
    if n > 0 {
      ShownKeepsCall(j, n - 1);
      ShownNext(j, n - 1);
      ApplyKeepsCall(Says(j, n - 1), Shown(j, n - 1));
      SameCallChain(Shown(j, n), Shown(j, n - 1), j.request);
    }
  }

  lemma SameCallChain(a: Json, b: Json, c: Json)
    requires (a == b || SameCall(a, b)) && SameCall(b, c)
    ensures SameCall(a, c)
  {
  }

  // ---- A pooled call keeps its handler ----

  function NameIn(message: Json): string {
    OrEmpty(GetStr(Index(message, "params"), "name"))
  }

  /** `is_local_call` for `tools/call`: the name leads to a registered handler. */
  predicate IsLocalCall(handlers: set<string>, message: Json) {
    var r := Namespace.Split(NameIn(message));
    r.Some? && r.value.0 in handlers
  }

  /** Where a pooled call ends up: blocked, at a handler, or with none. */
  datatype Dispatch = Refused(response: Json) | To(handler: string, original: string, arguments: Json) | NotFound

  function Pooled(handlers: set<string>, j: Job): Dispatch {
    var message := Get(Outcome(j), "message");
    if message.None? then Refused(Index(Outcome(j), "response"))
    else
      var r := Namespace.Split(NameIn(message.value));
      if r.None? || r.value.0 !in handlers then NotFound
      else
        var arguments := ArgumentsOf(message.value);
        To(r.value.0, r.value.1, if arguments.Some? then arguments.value else Obj(map[]))
  }

  /** A call judged local before filtering is refused by a filter, or reaches the
      very handler and tool it was judged by: never a missing handler. */
  lemma LocalCallFindsItsHandler(handlers: set<string>, j: Job)
    requires IsLocalCall(handlers, j.request)
    ensures var r := Namespace.Split(NameIn(j.request)).value;
      if exists k :: 0 <= k < |j.fs| && Halts(j, k) then Pooled(handlers, j).Refused?
      else Pooled(handlers, j).To? && Pooled(handlers, j).handler == r.0 && Pooled(handlers, j).original == r.1
  {
    RunBlocksExactly(j);
    ShownKeepsCall(j, |j.fs|);
    SameName(Shown(j, |j.fs|), j.request);
  }

  lemma SameName(a: Json, b: Json)
    requires SameCall(a, b)
    ensures NameIn(a) == NameIn(b)
  {
    assert Get(Index(a, "params"), "name") == Get(Index(b, "params"), "name");
  }

  function ArgumentsOf(message: Json): Option<Json> {
    Get(Index(message, "params"), "arguments")
  }

  /** The arguments of the last mutating verdict among the first `n` stages, or
      the request's own. */
  function LastArguments(m: Folds.Machine, n: nat): Option<Json> {
    if n == 0 then ArgumentsOf(m.start)
    else if m.cares(n - 1) && KindOf(Folds.Says(m, n - 1)) == MUTATE then Some(Index(Folds.Says(m, n - 1), "arguments"))
    else LastArguments(m, n - 1)
  }

  ghost predicate SetsArguments(m: Folds.Machine, verdict: Json, message: Json) {
    ArgumentsOf(m.apply(verdict, message)) ==
      if KindOf(verdict) == MUTATE then Some(Index(verdict, "arguments")) else ArgumentsOf(message)
  }

  lemma {:induction false} ArgumentsBy(m: Folds.Machine, n: nat)
    requires forall v, message {:trigger SetsArguments(m, v, message)} :: SetsArguments(m, v, message)
    ensures ArgumentsOf(Folds.Shown(m, n)) == LastArguments(m, n)
  {
    if n > 0 {
      ArgumentsBy(m, n - 1);
      assert SetsArguments(m, Folds.Says(m, n - 1), Folds.Shown(m, n - 1));
    }
  }

  /** The arguments a handler gets are those of the last mutating verdict, or the
      request's own when no filter mutated. */
  lemma {:induction false} ArgumentsAreTheLast(j: Job, n: nat)
    ensures ArgumentsOf(Shown(j, n)) == LastArguments(Machine(j), n)
  {
    forall v, message ensures SetsArguments(Machine(j), v, message) {
    }
    ArgumentsBy(Machine(j), n);
  }
}
