/** What a client of the resilient router is told, read off the history of outcomes
    and the channels' answers. */
module ResilientReplies {
  import opened Prelude
  import opened JsonValue
  import opened Resilient
  import Namespace

  // ---- Listed tools ----

  /** The backend's tool under its label, all else in it unchanged. */
  ghost predicate Relabelled(id: string, raw: Json, tool: Json) {
    if raw.Obj? then
      && tool.Obj? && tool.fields.Keys == raw.fields.Keys + {"name"}
      && Get(tool, "name") ==
          Some(Str(Namespace.Prefix(id, if GetStr(raw, "name").Some? then GetStr(raw, "name").value else "")))
      && forall key :: key != "name" ==> Get(tool, key) == Get(raw, key)
    else tool == raw
  }

  /** The tools a response lists. */
  function ListedIn(response: Json): seq<Json> {
    if Get(response, "result").Some? && GetArr(Get(response, "result").value, "tools").Some?
    then GetArr(Get(response, "result").value, "tools").value
    else []
  }

  lemma PrefixedIs(id: string, raw: Json)
    ensures Relabelled(id, raw, PrefixTool(id, raw))
  {
  }

  lemma {:induction false} PrefixedAll(id: string, listed: seq<Json>, n: nat)
    requires n <= |listed|
    ensures |Prefixed(id, listed, n)| == n
    ensures forall j :: 0 <= j < n ==> Relabelled(id, listed[j], Prefixed(id, listed, n)[j])
  {
    if n > 0 {
      PrefixedAll(id, listed, n - 1);
      PrefixedIs(id, listed[n - 1]);
    }
  }

  /** Backend `i`'s stretch of the list: every tool it listed, in its order, or
      nothing when its breaker was open or its channel failed. */
  ghost predicate Stretch(ms: Members, q: Request, i: nat, past: seq<Breaker.Op>, stretch: seq<Json>)
    requires i < |ms| && q.List?
  {
    if Permits(ms, i, past, q.at) && q.answers(i).Some? then
      var listed := ListedIn(q.answers(i).value);
      |stretch| == |listed| && forall j :: 0 <= j < |listed| ==> Relabelled(ms[i].id, listed[j], stretch[j])
    else stretch == []
  }

  lemma ContributionIs(ms: Members, qs: seq<Request>, n: nat, i: nat)
    requires n < |qs| && qs[n].List? && Clock(qs, n, qs[n].at) && i < |ms|
    ensures Stretch(ms, qs[n], i, Past(ms, qs, n, i), Contribution(ms, qs[n], CellsAfter(ms, qs, n), i))
  {
    CellsFollowHistory(ms, qs, n, qs[n].at, i);
    StepFollows(ms, qs[n], i, Past(ms, qs, n, i));
    if qs[n].answers(i).Some? {
      var listed := ToolsIn(qs[n].answers(i).value);
      assert listed == ListedIn(qs[n].answers(i).value);
      PrefixedAll(ms[i].id, listed, |listed|);
    }
  }

  function Stretches(ms: Members, q: Request, cells: Cells): nat -> seq<Json>
    requires |cells| == |ms|
  {
    (i: nat) => if i < |ms| then Contribution(ms, q, cells, i) else []
  }

  /** The stretches one after another are what the loop gathered. */
  lemma GatheredIsCat(ms: Members, q: Request, cells: Cells)
    requires |ms| == |cells|
    ensures Gathered(ms, q, cells, |ms|) == Cat(Stretches(ms, q, cells), |ms|)
  {
    var whole := (n: nat) => if n <= |ms| then Gathered(ms, q, cells, n) else [];
    var part := Stretches(ms, q, cells);
    forall n: nat | n < |ms| ensures Appends(whole, part, n) {
      AskNext(ms, q, cells, n);
    }
    CatBuilt(whole, part, |ms|);
  }

  lemma ReplyHoldsTools(id: Json, tools: seq<Json>, missing: seq<string>)
    ensures Get(Index(ListResult(id, tools, missing), "result"), "tools") == Some(Arr(tools))
    ensures Get(ListResult(id, tools, missing), "id") == Some(id)
  {
  }

  /** In every run a list reply holds, backend after backend, each one's tools under
      its label and in its order: of exactly the backends whose history allows a
      call and whose channel answered. */
  lemma ToolsAreListed(ms: Members, qs: seq<Request>, n: nat, id: Json) returns (f: nat -> seq<Json>)
    requires n < |qs| && qs[n].List? && Clock(qs, n, qs[n].at)
    ensures Get(Index(ListReply(ms, qs[n], CellsAfter(ms, qs, n), id), "result"), "tools") == Some(Arr(Cat(f, |ms|)))
    ensures forall i: nat {:trigger f(i)} :: i < |ms| ==> Stretch(ms, qs[n], i, Past(ms, qs, n, i), f(i))
  {
    var q, cells := qs[n], CellsAfter(ms, qs, n);
    f := Stretches(ms, q, cells);
    forall i: nat | i < |ms| ensures Stretch(ms, q, i, Past(ms, qs, n, i), f(i)) {
      ContributionIs(ms, qs, n, i);
    }
    GatheredIsCat(ms, q, cells);
    ReplyHoldsTools(id, Gathered(ms, q, cells, |ms|), IdsOf(ms, Silent(ms, q, cells), |ms|));
  }

  // ---- Replies to calls ----

  ghost predicate Errs(reply: Json, id: Json, code: int, text: string) {
    && Get(reply, "jsonrpc") == Some(Str("2.0")) && Get(reply, "id") == Some(id) && Get(reply, "result").None?
    && Get(Index(reply, "error"), "code") == Some(Num(code)) && Get(Index(reply, "error"), "message") == Some(Str(text))
  }

  /** The reply is the response's own result or error, for this client's id. */
  ghost predicate PassesOn(reply: Json, id: Json, response: Json) {
    && Get(reply, "jsonrpc") == Some(Str("2.0")) && Get(reply, "id") == Some(id)
    && if Get(response, "result").Some? then
         Get(reply, "result") == Get(response, "result") && Get(reply, "error").None?
       else Get(reply, "error") == Get(response, "error") && Get(reply, "result").None?
  }

  /** The call's name is a label of backend `i`, the first of its id. */
  ghost predicate LeadsTo(ms: Members, called: string, i: nat) {
    && i < |ms| && (forall j :: 0 <= j < i ==> ms[j].id != ms[i].id)
    && exists original :: Namespace.Split(called) == Some((ms[i].id, original))
  }

  lemma ResolvedExactly(ms: Members, message: Json, i: nat)
    ensures (Resolved(ms, message).Some? && Resolved(ms, message).value.0 == i) <==> LeadsTo(ms, NameIn(message), i)
  {
    var parts := Namespace.Split(NameIn(message));
    if parts.Some? && i < |ms| && ms[i].id == parts.value.0 && forall j :: 0 <= j < i ==> ms[j].id != ms[i].id {
      PositionFirst(ms, i, 0);
    }
  }

  /** What a call that leads to backend `i` is told. */
  ghost predicate Told(ms: Members, q: Request, i: nat, allowed: bool, id: Json, reply: Json)
    requires q.Call? && i < |ms|
  {
    if !allowed then Errs(reply, id, -32003, "backend " + ms[i].id + " unavailable")
    else if q.answer.None? then Errs(reply, id, -32003, "backend " + ms[i].id + " failed")
    else if Get(q.answer.value, "result").None? && Get(q.answer.value, "error").None? then
      Errs(reply, id, -32603, "backend error")
    else PassesOn(reply, id, q.answer.value)
  }

  lemma RefusalErrs(id: Json, code: int, text: string)
    ensures Errs(Refusal(id, code, text), id, code, text)
  {
  }

  lemma AnswerPasses(id: Json, response: Json)
    ensures Get(response, "result").Some? ==> PassesOn(Result(id, Get(response, "result").value), id, response)
    ensures Get(response, "result").None? && Get(response, "error").Some? ==>
      PassesOn(ErrorReply(id, Get(response, "error").value), id, response)
  {
  }

  lemma ReplyTells(ms: Members, q: Request, cells: Cells, id: Json, i: nat)
    requires q.Call? && |ms| == |cells| && LeadsTo(ms, NameIn(q.message), i)
    ensures Told(ms, q, i, Breaker.Allow(cells[i], q.at), id, CallReply(ms, q, cells, id))
  {
    ResolvedExactly(ms, q.message, i);
    RefusalErrs(id, -32003, "backend " + ms[i].id + " unavailable");
    RefusalErrs(id, -32003, "backend " + ms[i].id + " failed");
    RefusalErrs(id, -32603, "backend error");
    if q.answer.Some? {
      AnswerPasses(id, q.answer.value);
    }
  }

  lemma ReplyRefuses(ms: Members, q: Request, cells: Cells, id: Json)
    requires q.Call? && |ms| == |cells|
    requires forall i: nat {:trigger LeadsTo(ms, NameIn(q.message), i)} :: !LeadsTo(ms, NameIn(q.message), i)
    ensures Errs(CallReply(ms, q, cells, id), id, -32602, "unknown tool: " + NameIn(q.message))
  {
    if Resolved(ms, q.message).Some? {
      ResolvedExactly(ms, q.message, Resolved(ms, q.message).value.0);
    }
  }

  /** In every run a call gets what its backend answered, or a refusal that says why
      it got nothing: no such tool, a breaker that the history keeps open, a channel
      that failed, or an answer that is neither a result nor an error. */
  lemma CallsAreAnswered(ms: Members, qs: seq<Request>, n: nat, id: Json)
    requires n < |qs| && qs[n].Call? && Clock(qs, n, qs[n].at)
    ensures var (q, reply) := (qs[n], CallReply(ms, qs[n], CellsAfter(ms, qs, n), id));
      && ((forall i: nat {:trigger LeadsTo(ms, NameIn(q.message), i)} :: !LeadsTo(ms, NameIn(q.message), i)) ==>
            Errs(reply, id, -32602, "unknown tool: " + NameIn(q.message)))
      && forall i: nat {:trigger LeadsTo(ms, NameIn(q.message), i)} :: LeadsTo(ms, NameIn(q.message), i) ==>
           Told(ms, q, i, Permits(ms, i, Past(ms, qs, n, i), q.at), id, reply)
  {
    var q, cells := qs[n], CellsAfter(ms, qs, n);
    if forall i: nat {:trigger LeadsTo(ms, NameIn(q.message), i)} :: !LeadsTo(ms, NameIn(q.message), i) {
      ReplyRefuses(ms, q, cells, id);
    }
    forall i: nat | LeadsTo(ms, NameIn(q.message), i)
      ensures Told(ms, q, i, Permits(ms, i, Past(ms, qs, n, i), q.at), id, CallReply(ms, q, cells, id))
    {
      ReplyTells(ms, q, cells, id, i);
      CellsFollowHistory(ms, qs, n, q.at, i);
      StepFollows(ms, q, i, Past(ms, qs, n, i));
    }
  }

  /** In every run a survey finds exactly the backends whose history allows a call. */
  lemma SurveyExactly(ms: Members, qs: seq<Request>, n: nat, at: real, name: string)
    requires n <= |qs| && Clock(qs, n, at)
    ensures name in AvailableIds(ms, CellsAfter(ms, qs, n), at) <==>
      exists i: nat :: i < |ms| && ms[i].id == name && Permits(ms, i, Past(ms, qs, n, i), at)
  {
    var cells := CellsAfter(ms, qs, n);
    IdsOfExactly(ms, Up(cells, at), |ms|, name);
    forall i: nat | i < |ms| ensures Up(cells, at)(i) <==> Permits(ms, i, Past(ms, qs, n, i), at) {
      CellsFollowHistory(ms, qs, n, at, i);
      Breaker.AllowIsHistory(Past(ms, qs, n, i), ms[i].threshold, ms[i].reset, at);
    }
  }
}
