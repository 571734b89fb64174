/** The server's own task store, and the routing of task requests between it and
    the backends. */
module Tasks {
  import opened Prelude
  import opened JsonValue
  import Decimal
  import Namespace

  const WORKING := "working"
  const COMPLETED := "completed"
  const CANCELLED := "cancelled"
  const FAILED := "failed"

  function NewTaskId(n: nat): string {
    "task-" + Decimal.Render(n)
  }

  function WorkingRecord(): Json { Obj(map["status" := Str(WORKING)]) }
  function CompletedRecord(result: Json): Json { Obj(map["status" := Str(COMPLETED), "result" := result]) }
  function FailedRecord(error: Json): Json { Obj(map["status" := Str(FAILED), "error" := error]) }
  function CancelledRecord(): Json { Obj(map["status" := Str(CANCELLED)]) }

  datatype Store = Store(tasks: map<string, Json>, count: nat)

  predicate IsWorking(s: Store, id: string) {
    id in s.tasks && GetStr(s.tasks[id], "status") == Some(WORKING)
  }

  function Created(s: Store): Store {
    Store(s.tasks[NewTaskId(s.count + 1) := WorkingRecord()], s.count + 1)
  }

  /** Every way out of `working` goes through this. */
  function Ended(s: Store, id: string, record: Json): Store {
    if IsWorking(s, id) then s.(tasks := s.tasks[id := record]) else s
  }

  class ServerTasks {
    var tasks: map<string, Json>
    var count: nat

    function State(): Store
      reads this
    {
      Store(tasks, count)
    }

    constructor ()
      ensures State() == Store(map[], 0)
    {
      tasks, count := map[], 0;
    }

    method Create() returns (id: string)
      modifies this
      ensures State() == Created(old(State())) && id == NewTaskId(count)
    {
      count := count + 1;
      id := NewTaskId(count);
      tasks := tasks[id := WorkingRecord()];
    }

    method Complete(id: string, result: Json)
      modifies this
      ensures State() == Ended(old(State()), id, CompletedRecord(result))
    {
      if IsWorking(State(), id) {
        tasks := tasks[id := CompletedRecord(result)];
      }
    }

    method Fail(id: string, error: Json)
      modifies this
      ensures State() == Ended(old(State()), id, FailedRecord(error))
    {
      if IsWorking(State(), id) {
        tasks := tasks[id := FailedRecord(error)];
      }
    }

    method Cancel(id: string) returns (changed: bool)
      modifies this
      ensures State() == Ended(old(State()), id, CancelledRecord())
      ensures changed == IsWorking(old(State()), id)
    {
      changed := IsWorking(State(), id);
      if changed {
        tasks := tasks[id := CancelledRecord()];
      }
    }

    /** `tasks/cancel` ends the task first; every method reports where it stands. */
    method Serve(name: string, id: string) returns (handle: Json)
      modifies this
      ensures State() == if name == "tasks/cancel" then Ended(old(State()), id, CancelledRecord()) else old(State())
      ensures handle == Reported(State(), id)
    {
      if name == "tasks/cancel" {
        var _ := Cancel(id);
      }
      var record := if id in tasks then tasks[id] else Obj(map["status" := Str(FAILED)]);
      var status := GetStr(record, "status");
      handle := Handle(id, if status.Some? then status.value else FAILED, Get(record, "result"), Get(record, "error"));
    }
  }

  function Handle(id: string, status: string, result: Option<Json>, error: Option<Json>): Json {
    var base := map["resultType" := Str("task"), "taskId" := Str(id), "status" := Str(status)];
    var more := if result.Some? then base["result" := result.value] else base;
    Obj(if error.Some? then more["error" := error.value] else more)
  }

  function Reported(s: Store, id: string): Json {
    var record := if id in s.tasks then s.tasks[id] else Obj(map["status" := Str(FAILED)]);
    var status := GetStr(record, "status");
    Handle(id, if status.Some? then status.value else FAILED, Get(record, "result"), Get(record, "error"))
  }

  // ---- Any interleaving of creations and endings ----

  datatype Op =
    | Create
    | Complete(id: string, result: Json)
    | Fail(id: string, error: Json)
    | Cancel(id: string)

  /** The record an ending operation leaves behind. */
  function RecordOf(op: Op): Json {
    match op
    case Create => WorkingRecord()
    case Complete(_, result) => CompletedRecord(result)
    case Fail(_, error) => FailedRecord(error)
    case Cancel(_) => CancelledRecord()
  }

  function Apply(s: Store, op: Op): Store {
    if op.Create? then Created(s) else Ended(s, op.id, RecordOf(op))
  }

  function Run(ops: seq<Op>, n: nat): Store
    requires n <= |ops|
  {
    if n == 0 then Store(map[], 0) else Apply(Run(ops, n - 1), ops[n - 1])
  }

  function Creations(ops: seq<Op>, n: nat): nat
    requires n <= |ops|
  {
    if n == 0 then 0 else Creations(ops, n - 1) + if ops[n - 1].Create? then 1 else 0
  }

  /** Operation `i` is the creation of task `k`. */
  predicate Creates(ops: seq<Op>, i: nat, k: nat)
    requires i < |ops|
  {
    ops[i].Create? && Creations(ops, i) + 1 == k
  }

  predicate Ends(op: Op, id: string) {
    !op.Create? && op.id == id
  }

  /** What the history says of task `k`: nothing before its creation, working
      after it, and then whatever its first ending operation said. */
  function Told(ops: seq<Op>, n: nat, k: nat): Option<Json>
    requires n <= |ops|
  {
    if n == 0 then None
    else
      var before := Told(ops, n - 1, k);
      if Creates(ops, n - 1, k) then Some(WorkingRecord())
      else if before == Some(WorkingRecord()) && Ends(ops[n - 1], NewTaskId(k)) then Some(RecordOf(ops[n - 1]))
      else before
  }

  lemma {:induction false} CountIsCreations(ops: seq<Op>, n: nat)
    requires n <= |ops|
    ensures Run(ops, n).count == Creations(ops, n)
  {
    if n > 0 { CountIsCreations(ops, n - 1); }
  }

  lemma StatusOf(record: Json, op: Op)
    requires record == RecordOf(op)
    ensures GetStr(record, "status") == Some(WORKING) <==> op.Create?
  {
  }

  /** A told record is the working one or one an ending operation left. */
  ghost predicate Legit(record: Json) {
    exists op :: record == RecordOf(op)
  }

  lemma {:induction false} ToldLegit(ops: seq<Op>, n: nat, k: nat)
    requires n <= |ops|
    ensures Told(ops, n, k).Some? ==> Legit(Told(ops, n, k).value)
    ensures Told(ops, n, k).Some? ==>
      (GetStr(Told(ops, n, k).value, "status") == Some(WORKING) <==> Told(ops, n, k) == Some(WorkingRecord()))
  {
    if n > 0 {
      ToldLegit(ops, n - 1, k);
      var op := ops[n - 1];
      assert Legit(RecordOf(op));
      assert RecordOf(Create) == WorkingRecord() && Legit(WorkingRecord());
      StatusOf(RecordOf(op), op);
    }
  }

  lemma {:induction false} ToldSinceCreation(ops: seq<Op>, n: nat, k: nat)
    requires n <= |ops|
    ensures Told(ops, n, k).Some? <==> 1 <= k <= Creations(ops, n)
  {
    if n > 0 { ToldSinceCreation(ops, n - 1, k); }
  }

  /** Under every interleaving the store holds, for each id it ever minted,
      exactly what the history tells. */
  lemma {:induction false} StoreIsHistory(ops: seq<Op>, n: nat, k: nat)
    requires n <= |ops|
    ensures var (tasks, id) := (Run(ops, n).tasks, NewTaskId(k));
      Told(ops, n, k) == if id in tasks then Some(tasks[id]) else None
  {
    if n > 0 {
      StoreIsHistory(ops, n - 1, k);
      CountIsCreations(ops, n - 1);
      var op := ops[n - 1];
      if op.Create? {
        var minted := Creations(ops, n - 1) + 1;
        if NewTaskId(minted) == NewTaskId(k) { Decimal.TaggedInjective("task-", minted, k); }
      } else {
        ToldLegit(ops, n - 1, k);
      }
    }
  }

  /** The store holds nothing but minted ids. */
  lemma {:induction false} OnlyMinted(ops: seq<Op>, n: nat, id: string)
    requires n <= |ops| && id in Run(ops, n).tasks
    ensures exists k :: 1 <= k <= Run(ops, n).count && id == NewTaskId(k)
  {
    var s := Run(ops, n - 1);
    if id in s.tasks {
      OnlyMinted(ops, n - 1, id);
    } else {
      assert id == NewTaskId(s.count + 1);
    }
  }

  /** A created id was never in the store before. */
  lemma IdsAreFresh(ops: seq<Op>, n: nat)
    requires n < |ops| && ops[n].Create?
    ensures NewTaskId(Run(ops, n + 1).count) !in Run(ops, n).tasks
    ensures IsWorking(Run(ops, n + 1), NewTaskId(Run(ops, n + 1).count))
  {
    var s := Run(ops, n);
    var id := NewTaskId(s.count + 1);
    if id in s.tasks {
      OnlyMinted(ops, n, id);
      var k :| 1 <= k <= s.count && id == NewTaskId(k);
      Decimal.TaggedInjective("task-", k, s.count + 1);
    }
  }

  /** The first ending operation after a task's creation fixes its record for
      good; until then the task is working. */
  lemma {:induction false} FirstEndingDecides(ops: seq<Op>, born: nat, ended: nat, n: nat, k: nat)
    requires born < ended < n <= |ops|
    requires Creates(ops, born, k)
    requires Ends(ops[ended], NewTaskId(k))
    requires forall i :: born < i < ended ==> !Ends(ops[i], NewTaskId(k))
    ensures NewTaskId(k) in Run(ops, n).tasks && Run(ops, n).tasks[NewTaskId(k)] == RecordOf(ops[ended])
    ensures forall m :: born < m <= ended ==> IsWorking(Run(ops, m), NewTaskId(k))
  {
    for m := born + 1 to ended
      invariant Told(ops, m, k) == Some(WorkingRecord())
      invariant Creations(ops, m) >= k
      invariant forall i :: born < i <= m ==> Told(ops, i, k) == Some(WorkingRecord())
    {
    }
    forall m | born < m <= ended ensures IsWorking(Run(ops, m), NewTaskId(k)) {
      assert Told(ops, m, k) == Some(WorkingRecord());
      StoreIsHistory(ops, m, k);
    }
    StatusOf(RecordOf(ops[ended]), ops[ended]);
    for m := ended + 1 to n
      invariant Told(ops, m, k) == Some(RecordOf(ops[ended]))
      invariant Creations(ops, m) >= k
    {
    }
    StoreIsHistory(ops, n, k);
  }

  /** Once not working, a record never changes, whatever comes later. */
  lemma {:induction false} EndedStays(ops: seq<Op>, m: nat, n: nat, id: string)
    requires m <= n <= |ops| && id in Run(ops, m).tasks && !IsWorking(Run(ops, m), id)
    ensures id in Run(ops, n).tasks && Run(ops, n).tasks[id] == Run(ops, m).tasks[id]
  {
    if m < n {
      EndedStays(ops, m, n - 1, id);
      if ops[n - 1].Create? { IdsAreFresh(ops, n - 1); }
    }
  }

  // ---- What a task request reports ----

  /** The handle names the task, where it stands, and its result or error if any. */
  ghost predicate Reports(handle: Json, id: string, status: string, result: Option<Json>, error: Option<Json>) {
    && handle.Obj?
    && handle.fields.Keys == {"resultType", "taskId", "status"}
         + (if result.Some? then {"result"} else {}) + (if error.Some? then {"error"} else {})
    && Get(handle, "resultType") == Some(Str("task")) && Get(handle, "taskId") == Some(Str(id))
    && Get(handle, "status") == Some(Str(status))
    && Get(handle, "result") == result && Get(handle, "error") == error
  }

  /** The report of an ended task is that of the operation that ended it. */
  ghost predicate ReportsEnd(handle: Json, id: string, op: Op) {
    match op
    case Create => false
    case Complete(_, result) => Reports(handle, id, "completed", Some(result), None)
    case Fail(_, error) => Reports(handle, id, "failed", None, Some(error))
    case Cancel(_) => Reports(handle, id, "cancelled", None, None)
  }

  lemma ReportedRecord(s: Store, id: string, op: Op)
    requires id in s.tasks && s.tasks[id] == RecordOf(op)
    ensures if op.Create? then Reports(Reported(s, id), id, "working", None, None)
            else ReportsEnd(Reported(s, id), id, op)
  {
  }

  /** A task is reported as working until the first operation that ends it, and from
      then on, whatever follows, as that operation left it; an id never created is
      reported as failed. */
  lemma ReportsFollowHistory(ops: seq<Op>, born: nat, ended: nat, n: nat, k: nat)
    requires born < ended < n <= |ops| && Creates(ops, born, k) && Ends(ops[ended], NewTaskId(k))
    requires forall i :: born < i < ended ==> !Ends(ops[i], NewTaskId(k))
    ensures forall m :: born < m <= ended ==>
      Reports(Reported(Run(ops, m), NewTaskId(k)), NewTaskId(k), "working", None, None)
    ensures ReportsEnd(Reported(Run(ops, n), NewTaskId(k)), NewTaskId(k), ops[ended])
  {
    FirstEndingDecides(ops, born, ended, n, k);
    ReportedRecord(Run(ops, n), NewTaskId(k), ops[ended]);
    forall m | born < m <= ended
      ensures Reports(Reported(Run(ops, m), NewTaskId(k)), NewTaskId(k), "working", None, None)
    {
      WorkingRecordIs(ops, m, k);
      ReportedRecord(Run(ops, m), NewTaskId(k), Create);
    }
  }

  lemma WorkingRecordIs(ops: seq<Op>, m: nat, k: nat)
    requires m <= |ops| && IsWorking(Run(ops, m), NewTaskId(k))
    ensures Run(ops, m).tasks[NewTaskId(k)] == WorkingRecord()
  {
    StoreIsHistory(ops, m, k);
    ToldLegit(ops, m, k);
  }

  lemma UnknownTaskReports(ops: seq<Op>, n: nat, id: string)
    requires n <= |ops| && id !in Run(ops, n).tasks
    ensures Reports(Reported(Run(ops, n), id), id, "failed", None, None)
  {
  }

  // ---- Local and routed task requests ----

  function ResolveTask(id: string): Option<(string, string)> {
    Namespace.Split(id)
  }

  lemma TaskIdHasNoUnderscore(k: nat)
    ensures '_' !in NewTaskId(k)
  {
    var tag, digits := "task-", Decimal.Render(k);
    forall i | 0 <= i < |NewTaskId(k)| ensures NewTaskId(k)[i] != '_' {
      if i < |tag| {
        assert NewTaskId(k)[i] == tag[i];
      } else {
        assert NewTaskId(k)[i] == digits[i - |tag|];
      }
    }
  }

  lemma SplitNeedsUnderscore(s: string)
    ensures ResolveTask(s).Some? ==> '_' in s
  {
    var r := Namespace.SplitOnce(s, Namespace.DELIMITER);
    if r.Some? {
      assert s == r.value.0 + "__" + r.value.1;
      assert s[|r.value.0|] == '_';
    }
  }

  lemma StoreIdNeverSplits(k: nat)
    ensures ResolveTask(NewTaskId(k)) == None
  {
    TaskIdHasNoUnderscore(k);
    SplitNeedsUnderscore(NewTaskId(k));
  }

  datatype Target = Local | Remote(backend: string, original: string) | Unknown

  /** `route_task`: the store first, when the server originates tasks. */
  function TargetOf(s: Store, serving: bool, ids: seq<string>, id: string): Target {
    if serving && id in s.tasks then Local
    else
      match ResolveTask(id)
      case Some((backend, original)) => if backend in ids then Remote(backend, original) else Unknown
      case None => Unknown
  }

  /** Prefix a string `taskId` with the backend. */
  function Requalify(v: Json, backend: string): Json {
    match GetStr(v, "taskId")
    case Some(id) => Put(v, "taskId", Str(Namespace.Prefix(backend, id)))
    case None => v
  }

  /** `namespace_task_id`: the result's own `taskId` and the one inside `task`. */
  function NamespaceTaskId(result: Json, backend: string): Json {
    var top := Requalify(result, backend);
    if Index(top, "task").Obj? then Put(top, "task", Requalify(Index(top, "task"), backend)) else top
  }

  /** A task id a backend handed out comes back to that backend with its own id,
      and a store id is served locally: no run of the store can mix them up. */
  lemma TaskRequestsGoHome(ops: seq<Op>, n: nat, ids: seq<string>, backend: string, original: string)
    requires n <= |ops| && backend in ids && original != ""
    requires Namespace.ValidBackendId(backend) && !Namespace.EndsInUnderscore(backend)
    ensures TargetOf(Run(ops, n), true, ids, Namespace.Prefix(backend, original)) == Remote(backend, original)
    ensures forall id :: id in Run(ops, n).tasks ==>
      TargetOf(Run(ops, n), true, ids, id) == Local && TargetOf(Run(ops, n), false, ids, id) == Unknown
  {
    var s := Run(ops, n);
    Namespace.SplitUndoesPrefix(backend, original);
    forall id | id in s.tasks ensures ResolveTask(id) == None {
      OnlyMinted(ops, n, id);
      var k :| 1 <= k <= s.count && id == NewTaskId(k);
      StoreIdNeverSplits(k);
    }
  }

  /** A task request is served locally exactly when the server originates tasks and
      holds this one; it goes to a backend under an id exactly when it is not local
      and its own id is that configured backend's label for it; else it is unknown. */
  lemma TaskTargetExactly(s: Store, serving: bool, ids: seq<string>, id: string, backend: string, original: string)
    requires Namespace.ValidBackendId(backend) && !Namespace.EndsInUnderscore(backend)
    ensures TargetOf(s, serving, ids, id).Local? <==> serving && id in s.tasks
    ensures TargetOf(s, serving, ids, id) == Remote(backend, original) <==>
      && !(serving && id in s.tasks) && backend in ids
      && original != "" && id == Namespace.Prefix(backend, original)
  {
    Namespace.SplitUndoesPrefix(backend, original);
    if ResolveTask(id) == Some((backend, original)) {
      Namespace.SplitIsLabel(id);
    }
  }

  predicate OnlyChanges(a: Json, b: Json, keys: set<string>) {
    if a.Obj? then
      b.Obj? && b.fields.Keys == a.fields.Keys && forall key ::
        key in a.fields && key !in keys ==> b.fields[key] == a.fields[key]
    else b == a
  }

  lemma RequalifyResolves(v: Json, backend: string)
    requires Namespace.ValidBackendId(backend) && !Namespace.EndsInUnderscore(backend)
    ensures OnlyChanges(v, Requalify(v, backend), {"taskId"})
    ensures GetStr(v, "taskId").Some? && GetStr(v, "taskId").value != "" ==>
      GetStr(Requalify(v, backend), "taskId").Some? &&
      ResolveTask(GetStr(Requalify(v, backend), "taskId").value) == Some((backend, GetStr(v, "taskId").value))
  {
    if GetStr(v, "taskId").Some? {
      Namespace.SplitUndoesPrefix(backend, GetStr(v, "taskId").value);
    }
  }

  /** Both ids of a task handle resolve to where the task lives; nothing else in
      the result changes. */
  lemma HandleIdsResolve(result: Json, backend: string)
    requires Namespace.ValidBackendId(backend) && !Namespace.EndsInUnderscore(backend)
    ensures var out := NamespaceTaskId(result, backend);
      var (outer, inner) := (GetStr(result, "taskId"), GetStr(Index(result, "task"), "taskId"));
      && OnlyChanges(result, out, {"taskId", "task"})
      && OnlyChanges(Index(result, "task"), Index(out, "task"), {"taskId"})
      && (outer.Some? && outer.value != "" ==>
            GetStr(out, "taskId").Some? && ResolveTask(GetStr(out, "taskId").value) == Some((backend, outer.value)))
      && (inner.Some? && inner.value != "" ==>
            GetStr(Index(out, "task"), "taskId").Some? &&
            ResolveTask(GetStr(Index(out, "task"), "taskId").value) == Some((backend, inner.value)))
  {
    var top := Requalify(result, backend);
    RequalifyResolves(result, backend);
    assert Index(top, "task") == Index(result, "task");
    RequalifyResolves(Index(top, "task"), backend);
    PutApart(top, backend);
  }

  lemma PutApart(top: Json, backend: string)
    ensures var task := Index(top, "task");
      var out := if task.Obj? then Put(top, "task", Requalify(task, backend)) else top;
      && GetStr(out, "taskId") == GetStr(top, "taskId")
      && OnlyChanges(top, out, {"task"})
      && Index(out, "task") == Requalify(task, backend)
  {
  }
}
