/** Requests that backends send to the client. The proxy mints a client-facing
    id for each, remembers which backend and which original id it stands for,
    and routes the client's reply or cancellation back. All backends' readers,
    all their requests and the client's messages interleave freely. */
module Correlation {
  import opened Prelude
  import opened JsonValue
  import Decimal
  import Breaker
  import Demux = RequestDemux

  /** A backend-initiated request: who sent it and the message as received. */
  datatype Minted = Minted(backend: nat, message: Json)

  datatype Via = Reply | Cancellation

  /** One message routed from the client to a backend. */
  datatype Delivery = Delivery(backend: nat, key: string, via: Via, message: Json)

  /** `serverRequests` and `seqNo` are shared by all readers. A reader in `busy`
      has fetched its number but not yet inserted its entry. `minted`,
      `toClient` and `delivered` are history. */
  datatype Table = Table(
    ids: seq<string>,
    serverRequests: map<string, (string, Json)>,
    seqNo: nat,
    pool: set<Json>,
    busy: map<nat, nat>,
    minted: seq<Minted>,
    tickets: map<string, nat>,
    toClient: seq<Json>,
    delivered: seq<Delivery>)

  function Fresh(ids: seq<string>): Table {
    Table(ids, map[], 0, {}, map[], [], map[], [], [])
  }

  function SrvId(n: nat): string {
    "srv-" + Decimal.Render(n)
  }

  lemma SrvIdInjective(m: nat, n: nat)
    ensures SrvId(m) == SrvId(n) ==> m == n
  {
    if SrvId(m) == SrvId(n) {
      Decimal.TaggedInjective("srv-", m, n);
    }
  }

  function FindBackend(ids: seq<string>, id: string): (i: Option<nat>)
    ensures i.Some? ==> i.value < |ids| && ids[i.value] == id && id !in ids[..i.value]
    ensures i.None? ==> id !in ids
  {
    if ids == [] then None
    else if ids[0] == id then Some(0)
    else match FindBackend(ids[1..], id)
      case None => None
      case Some(k) => Some(k + 1)
  }

  lemma FindDistinct(ids: seq<string>, i: nat)
    requires Distinct(ids) && i < |ids|
    ensures FindBackend(ids, ids[i]) == Some(i)
  {
    var k := FindBackend(ids, ids[i]);
    assert k.Some? && ids[k.value] == ids[i];
  }

  predicate IsRequest(m: Json) {
    Get(m, "id").Some? && GetStr(m, "method").Some?
  }

  predicate IsReply(m: Json) {
    Get(m, "id").Some? && GetStr(m, "method").None?
  }

  function OriginalId(m: Json): Json {
    OrNull(Get(m, "id"))
  }

  /** `fetch_add(1) + 1` by reader `b`. */
  function FetchNumber(t: Table, b: nat, message: Json): Table {
    t.(seqNo := t.seqNo + 1,
       busy := t.busy[b := t.seqNo + 1],
       minted := t.minted + [Minted(b, message)])
  }

  /** Reader `b` inserts its entry and relays the rewritten request. */
  function Publish(t: Table, b: nat): Table
    requires b in t.busy && b < |t.ids| && 1 <= t.busy[b] <= |t.minted|
  {
    var n := t.busy[b];
    var message := t.minted[n - 1].message;
    t.(serverRequests := t.serverRequests[SrvId(n) := (t.ids[b], OriginalId(message))],
       busy := t.busy - {b},
       tickets := t.tickets[SrvId(n) := n],
       toClient := t.toClient + [Put(message, "id", Str(SrvId(n)))])
  }

  /** Take the entry for `key` and send `message` to the backend it names. */
  function Forward(t: Table, key: string, via: Via, message: Json): Table
    requires key in t.serverRequests
  {
    var taken := t.(serverRequests := t.serverRequests - {key});
    match FindBackend(t.ids, t.serverRequests[key].0)
    case None => taken
    case Some(b) => taken.(delivered := t.delivered + [Delivery(b, key, via, message)])
  }

  function RouteReply(t: Table, message: Json): Table {
    match GetStr(message, "id")
    case None => t
    case Some(key) =>
      if key !in t.serverRequests then t
      else Forward(t, key, Reply, Put(message, "id", t.serverRequests[key].1))
  }

  function Target(message: Json): Option<Json> {
    match Get(message, "params")
    case None => None
    case Some(params) => Get(params, "requestId")
  }

  function RouteCancellation(t: Table, message: Json): Table {
    match Target(message)
    case None => t
    case Some(target) =>
      if target in t.pool then t.(pool := t.pool - {target})
      else if !target.Str? || target.s !in t.serverRequests then t
      else
        var params := Put(OrNull(Get(message, "params")), "requestId", t.serverRequests[target.s].1);
        Forward(t, target.s, Cancellation, Put(message, "params", params))
  }

  // ---- The table's invariant ----

  /** `key` was printed from number `n`, which reader `n`'s request fetched. */
  ghost predicate Stands(t: Table, key: string) {
    key in t.tickets && 1 <= t.tickets[key] <= |t.minted|
  }

  function MintOf(t: Table, key: string): Minted
    requires Stands(t, key)
  {
    t.minted[t.tickets[key] - 1]
  }

  /** The routed message carries the backend's own id again. */
  ghost predicate Restored(d: Delivery, original: Json) {
    match d.via
    case Reply => Get(d.message, "id") == Some(original)
    case Cancellation => Target(d.message) == Some(original)
  }

  ghost predicate DeliveryOk(t: Table, d: Delivery) {
    && Stands(t, d.key)
    && d.backend == MintOf(t, d.key).backend
    && Restored(d, OriginalId(MintOf(t, d.key).message))
    && d.key !in t.serverRequests
  }

  ghost predicate EntryOk(t: Table, key: string)
    requires key in t.serverRequests
  {
    && Stands(t, key)
    && MintOf(t, key).backend < |t.ids|
    && t.serverRequests[key] == (t.ids[MintOf(t, key).backend], OriginalId(MintOf(t, key).message))
  }

  ghost predicate BusyOk(t: Table, b: nat)
    requires b in t.busy
  {
    && b < |t.ids| && 1 <= t.busy[b] <= |t.minted|
    && t.minted[t.busy[b] - 1].backend == b
    && NoTicket(t.tickets, t.busy[b])
  }

  ghost predicate NoTicket(tickets: map<string, nat>, n: nat) {
    forall key :: key in tickets ==> tickets[key] != n
  }

  function Relayed(t: Table, n: nat): Json
    requires 1 <= n <= |t.minted|
  {
    Put(t.minted[n - 1].message, "id", Str(SrvId(n)))
  }

  ghost predicate RelayOk(t: Table, m: Json) {
    exists n :: 1 <= n <= |t.minted| && m == Relayed(t, n)
  }

  ghost predicate NamesOk(t: Table) {
    forall key :: key in t.tickets ==> 1 <= t.tickets[key] <= |t.minted| && key == SrvId(t.tickets[key])
  }

  ghost predicate EntriesOk(t: Table) {
    forall key :: key in t.serverRequests ==> EntryOk(t, key)
  }

  ghost predicate ReadersOk(t: Table) {
    forall b :: b in t.busy ==> BusyOk(t, b)
  }

  ghost predicate DeliveriesOk(t: Table) {
    && (forall i :: 0 <= i < |t.delivered| ==> DeliveryOk(t, t.delivered[i]))
    && (forall i, j :: 0 <= i < j < |t.delivered| ==> t.delivered[i].key != t.delivered[j].key)
  }

  ghost predicate RelaysOk(t: Table) {
    forall i :: 0 <= i < |t.toClient| ==> RelayOk(t, t.toClient[i])
  }

  ghost predicate Balanced(t: Table) {
    && t.seqNo == |t.minted|
    && |t.minted| == |t.busy| + |t.serverRequests| + |t.delivered|
    && |t.toClient| == |t.serverRequests| + |t.delivered|
  }

  ghost predicate Inv(t: Table) {
    NamesOk(t) && EntriesOk(t) && ReadersOk(t) && DeliveriesOk(t) && RelaysOk(t) && Balanced(t)
  }

  lemma RelaysGrow(t: Table, t': Table)
    requires RelaysOk(t) && t.minted <= t'.minted
    requires t.toClient <= t'.toClient
    requires forall i :: |t.toClient| <= i < |t'.toClient| ==> RelayOk(t', t'.toClient[i])
    ensures RelaysOk(t')
  {
    forall i | 0 <= i < |t.toClient| ensures RelayOk(t', t'.toClient[i]) {
      assert RelayOk(t, t.toClient[i]);
      var k :| 1 <= k <= |t.minted| && t.toClient[i] == Relayed(t, k);
      assert t'.toClient[i] == Relayed(t', k);
    }
  }

  /** Nothing ever forgets a mint or a ticket. */
  ghost predicate Remembers(t: Table, t': Table) {
    && t'.ids == t.ids && t.minted <= t'.minted
    && (forall key :: key in t.tickets ==> key in t'.tickets && t'.tickets[key] == t.tickets[key])
  }

  lemma EntriesCarry(t: Table, t': Table, added: set<string>)
    requires EntriesOk(t) && Remembers(t, t')
    requires forall key :: key in t'.serverRequests && key !in added ==>
               key in t.serverRequests && t'.serverRequests[key] == t.serverRequests[key]
    requires forall key :: key in added && key in t'.serverRequests ==> EntryOk(t', key)
    ensures EntriesOk(t')
  {
    forall key | key in t'.serverRequests ensures EntryOk(t', key) {
      if key !in added { assert EntryOk(t, key); }
    }
  }

  lemma ReadersCarry(t: Table, t': Table, added: set<nat>)
    requires ReadersOk(t) && Remembers(t, t')
    requires forall b :: b in t'.busy && b !in added ==>
               b in t.busy && t'.busy[b] == t.busy[b] && NoTicket(t'.tickets, t.busy[b])
    requires forall b :: b in added && b in t'.busy ==> BusyOk(t', b)
    ensures ReadersOk(t')
  {
    forall b | b in t'.busy ensures BusyOk(t', b) {
      if b !in added { assert BusyOk(t, b); }
    }
  }

  lemma DeliveryCarries(t: Table, t': Table, d: Delivery)
    requires DeliveryOk(t, d) && Remembers(t, t') && d.key !in t'.serverRequests
    ensures DeliveryOk(t', d)
  {
  }

  lemma DeliveriesCarry(t: Table, t': Table)
    requires DeliveriesOk(t) && Remembers(t, t') && t'.delivered == t.delivered
    requires forall i :: 0 <= i < |t.delivered| ==> t.delivered[i].key !in t'.serverRequests
    ensures DeliveriesOk(t')
  {
    forall i | 0 <= i < |t'.delivered| ensures DeliveryOk(t', t'.delivered[i]) {
      DeliveryCarries(t, t', t.delivered[i]);
    }
  }

  lemma DeliveredKeysGone(t: Table)
    requires DeliveriesOk(t)
    ensures forall i :: 0 <= i < |t.delivered| ==>
              t.delivered[i].key !in t.serverRequests && t.delivered[i].key in t.tickets
  {
    forall i | 0 <= i < |t.delivered|
      ensures t.delivered[i].key !in t.serverRequests && t.delivered[i].key in t.tickets {
      assert DeliveryOk(t, t.delivered[i]);
    }
  }

  lemma FetchKeepsInv(t: Table, b: nat, message: Json)
    requires Inv(t) && b < |t.ids| && b !in t.busy
    ensures Inv(FetchNumber(t, b, message))
  {
    var t' := FetchNumber(t, b, message);
    assert NoTicket(t.tickets, t'.seqNo);
    DeliveredKeysGone(t);
    EntriesCarry(t, t', {});
    DeliveriesCarry(t, t');
    assert ReadersOk(t') by {
      forall c | c in t.busy ensures NoTicket(t.tickets, t.busy[c]) { assert BusyOk(t, c); }
      ReadersCarry(t, t', {b});
    }
    RelaysGrow(t, t');
  }

  /** A fetched number prints to an id that was never published. */
  lemma PublishedIdIsNew(t: Table, b: nat)
    requires Inv(t) && b in t.busy
    ensures BusyOk(t, b) && SrvId(t.busy[b]) !in t.tickets
  {
    assert BusyOk(t, b);
    var key := SrvId(t.busy[b]);
    if key in t.tickets {
      SrvIdInjective(t.busy[b], t.tickets[key]);
    }
  }

  /** Reader `b` made its id known: the entry, the ticket and the relay. */
  ghost predicate Inserted(t: Table, t': Table, b: nat, key: string) {
    && b in t.busy && BusyOk(t, b) && key !in t.tickets && key == SrvId(t.busy[b])
    && t' == t.(serverRequests := t.serverRequests[key := (t.ids[b], OriginalId(t.minted[t.busy[b] - 1].message))],
                busy := t.busy - {b},
                tickets := t.tickets[key := t.busy[b]],
                toClient := t.toClient + [Relayed(t, t.busy[b])])
  }

  lemma InsertedEntry(t: Table, t': Table, b: nat, key: string)
    requires Inserted(t, t', b, key)
    ensures Remembers(t, t') && EntryOk(t', key)
  {
  }

  lemma InsertKeepsEntries(t: Table, t': Table, key: string, entry: (string, Json))
    requires EntriesOk(t) && Remembers(t, t')
    requires t'.serverRequests == t.serverRequests[key := entry] && EntryOk(t', key)
    ensures EntriesOk(t')
  {
    EntriesCarry(t, t', {key});
  }

  lemma InsertKeepsReaders(t: Table, t': Table, b: nat, key: string)
    requires ReadersOk(t) && b in t.busy && BusyOk(t, b) && Remembers(t, t')
    requires t'.busy == t.busy - {b} && t'.tickets == t.tickets[key := t.busy[b]]
    ensures ReadersOk(t')
  {
    forall c | c in t'.busy ensures c in t.busy && NoTicket(t'.tickets, t.busy[c]) {
      assert BusyOk(t, c);
      assert t.busy[c] != t.busy[b];
    }
    ReadersCarry(t, t', {});
  }

  lemma InsertKeepsDeliveries(t: Table, t': Table, b: nat, key: string)
    requires Inv(t) && Inserted(t, t', b, key)
    ensures DeliveriesOk(t')
  {
    DeliveredKeysGone(t);
    DeliveriesCarry(t, t');
  }

  lemma InsertRelays(t: Table, t': Table, b: nat, key: string)
    requires RelaysOk(t) && Inserted(t, t', b, key)
    ensures RelaysOk(t')
  {
    assert t'.toClient[|t.toClient|] == Relayed(t', t.busy[b]);
    RelaysGrow(t, t');
  }

  lemma InsertBalances(t: Table, t': Table, b: nat, key: string)
    requires EntriesOk(t) && Balanced(t) && Inserted(t, t', b, key)
    ensures Balanced(t')
  {
    forall k | k in t.serverRequests ensures k != key { assert EntryOk(t, k); }
    assert t'.busy.Keys == t.busy.Keys - {b};
  }

  lemma InsertKeepsInv(t: Table, t': Table, b: nat, key: string)
    requires Inv(t) && Inserted(t, t', b, key)
    ensures Inv(t')
  {
    InsertKeepsTables(t, t', b, key);
    InsertKeepsDeliveries(t, t', b, key);
    InsertRelays(t, t', b, key);
    InsertBalances(t, t', b, key);
  }

  lemma InsertKeepsTables(t: Table, t': Table, b: nat, key: string)
    requires NamesOk(t) && EntriesOk(t) && ReadersOk(t) && Inserted(t, t', b, key)
    ensures NamesOk(t') && EntriesOk(t') && ReadersOk(t')
  {
    InsertedEntry(t, t', b, key);
    InsertKeepsEntries(t, t', key, t'.serverRequests[key]);
    InsertKeepsReaders(t, t', b, key);
  }

  lemma PublishKeepsInv(t: Table, b: nat)
    requires Inv(t) && b in t.busy
    ensures BusyOk(t, b) && Inv(Publish(t, b))
  {
    PublishedIdIsNew(t, b);
    InsertKeepsInv(t, Publish(t, b), b, SrvId(t.busy[b]));
  }

  lemma ForwardDelivers(t: Table, key: string, via: Via, message: Json)
    requires Inv(t) && Distinct(t.ids) && key in t.serverRequests
    ensures Stands(t, key)
    ensures Forward(t, key, via, message)
         == t.(serverRequests := t.serverRequests - {key},
               delivered := t.delivered + [Delivery(MintOf(t, key).backend, key, via, message)])
  {
    assert EntryOk(t, key);
    FindDistinct(t.ids, MintOf(t, key).backend);
  }

  lemma TakenKeepsDeliveries(t: Table, t': Table, d: Delivery)
    requires Inv(t) && d.key in t.serverRequests
    requires t' == t.(serverRequests := t.serverRequests - {d.key}, delivered := t.delivered + [d])
    requires DeliveryOk(t', d)
    ensures DeliveriesOk(t')
  {
    DeliveredKeysGone(t);
    forall i | 0 <= i < |t.delivered| ensures DeliveryOk(t', t.delivered[i]) {
      DeliveryCarries(t, t', t.delivered[i]);
    }
  }

  lemma SameReaders(t: Table, t': Table)
    requires ReadersOk(t) && t'.ids == t.ids && t'.minted == t.minted && t'.busy == t.busy && t'.tickets == t.tickets
    ensures ReadersOk(t')
  {
    forall c | c in t'.busy ensures BusyOk(t', c) { assert BusyOk(t, c); }
  }

  lemma TakenKeepsInv(t: Table, t': Table, d: Delivery)
    requires Inv(t) && d.key in t.serverRequests
    requires t' == t.(serverRequests := t.serverRequests - {d.key}, delivered := t.delivered + [d])
    requires DeliveryOk(t', d)
    ensures Inv(t')
  {
    TakenKeepsDeliveries(t, t', d);
    SameReaders(t, t');
    assert EntriesOk(t') by { EntriesCarry(t, t', {}); }
    assert RelaysOk(t') by { RelaysGrow(t, t'); }
    assert t'.serverRequests.Keys == t.serverRequests.Keys - {d.key};
  }

  lemma TakenDeliveryOk(t: Table, t': Table, d: Delivery)
    requires d.key in t.serverRequests && EntryOk(t, d.key)
    requires t'.minted == t.minted && t'.tickets == t.tickets && d.key !in t'.serverRequests
    requires d.backend == MintOf(t, d.key).backend && Restored(d, t.serverRequests[d.key].1)
    ensures DeliveryOk(t', d)
  {
  }

  lemma ForwardKeepsInv(t: Table, key: string, via: Via, message: Json)
    requires Inv(t) && Distinct(t.ids) && key in t.serverRequests
    requires Restored(Delivery(0, key, via, message), t.serverRequests[key].1)
    ensures Inv(Forward(t, key, via, message))
  {
    ForwardDelivers(t, key, via, message);
    var d := Delivery(MintOf(t, key).backend, key, via, message);
    var t' := Forward(t, key, via, message);
    assert EntryOk(t, key);
    TakenDeliveryOk(t, t', d);
    TakenKeepsInv(t, t', d);
  }

  lemma ReplyKeepsInv(t: Table, message: Json)
    requires Inv(t) && Distinct(t.ids)
    ensures Inv(RouteReply(t, message))
  {
    var key := GetStr(message, "id");
    if key.Some? && key.value in t.serverRequests {
      ForwardKeepsInv(t, key.value, Reply, Put(message, "id", t.serverRequests[key.value].1));
    }
  }

  lemma PoolKeepsInv(t: Table, pool: set<Json>)
    requires Inv(t)
    ensures Inv(t.(pool := pool))
  {
    var t' := t.(pool := pool);
    DeliveredKeysGone(t);
    EntriesCarry(t, t', {});
    DeliveriesCarry(t, t');
    SameReaders(t, t');
    RelaysGrow(t, t');
  }

  lemma CancellationKeepsInv(t: Table, message: Json)
    requires Inv(t) && Distinct(t.ids)
    ensures Inv(RouteCancellation(t, message))
  {
    var target := Target(message);
    if target.Some? {
      if target.value in t.pool {
        PoolKeepsInv(t, t.pool - {target.value});
      } else if target.value.Str? && target.value.s in t.serverRequests {
        var key := target.value.s;
        var params := Put(OrNull(Get(message, "params")), "requestId", t.serverRequests[key].1);
        ForwardKeepsInv(t, key, Cancellation, Put(message, "params", params));
      }
    }
  }

  // ---- The whole router as a transition system ----

  datatype Router = Router(handles: seq<Demux.Handle>, table: Table)

  datatype Event =
    | Local(backend: nat, e: Demux.Event)
    | FromBackend(backend: nat, message: Json)
    | Published(backend: nat)
    | FromClient(reply: Json)
    | Cancelled(notice: Json)
    | PoolSpawn(id: Json)
    | PoolFinish(id: Json)

  predicate Enabled(r: Router, e: Event) {
    match e
    case Local(b, local) =>
      && b < |r.handles| && Demux.Enabled(r.handles[b], local)
      && !local.Receive? && (local.Eof? ==> b !in r.table.busy)
    case FromBackend(b, message) =>
      b < |r.handles| && b !in r.table.busy && Demux.Enabled(r.handles[b], Demux.Receive(message))
    case Published(b) =>
      b in r.table.busy && b < |r.table.ids| && 1 <= r.table.busy[b] <= |r.table.minted|
    case FromClient(reply) => IsReply(reply)
    case Cancelled(_) => true
    case PoolSpawn(_) => true
    case PoolFinish(_) => true
  }

  function Step(r: Router, e: Event): Router
    requires Enabled(r, e)
  {
    match e
    case Local(b, local) => r.(handles := r.handles[b := Demux.Step(r.handles[b], local)])
    case FromBackend(b, message) =>
      if Demux.Responds(r.handles[b], message) then
        r.(handles := r.handles[b := Demux.Step(r.handles[b], Demux.Receive(message))])
      else if IsRequest(message) then r.(table := FetchNumber(r.table, b, message))
      else r
    case Published(b) => r.(table := Publish(r.table, b))
    case FromClient(reply) => r.(table := RouteReply(r.table, reply))
    case Cancelled(notice) => r.(table := RouteCancellation(r.table, notice))
    case PoolSpawn(id) => r.(table := r.table.(pool := r.table.pool + {id}))
    case PoolFinish(id) => r.(table := r.table.(pool := r.table.pool - {id}))
  }

  ghost predicate Reaches(r: Router, es: seq<Event>, r': Router)
    decreases |es|
  {
    if es == [] then r == r'
    else Enabled(r, es[0]) && Reaches(Step(r, es[0]), es[1..], r')
  }

  /** How each backend was configured: its id, its timeout and its breaker. */
  datatype Setup = Setup(id: string, timed: bool, breaker: Option<Breaker.Cell>)

  ghost predicate RouterInv(r: Router, setups: seq<Setup>) {
    && |r.handles| == |setups| == |r.table.ids|
    && Distinct(r.table.ids)
    && (forall b :: 0 <= b < |setups| ==>
          r.handles[b].id == setups[b].id == r.table.ids[b] && Demux.Inv(r.handles[b], setups[b].breaker))
    && Inv(r.table)
  }

  function Start(setups: seq<Setup>): Router {
    Router(seq(|setups|, i requires 0 <= i < |setups| => Demux.Fresh(setups[i].id, setups[i].timed, setups[i].breaker)),
           Fresh(seq(|setups|, i requires 0 <= i < |setups| => setups[i].id)))
  }

  lemma StartInv(setups: seq<Setup>)
    requires forall i, j :: 0 <= i < j < |setups| ==> setups[i].id != setups[j].id
    ensures RouterInv(Start(setups), setups)
  {
    forall b | 0 <= b < |setups| ensures Demux.Inv(Start(setups).handles[b], setups[b].breaker) {
      Demux.FreshInv(setups[b].id, setups[b].timed, setups[b].breaker);
    }
  }

  lemma HandleStepKeepsInv(r: Router, b: nat, e: Demux.Event, setups: seq<Setup>)
    requires RouterInv(r, setups) && b < |r.handles| && Demux.Enabled(r.handles[b], e)
    ensures RouterInv(r.(handles := r.handles[b := Demux.Step(r.handles[b], e)]), setups)
  {
    Demux.StepKeepsCalls(r.handles[b], e);
    Demux.StepKeepsLog(r.handles[b], e, setups[b].breaker);
  }

  lemma TableStepKeepsInv(r: Router, t: Table, setups: seq<Setup>)
    requires RouterInv(r, setups) && Inv(t) && t.ids == r.table.ids
    ensures RouterInv(r.(table := t), setups)
  {
  }

  lemma ReceiptKeepsInv(r: Router, b: nat, message: Json, setups: seq<Setup>)
    requires RouterInv(r, setups) && Enabled(r, FromBackend(b, message))
    ensures RouterInv(Step(r, FromBackend(b, message)), setups)
  {
    if Demux.Responds(r.handles[b], message) {
      HandleStepKeepsInv(r, b, Demux.Receive(message), setups);
    } else if IsRequest(message) {
      FetchKeepsInv(r.table, b, message);
      TableStepKeepsInv(r, FetchNumber(r.table, b, message), setups);
    }
  }

  lemma RoutingKeepsIds(t: Table, message: Json)
    ensures RouteReply(t, message).ids == t.ids && RouteCancellation(t, message).ids == t.ids
  {
  }

  lemma StepKeepsInv(r: Router, e: Event, setups: seq<Setup>)
    requires RouterInv(r, setups) && Enabled(r, e)
    ensures RouterInv(Step(r, e), setups)
  {
    match e
    case Local(b, local) => HandleStepKeepsInv(r, b, local, setups);
    case FromBackend(b, message) => ReceiptKeepsInv(r, b, message, setups);
    case Published(b) =>
      PublishKeepsInv(r.table, b);
      TableStepKeepsInv(r, Publish(r.table, b), setups);
    case FromClient(reply) =>
      ReplyKeepsInv(r.table, reply);
      RoutingKeepsIds(r.table, reply);
      TableStepKeepsInv(r, RouteReply(r.table, reply), setups);
    case Cancelled(notice) =>
      CancellationKeepsInv(r.table, notice);
      RoutingKeepsIds(r.table, notice);
      TableStepKeepsInv(r, RouteCancellation(r.table, notice), setups);
    case PoolSpawn(id) =>
      PoolKeepsInv(r.table, r.table.pool + {id});
      TableStepKeepsInv(r, r.table.(pool := r.table.pool + {id}), setups);
    case PoolFinish(id) =>
      PoolKeepsInv(r.table, r.table.pool - {id});
      TableStepKeepsInv(r, r.table.(pool := r.table.pool - {id}), setups);
  }

  lemma {:induction false} Safety(r: Router, es: seq<Event>, r': Router, setups: seq<Setup>)
    requires RouterInv(r, setups) && Reaches(r, es, r')
    ensures RouterInv(r', setups)
    decreases |es|
  {
    if es != [] {
      StepKeepsInv(r, es[0], setups);
      Safety(Step(r, es[0]), es[1..], r', setups);
    }
  }

  function CountVia(ds: seq<Delivery>, via: Via): nat {
    if ds == [] then 0
    else CountVia(ds[..|ds| - 1], via) + (if ds[|ds| - 1].via == via then 1 else 0)
  }

  lemma {:induction false} CountViaTotal(ds: seq<Delivery>)
    ensures CountVia(ds, Reply) + CountVia(ds, Cancellation) == |ds|
  {
    if ds != [] {
      CountViaTotal(ds[..|ds| - 1]);
    }
  }

  // ---- Main results ----

  /** In every reachable state: the n-th mint is `srv-n` and those ids differ;
      an outstanding id names the backend and original id that minted it;
      whatever was delivered went to that backend with the original id
      restored, no id was delivered twice or is still outstanding; and nothing
      is lost, so the backend lookup never failed. */
  lemma CorrelationIsSafe(setups: seq<Setup>, es: seq<Event>, r: Router)
    requires forall i, j :: 0 <= i < j < |setups| ==> setups[i].id != setups[j].id
    requires Reaches(Start(setups), es, r)
    ensures var t := r.table;
      && (forall m, n :: 1 <= m < n <= |t.minted| ==> SrvId(m) != SrvId(n))
      && (forall key :: key in t.tickets ==> key == SrvId(t.tickets[key]))
      && (forall key :: key in t.serverRequests ==> EntryOk(t, key))
      && (forall i :: 0 <= i < |t.delivered| ==> DeliveryOk(t, t.delivered[i]))
      && (forall i, j :: 0 <= i < j < |t.delivered| ==> t.delivered[i].key != t.delivered[j].key)
      && |t.minted| == |t.busy| + |t.serverRequests| + CountVia(t.delivered, Reply) +
        CountVia(t.delivered, Cancellation)
  {
    StartInv(setups);
    Safety(Start(setups), es, r, setups);
    CountViaTotal(r.table.delivered);
    forall m, n | 1 <= m < n <= |r.table.minted| ensures SrvId(m) != SrvId(n) {
      SrvIdInjective(m, n);
    }
  }

  /** Every request the client was shown is some backend's request verbatim but
      for its id, and the number shown is the number published. */
  lemma ClientSeesMintedIds(setups: seq<Setup>, es: seq<Event>, r: Router, i: nat)
    requires forall i, j :: 0 <= i < j < |setups| ==> setups[i].id != setups[j].id
    requires Reaches(Start(setups), es, r) && i < |r.table.toClient|
    ensures RelayOk(r.table, r.table.toClient[i])
    ensures |r.table.toClient| == |r.table.serverRequests| + |r.table.delivered|
  {
    StartInv(setups);
    Safety(Start(setups), es, r, setups);
  }

  /** A client reply changes exactly one thing: an outstanding id moves to the
      delivery list, addressed to its minter; any other reply changes nothing. */
  lemma ReplyGoesHome(setups: seq<Setup>, es: seq<Event>, r: Router, reply: Json)
    requires forall i, j :: 0 <= i < j < |setups| ==> setups[i].id != setups[j].id
    requires Reaches(Start(setups), es, r) && IsReply(reply)
    ensures var t, t' := r.table, Step(r, FromClient(reply)).table;
            var key := GetStr(reply, "id");
      if key.Some? && key.value in t.serverRequests then
        && Stands(t, key.value)
        && t'.serverRequests == t.serverRequests - {key.value}
        && t'.delivered == t.delivered + [Delivery(MintOf(t, key.value).backend, key.value, Reply,
                              Put(reply, "id", OriginalId(MintOf(t, key.value).message)))]
      else t' == t
  {
    StartInv(setups);
    Safety(Start(setups), es, r, setups);
    var key := GetStr(reply, "id");
    if key.Some? && key.value in r.table.serverRequests {
      assert EntryOk(r.table, key.value);
      ForwardDelivers(r.table, key.value, Reply, Put(reply, "id", r.table.serverRequests[key.value].1));
    }
  }

  /** The message is the notice, but for the `requestId` in its `params`. */
  ghost predicate OnlyRequestIdChanged(notice: Json, sent: Json, original: Json) {
    && (forall key :: key != "params" ==> Get(sent, key) == Get(notice, key))
    && (forall key :: key != "requestId" ==> Get(Index(sent, "params"), key) == Get(Index(notice, "params"), key))
    && Get(Index(sent, "params"), "requestId") == Some(original)
  }

  /** One cancellation left the table: its entry went, and it was sent home. */
  ghost predicate SentHome(t: Table, t': Table, notice: Json, key: string) {
    && Stands(t, key) && key in t.serverRequests
    && |t'.delivered| == |t.delivered| + 1
    && t'.delivered[..|t.delivered|] == t.delivered
    && t' == t.(serverRequests := t.serverRequests - {key}, delivered := t'.delivered)
    && var (d, mint) := (t'.delivered[|t.delivered|], MintOf(t, key));
      && d.backend == mint.backend && d.key == key && d.via == Cancellation
      && OnlyRequestIdChanged(notice, d.message, OriginalId(mint.message))
  }

  lemma RestoredNotice(notice: Json, original: Json)
    requires Get(Index(notice, "params"), "requestId").Some?
    ensures OnlyRequestIdChanged(notice,
              Put(notice, "params", Put(OrNull(Get(notice, "params")), "requestId", original)), original)
  {
  }

  lemma OutstandingIsSentHome(t: Table, notice: Json, key: string)
    requires Inv(t) && Distinct(t.ids) && key in t.serverRequests && Str(key) !in t.pool
    requires Get(Index(notice, "params"), "requestId") == Some(Str(key))
    ensures SentHome(t, RouteCancellation(t, notice), notice, key)
  {
    var original := t.serverRequests[key].1;
    assert EntryOk(t, key);
    var sent := Put(notice, "params", Put(OrNull(Get(notice, "params")), "requestId", original));
    RestoredNotice(notice, original);
    ForwardDelivers(t, key, Cancellation, sent);
    assert RouteCancellation(t, notice) == Forward(t, key, Cancellation, sent);
  }

  /** A client cancellation changes exactly one thing. When its `requestId` is a
      pooled call, that call alone leaves the pool and nothing is sent. Otherwise,
      when it is an outstanding id, that id moves to the delivery list: the notice
      goes to the backend that minted it, with the backend's own id restored and
      nothing else in it changed. Any other notice changes nothing. */
  lemma CancellationGoesHome(setups: seq<Setup>, es: seq<Event>, r: Router, notice: Json)
    requires forall i, j :: 0 <= i < j < |setups| ==> setups[i].id != setups[j].id
    requires Reaches(Start(setups), es, r)
    ensures var (t, after) := (r.table, Step(r, Cancelled(notice)));
            var id := Get(Index(notice, "params"), "requestId");
      && after.handles == r.handles
      && if id.Some? && id.value in t.pool then after.table == t.(pool := t.pool - {id.value})
         else if id.Some? && id.value.Str? && id.value.s in t.serverRequests then
           SentHome(t, after.table, notice, id.value.s)
         else after.table == t
  {
    StartInv(setups);
    Safety(Start(setups), es, r, setups);
    var t, id := r.table, Get(Index(notice, "params"), "requestId");
    assert Target(notice) == id;
    if id.Some? && id.value !in t.pool && id.value.Str? && id.value.s in t.serverRequests {
      OutstandingIsSentHome(t, notice, id.value.s);
    }
  }

  /** A message from a backend is taken for its answer when a request of that
      backend waits under its id. Otherwise, when it has an id and a method, it is
      minted: exactly that message, under the next number, held by that backend's
      reader. Anything else leaves the table alone. */
  lemma BackendRequestIsMinted(setups: seq<Setup>, es: seq<Event>, r: Router, b: nat, message: Json)
    requires forall i, j :: 0 <= i < j < |setups| ==> setups[i].id != setups[j].id
    requires Reaches(Start(setups), es, r) && Enabled(r, FromBackend(b, message))
    ensures var t, t' := r.table, Step(r, FromBackend(b, message)).table;
            var answers := GetStr(message, "id").Some? && GetStr(message, "id").value in r.handles[b].pending;
      if !answers && Get(message, "id").Some? && GetStr(message, "method").Some? then
        && t'.minted == t.minted + [Minted(b, message)]
        && t'.busy == t.busy[b := |t'.minted|]
        && t'.serverRequests == t.serverRequests && t'.toClient == t.toClient && t'.delivered == t.delivered
      else t' == t
  {
    StartInv(setups);
    Safety(Start(setups), es, r, setups);
  }

  /** The client is shown the message with `id` for its own, and `id` stands for it. */
  ghost predicate Shows(t: Table, t': Table, b: nat, id: string, message: Json)
    requires b < |t.ids|
  {
    && |t'.toClient| == |t.toClient| + 1 && t'.toClient[..|t.toClient|] == t.toClient
    && (message.Obj? ==> Get(t'.toClient[|t.toClient|], "id") == Some(Str(id)))
    && (forall key :: key != "id" ==> Get(t'.toClient[|t.toClient|], key) == Get(message, key))
    && id !in t.serverRequests
    && t'.serverRequests == t.serverRequests[id := (t.ids[b], OrNull(Get(message, "id")))]
    && t'.busy == t.busy - {b} && t'.minted == t.minted && t'.delivered == t.delivered
  }

  lemma EntriesHaveTickets(t: Table)
    requires EntriesOk(t)
    ensures forall key :: key in t.serverRequests ==> key in t.tickets
  {
    forall key | key in t.serverRequests ensures key in t.tickets {
      assert EntryOk(t, key);
    }
  }

  lemma PublishShows(t: Table, b: nat)
    requires EntriesOk(t) && b in t.busy && BusyOk(t, b) && SrvId(t.busy[b]) !in t.tickets
    ensures Shows(t, Publish(t, b), b, SrvId(t.busy[b]), t.minted[t.busy[b] - 1].message)
  {
    EntriesHaveTickets(t);
  }

  lemma HeldIsShown(t: Table, b: nat)
    requires Inv(t) && b in t.busy
    ensures BusyOk(t, b) && Shows(t, Publish(t, b), b, SrvId(t.busy[b]), t.minted[t.busy[b] - 1].message)
  {
    PublishedIdIsNew(t, b);
    PublishShows(t, b);
  }

  lemma ReachedTable(setups: seq<Setup>, es: seq<Event>, r: Router)
    requires forall i, j :: 0 <= i < j < |setups| ==> setups[i].id != setups[j].id
    requires Reaches(Start(setups), es, r)
    ensures Inv(r.table) && Distinct(r.table.ids)
  {
    StartInv(setups);
    Safety(Start(setups), es, r, setups);
  }

  /** What a reader holds is then shown: the client sees that very request with
      the minted id for its own, and from then on that id stands for it. */
  lemma MintedRequestIsShown(setups: seq<Setup>, es: seq<Event>, r: Router, b: nat)
    requires forall i, j :: 0 <= i < j < |setups| ==> setups[i].id != setups[j].id
    requires Reaches(Start(setups), es, r) && Enabled(r, Published(b))
    ensures var (t, n) := (r.table, r.table.busy[b]);
      && t.minted[n - 1].backend == b
      && Shows(t, Step(r, Published(b)).table, b, SrvId(n), t.minted[n - 1].message)
  {
    ReachedTable(setups, es, r);
    HeldIsShown(r.table, b);
  }

  // ---- The shared state itself ----

  class ForwardRouter {
    const ids: seq<string>
    var serverRequests: map<string, (string, Json)>
    var seqNo: nat
    var poolTasks: set<Json>
    ghost var busy: map<nat, nat>
    ghost var minted: seq<Minted>
    ghost var tickets: map<string, nat>
    ghost var toClient: seq<Json>
    ghost var delivered: seq<Delivery>

    ghost function State(): Table
      reads this
    {
      Table(ids, serverRequests, seqNo, poolTasks, busy, minted, tickets, toClient, delivered)
    }

    constructor (ids: seq<string>)
      ensures State() == Fresh(ids)
    {
      this.ids := ids;
      serverRequests, seqNo, poolTasks := map[], 0, {};
      busy, minted, tickets, toClient, delivered := map[], [], map[], [], [];
    }

    /** Reader `b` met a message that answers nothing. */
    method FetchSequence(b: nat, message: Json) returns (n: nat)
      modifies this
      ensures State() == FetchNumber(old(State()), b, message)
      ensures n == old(seqNo) + 1
    {
      n := seqNo + 1;
      seqNo := seqNo + 1;
      busy := busy[b := n];
      minted := minted + [Minted(b, message)];
    }

    /** Reader `b` holds number `n` for this message. */
    ghost predicate InHand(b: nat, n: nat, message: Json)
      reads this
    {
      b in busy && b < |ids| && n == busy[b] && 1 <= n <= |minted| && minted[n - 1].message == message
    }

    method InsertAndRelay(b: nat, n: nat, message: Json) returns (rewritten: Json)
      requires InHand(b, n, message)
      modifies this
      ensures State() == Publish(old(State()), b)
      ensures rewritten == Put(message, "id", Str(SrvId(n)))
    {
      var clientId := SrvId(n);
      serverRequests := serverRequests[clientId := (ids[b], OrNull(Get(message, "id")))];
      rewritten := Put(message, "id", Str(clientId));
      busy := busy - {b};
      tickets := tickets[clientId := n];
      toClient := toClient + [rewritten];
    }

    method RouteClientReply(message: Json) returns (sent: Option<(nat, Json)>)
      modifies this
      ensures State() == RouteReply(old(State()), message)
      ensures sent.Some? <==> |delivered| > |old(delivered)|
      ensures sent.Some? ==>
                (delivered[|old(delivered)|].backend, delivered[|old(delivered)|].message) == sent.value
    {
      sent := None;
      var clientId := GetStr(message, "id");
      if clientId.None? {
        return;
      }
      if clientId.value in serverRequests {
        var (backendId, original) := serverRequests[clientId.value];
        serverRequests := serverRequests - {clientId.value};
        var reply := Put(message, "id", original);
        var backend := FindBackend(ids, backendId);
        if backend.Some? {
          sent := Some((backend.value, reply));
          delivered := delivered + [Delivery(backend.value, clientId.value, Reply, reply)];
        }
      }
    }

    method RouteClientCancellation(message: Json) returns (sent: Option<(nat, Json)>)
      modifies this
      ensures State() == RouteCancellation(old(State()), message)
      ensures sent.Some? <==> |delivered| > |old(delivered)|
      ensures sent.Some? ==>
                (delivered[|old(delivered)|].backend, delivered[|old(delivered)|].message) == sent.value
    {
      sent := None;
      var requestId := Target(message);
      if requestId.None? {
        return;
      }
      if requestId.value in poolTasks {
        poolTasks := poolTasks - {requestId.value};
        return;
      }
      if !requestId.value.Str? {
        return;
      }
      var key := requestId.value.s;
      if key in serverRequests {
        var (backendId, original) := serverRequests[key];
        serverRequests := serverRequests - {key};
        var forwarded := Put(message, "params", Put(OrNull(Get(message, "params")), "requestId", original));
        var backend := FindBackend(ids, backendId);
        if backend.Some? {
          sent := Some((backend.value, forwarded));
          delivered := delivered + [Delivery(backend.value, key, Cancellation, forwarded)];
        }
      }
    }
  }
}
