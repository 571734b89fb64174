/** The capability-list cache. Lazy eviction is proved to answer exactly what a
    query over the history of puts and invalidations answers. */
module Cache {
  import opened Prelude
  import opened JsonValue

  const PRIVATE := "private"

  type Key = (string, string)
  type Principal = Option<string>

  datatype Item = Item(result: Json, expiresAt: real, scope: string, principal: Principal)
  type Table = map<Key, Item>

  /** `ttlMs` when it is a number, else the cache's default. */
  function Ttl(result: Json, standard: real): real {
    var ttl := Get(result, "ttlMs");
    if ttl.Some? && ttl.value.Num? then ttl.value.n as real
    else if ttl.Some? && ttl.value.Dec? then ttl.value.r
    else standard
  }

  predicate IsPrivate(result: Json) {
    GetStr(result, "cacheScope") == Some(PRIVATE)
  }

  predicate Serves(item: Item, principal: Principal) {
    item.scope != PRIVATE || item.principal == principal
  }

  function Evict(t: Table, key: Key, now: real): Table {
    if key in t && now >= t[key].expiresAt then t - {key} else t
  }

  function Lookup(t: Table, key: Key, principal: Principal, now: real): Option<Json> {
    if key in t && now < t[key].expiresAt && Serves(t[key], principal) then Some(t[key].result) else None
  }

  function ItemFor(result: Json, principal: Principal, standard: real, now: real): Item {
    Item(result, now + Ttl(result, standard) / 1000.0,
         if IsPrivate(result) then PRIVATE else "public", if IsPrivate(result) then principal else None)
  }

  function Store(t: Table, key: Key, principal: Principal, result: Json, standard: real, now: real): Table {
    if Ttl(result, standard) <= 0.0 then t - {key} else t[key := ItemFor(result, principal, standard, now)]
  }

  function Drop(t: Table, backend: string): Table {
    map key | key in t && key.0 != backend :: t[key]
  }

  class ListCache {
    const standard: real
    var entries: Table

    constructor (standard: real)
      ensures this.standard == standard && entries == map[]
    {
      this.standard, entries := standard, map[];
    }

    method Get(backend: string, name: string, principal: Principal, now: real) returns (r: Option<Json>)
      modifies this
      ensures entries == Evict(old(entries), (backend, name), now)
      ensures r == Lookup(old(entries), (backend, name), principal, now)
    {
      var key := (backend, name);
      if key !in entries { return None; }
      if now >= entries[key].expiresAt {
        entries := entries - {key};
        return None;
      }
      var entry := entries[key];
      if entry.scope == PRIVATE && entry.principal != principal { return None; }
      return Some(entry.result);
    }

    method Put(backend: string, name: string, principal: Principal, result: Json, now: real)
      modifies this
      ensures entries == Store(old(entries), (backend, name), principal, result, standard, now)
    {
      var key := (backend, name);
      var ttl := Ttl(result, standard);
      if ttl <= 0.0 {
        entries := entries - {key};
        return;
      }
      var scope := if IsPrivate(result) then PRIVATE else "public";
      entries := entries[key := Item(result, now + ttl / 1000.0, scope, if scope == PRIVATE then principal else None)];
    }

    method InvalidateBackend(backend: string)
      modifies this
      ensures entries == Drop(old(entries), backend)
    {
      entries := map key | key in entries && key.0 != backend :: entries[key];
    }
  }

  // ---- The history a cache refines ----

  datatype Op =
    | Read(key: Key, at: real)
    | Wrote(key: Key, principal: Principal, result: Json, at: real)
    | Invalidated(backend: string)

  function Apply(t: Table, op: Op, standard: real): Table {
    match op
    case Read(key, at) => Evict(t, key, at)
    case Wrote(key, principal, result, at) => Store(t, key, principal, result, standard, at)
    case Invalidated(backend) => Drop(t, backend)
  }

  function Run(ops: seq<Op>, n: nat, standard: real): Table
    requires n <= |ops|
  {
    if n == 0 then map[] else Apply(Run(ops, n - 1, standard), ops[n - 1], standard)
  }

  predicate Touches(op: Op, key: Key) {
    match op
    case Read(_, _) => false
    case Wrote(k, _, _, _) => k == key
    case Invalidated(backend) => backend == key.0
  }

  /** The last of the first `n` operations to touch the key. */
  function LastTouch(ops: seq<Op>, n: nat, key: Key): Option<Op>
    requires n <= |ops|
  {
    if n == 0 then None
    else if Touches(ops[n - 1], key) then Some(ops[n - 1])
    else LastTouch(ops, n - 1, key)
  }

  /** A reader at `now` may be served from this put. */
  predicate Servable(op: Op, principal: Principal, standard: real, now: real) {
    && op.Wrote?
    && Ttl(op.result, standard) > 0.0
    && now < op.at + Ttl(op.result, standard) / 1000.0
    && (IsPrivate(op.result) ==> op.principal == principal)
  }

  /** What a lookup means, read off the history alone. */
  function HistoryAnswers(ops: seq<Op>, key: Key, principal: Principal, standard: real, now: real): Option<Json> {
    match LastTouch(ops, |ops|, key)
    case None => None
    case Some(op) => if Servable(op, principal, standard, now) then Some(op.result) else None
  }

  /** The clock readings never go back, and all are at most `now`. */
  ghost predicate Ordered(ops: seq<Op>, n: nat, now: real)
    requires n <= |ops|
  {
    n == 0 ||
    match ops[n - 1]
    case Invalidated(_) => Ordered(ops, n - 1, now)
    case Read(_, at) => at <= now && Ordered(ops, n - 1, at)
    case Wrote(_, _, _, at) => at <= now && Ordered(ops, n - 1, at)
  }

  /** The table holds the key's last put, unless that one has run out by `now`. */
  ghost predicate Tracks(t: Table, ops: seq<Op>, n: nat, standard: real, now: real, key: Key)
    requires n <= |ops|
  {
    var last := LastTouch(ops, n, key);
    if last.None? || !last.value.Wrote? || Ttl(last.value.result, standard) <= 0.0 then key !in t
    else
      var item := ItemFor(last.value.result, last.value.principal, standard, last.value.at);
      if key in t then t[key] == item else now >= item.expiresAt
  }

  lemma {:induction false} RunTracks(ops: seq<Op>, n: nat, standard: real, now: real, key: Key)
    requires n <= |ops| && Ordered(ops, n, now)
    ensures Tracks(Run(ops, n, standard), ops, n, standard, now, key)
  {
    if n > 0 {
      var at := if ops[n - 1].Invalidated? then now else ops[n - 1].at;
      RunTracks(ops, n - 1, standard, at, key);
    }
  }

  /** A lookup returns `r` exactly when the last put or invalidation that touched
      the key was a put of `r` that has not run out and may be served to this
      principal, whatever was read in between. */
  lemma LookupIsHistory(ops: seq<Op>, key: Key, principal: Principal, standard: real, now: real)
    requires Ordered(ops, |ops|, now)
    ensures Lookup(Run(ops, |ops|, standard), key, principal, now) == HistoryAnswers(ops, key, principal, standard, now)
  {
    RunTracks(ops, |ops|, standard, now, key);
  }

  /** How long a result may be kept, in milliseconds: what it says, or the default
      when it does not say it in a number. */
  ghost predicate KeptFor(result: Json, standard: real, ms: real) {
    match Get(result, "ttlMs")
    case Some(Num(n)) => ms == n as real
    case Some(Dec(r)) => ms == r
    case _ => ms == standard
  }

  /** A lookup serves `r` exactly when the key was last touched by a put of `r`, the
      time it is kept for is positive and has not run out, and, where `r` is marked
      private, the reader is the principal it was put for. */
  lemma ServesExactly(ops: seq<Op>, key: Key, principal: Principal, standard: real, now: real, r: Json)
    requires Ordered(ops, |ops|, now)
    ensures Lookup(Run(ops, |ops|, standard), key, principal, now) == Some(r) <==>
      exists owner, at, ms ::
        && LastTouch(ops, |ops|, key) == Some(Wrote(key, owner, r, at))
        && KeptFor(r, standard, ms) && ms > 0.0 && now < at + ms / 1000.0
        && (Get(r, "cacheScope") == Some(Str("private")) ==> owner == principal)
  {
    LookupIsHistory(ops, key, principal, standard, now);
    LastTouchIsOurs(ops, |ops|, key);
    var last := LastTouch(ops, |ops|, key);
    if last.Some? && last.value.Wrote? {
      TtlIs(last.value.result, standard);
      if HistoryAnswers(ops, key, principal, standard, now) == Some(r) {
        assert KeptFor(r, standard, Ttl(r, standard));
      }
    }
  }

  lemma TtlIs(result: Json, standard: real)
    ensures forall ms :: KeptFor(result, standard, ms) <==> ms == Ttl(result, standard)
  {
  }

  lemma {:induction false} LastTouchIsOurs(ops: seq<Op>, n: nat, key: Key)
    requires n <= |ops|
    ensures var last := LastTouch(ops, n, key); last.Some? && last.value.Wrote? ==> last.value.key == key
  {
    if n > 0 && !Touches(ops[n - 1], key) {
      LastTouchIsOurs(ops, n - 1, key);
    }
  }

  function WithoutReads(ops: seq<Op>, n: nat): seq<Op>
    requires n <= |ops|
  {
    if n == 0 then []
    else if ops[n - 1].Read? then WithoutReads(ops, n - 1)
    else WithoutReads(ops, n - 1) + [ops[n - 1]]
  }

  lemma {:induction false} LastTouchLocal(a: seq<Op>, b: seq<Op>, n: nat, key: Key)
    requires n <= |a| && n <= |b| && a[..n] == b[..n]
    ensures LastTouch(a, n, key) == LastTouch(b, n, key)
  {
    if n > 0 {
      assert a[n - 1] == a[..n][n - 1] && b[n - 1] == b[..n][n - 1];
      assert a[..n - 1] == a[..n][..n - 1] && b[..n - 1] == b[..n][..n - 1];
      LastTouchLocal(a, b, n - 1, key);
    }
  }

  lemma {:induction false} OrderedLocal(a: seq<Op>, b: seq<Op>, n: nat, now: real)
    requires n <= |a| && n <= |b| && a[..n] == b[..n] && Ordered(a, n, now)
    ensures Ordered(b, n, now)
  {
    if n > 0 {
      assert a[n - 1] == a[..n][n - 1] && b[n - 1] == b[..n][n - 1];
      assert a[..n - 1] == a[..n][..n - 1] && b[..n - 1] == b[..n][..n - 1];
      OrderedLocal(a, b, n - 1, if a[n - 1].Invalidated? then now else a[n - 1].at);
    }
  }

  lemma {:induction false} OrderedLater(ops: seq<Op>, n: nat, now: real, later: real)
    requires n <= |ops| && Ordered(ops, n, now) && now <= later
    ensures Ordered(ops, n, later)
  {
    if n > 0 && ops[n - 1].Invalidated? {
      OrderedLater(ops, n - 1, now, later);
    }
  }

  lemma {:induction false} WithoutReadsSame(ops: seq<Op>, n: nat, now: real, key: Key)
    requires n <= |ops| && Ordered(ops, n, now)
    ensures var kept := WithoutReads(ops, n);
      LastTouch(kept, |kept|, key) == LastTouch(ops, n, key) && Ordered(kept, |kept|, now)
  {
    if n > 0 {
      var before := WithoutReads(ops, n - 1);
      var at := if ops[n - 1].Invalidated? then now else ops[n - 1].at;
      WithoutReadsSame(ops, n - 1, at, key);
      if ops[n - 1].Read? {
        OrderedLater(before, |before|, at, now);
      } else {
        var kept := before + [ops[n - 1]];
        assert kept[..|before|] == before[..|before|];
        LastTouchLocal(before, kept, |before|, key);
        OrderedLocal(before, kept, |before|, at);
      }
    }
  }

  /** Reads evict, but no later answer shows it. */
  lemma ReadsAreInvisible(ops: seq<Op>, key: Key, principal: Principal, standard: real, now: real)
    requires Ordered(ops, |ops|, now)
    ensures var kept := WithoutReads(ops, |ops|);
      Lookup(Run(ops, |ops|, standard), key, principal, now) == Lookup(Run(kept, |kept|, standard), key, principal, now)
  {
    var kept := WithoutReads(ops, |ops|);
    WithoutReadsSame(ops, |ops|, now, key);
    LookupIsHistory(ops, key, principal, standard, now);
    LookupIsHistory(kept, key, principal, standard, now);
  }

  /** If the clock goes back, an eviction shows: the entry is gone although it
      had not run out at the earlier time. */
  lemma ClockMustNotGoBack()
    ensures var ops := [Wrote(("b", "tools/list"), None, Null, 0.0), Read(("b", "tools/list"), 2.0)];
      && Lookup(Run(ops, 2, 1000.0), ("b", "tools/list"), None, 0.5) == None
      && HistoryAnswers(ops, ("b", "tools/list"), None, 1000.0, 0.5) == Some(Null)
  {
    var key: Key := ("b", "tools/list");
    var ops := [Wrote(key, None, Null, 0.0), Read(key, 2.0)];
    assert Run(ops, 0, 1000.0) == map[];
    assert key in Run(ops, 1, 1000.0) && Run(ops, 1, 1000.0)[key].expiresAt == 1.0;
    assert LastTouch(ops, 1, key) == Some(ops[0]);
    assert LastTouch(ops, 2, key) == Some(ops[0]);
  }
}
