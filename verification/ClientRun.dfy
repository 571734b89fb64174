/** A client's whole pagination run: what it sends, what the backends are asked
    for, and what it has received when it stops. */
module ClientRun {
  import opened Prelude
  import opened JsonValue
  import opened Listing
  import opened Drain

  /** The cursors sent by a client that follows `nextCursor`. */
  ghost function Sent(ask: Json -> Reply, cursor: Json, fuel: nat): seq<Json>
    decreases fuel
  {
    if fuel == 0 then []
    else
      var r := ask(cursor);
      [cursor] + (if r.Page? && r.next.Some? then Sent(ask, Str(r.next.value), fuel - 1) else [])
  }

  /** `sent` is cursors `k` up to the last. */
  ghost predicate CursorsFrom(sent: seq<Json>, cursor: nat -> Json, k: nat, n: nat) {
    |sent| == n - k && forall j: nat {:trigger sent[j]} :: j < |sent| ==> sent[j] == cursor(k + j)
  }

  lemma CursorsCons(rest: seq<Json>, cursor: nat -> Json, k: nat, n: nat)
    requires k < n && CursorsFrom(rest, cursor, k + 1, n)
    ensures CursorsFrom([cursor(k)] + rest, cursor, k, n)
  {
    var sent := [cursor(k)] + rest;
    forall j: nat | j < |sent| ensures sent[j] == cursor(k + j) {
      if j > 0 { assert sent[j] == rest[j - 1]; }
    }
  }

  lemma {:induction false} SentFrom(
    ask: Json -> Reply, cursor: nat -> Json, page: nat -> Reply, n: nat, k: nat, fuel: nat)
    requires k < n && fuel >= n - k
    requires StepsAll(ask, cursor, page, n)
    ensures CursorsFrom(Sent(ask, cursor(k), fuel), cursor, k, n)
    decreases fuel
  {
    assert StepsTo(ask, cursor, page, n, k);
    if k + 1 < n {
      SentFrom(ask, cursor, page, n, k + 1, fuel - 1);
      CursorsCons(Sent(ask, cursor(k + 1), fuel - 1), cursor, k, n);
    }
  }

  function ReplyItems(rs: seq<Reply>): nat -> seq<Json> {
    (k: nat) => if k < |rs| && rs[k].Page? then rs[k].items else []
  }

  /** Everything received, in order. */
  function Haul(rs: seq<Reply>): seq<Json> {
    Cat(ReplyItems(rs), |rs|)
  }

  lemma HaulIsReceived(cfg: Config, env: Env, q: Query, chains: seq<Chain>, rs: seq<Reply>)
    requires |chains| == |cfg.ids|
    requires forall k: nat {:trigger rs[k]} :: k < |rs| ==> rs[k] == RoundReply(cfg, env, q, chains, k)
    ensures Haul(rs) == Received(cfg, env, q, chains, |rs|)
  {
    CatSame(ReplyItems(rs), ItemsByRound(cfg, env, q, chains), |rs|);
  }

  // ---- What a backend is asked for ----

  /** The parameters sent to backend `i`, in order. */
  function To(i: nat, asked: seq<(nat, Json)>): seq<Json> {
    if asked == [] then []
    else To(i, asked[..|asked| - 1]) + if asked[|asked| - 1].0 == i then [asked[|asked| - 1].1] else []
  }

  lemma ToSnoc(i: nat, asked: seq<(nat, Json)>, j: nat, params: Json)
    ensures To(i, asked + [(j, params)]) == To(i, asked) + if j == i then [params] else []
  {
    assert (asked + [(j, params)])[..|asked|] == asked;
  }

  ghost predicate ChainsFit(chains: seq<Chain>) {
    forall i :: 0 <= i < |chains| ==> |chains[i].pages| == |chains[i].cursors| + 1
  }

  lemma ToMaybe(i: nat, asked: seq<(nat, Json)>, j: nat, params: Json, more: bool)
    ensures To(i, asked + if more then [(j, params)] else []) == To(i, asked) + if more && j == i then [params] else []
  {
    if more { ToSnoc(i, asked, j, params); } else { assert asked + [] == asked; }
  }

  lemma RoundAskedLast(cfg: Config, q: Query, chains: seq<Chain>, k: nat, n: nat)
    requires n < |cfg.ids| == |chains| && ChainsFit(chains)
    ensures RoundAsked(cfg, q, chains, k, n + 1) == RoundAsked(cfg, q, chains, k, n) +
      if Active(chains, n, k) then [(n, ParamsWith(cfg, q, CursorAt(chains[n], k)))] else []
  {
  }

  function PageOf(cfg: Config, q: Query, chains: seq<Chain>, k: nat, i: nat): seq<Json>
    requires i < |chains| && ChainsFit(chains)
  {
    if Active(chains, i, k) then [ParamsWith(cfg, q, CursorAt(chains[i], k))] else []
  }

  /** Among the first `n` backends, `i` is asked for its page `k` if it has one. */
  ghost predicate FetchOk(cfg: Config, q: Query, chains: seq<Chain>, k: nat, n: nat, i: nat)
    requires n <= |cfg.ids| == |chains| && i < |chains| && ChainsFit(chains)
  {
    To(i, RoundAsked(cfg, q, chains, k, n)) == if i < n then PageOf(cfg, q, chains, k, i) else []
  }

  lemma FetchNone(cfg: Config, q: Query, chains: seq<Chain>, k: nat, i: nat)
    requires |cfg.ids| == |chains| && i < |chains| && ChainsFit(chains)
    ensures FetchOk(cfg, q, chains, k, 0, i)
  {
  }

  lemma FetchSnoc(cfg: Config, q: Query, chains: seq<Chain>, k: nat, n: nat, i: nat)
    requires n < |cfg.ids| == |chains| && i < |chains| && ChainsFit(chains) && FetchOk(cfg, q, chains, k, n, i)
    ensures FetchOk(cfg, q, chains, k, n + 1, i)
  {
    RoundAskedLast(cfg, q, chains, k, n);
    var active := Active(chains, n, k);
    var params := if active then ParamsWith(cfg, q, CursorAt(chains[n], k)) else Null;
    ToMaybe(i, RoundAsked(cfg, q, chains, k, n), n, params, active);
  }

  ghost function FetchUpTo(cfg: Config, q: Query, chains: seq<Chain>, k: nat, i: nat): nat -> bool
    requires i < |chains| && ChainsFit(chains)
  {
    (n: nat) =>
      n <= |cfg.ids| == |chains| && i < |chains| && ChainsFit(chains) && FetchOk(cfg, q, chains, k, n, i)
  }

  lemma FetchCarries(cfg: Config, q: Query, chains: seq<Chain>, k: nat, n: nat, i: nat)
    requires n < |cfg.ids| == |chains| && i < |chains| && ChainsFit(chains)
    ensures Carried(FetchUpTo(cfg, q, chains, k, i), n)
  {
    if FetchOk(cfg, q, chains, k, n, i) { FetchSnoc(cfg, q, chains, k, n, i); }
  }

  lemma RoundFetch(cfg: Config, q: Query, chains: seq<Chain>, k: nat, i: nat)
    requires |cfg.ids| == |chains| && i < |chains| && ChainsFit(chains)
    ensures To(i, RoundAsked(cfg, q, chains, k, |cfg.ids|)) == PageOf(cfg, q, chains, k, i)
  {
    var p := FetchUpTo(cfg, q, chains, k, i);
    FetchNone(cfg, q, chains, k, i);
    forall n: nat | n < |cfg.ids| ensures Carried(p, n) {
      FetchCarries(cfg, q, chains, k, n, i);
    }
    Upward(p, |cfg.ids|);
  }

  /** What each request of the run makes the router ask backend `i`. */
  function Fetches(cfg: Config, env: Env, q: Query, sent: seq<Json>, i: nat): nat -> seq<Json>
    requires WellFormed(cfg, env)
  {
    (k: nat) =>
      if k < |sent| && WellFormed(cfg, env) then To(i, Asked(cfg, env, q.(cursor := sent[k]), |cfg.ids|)) else []
  }

  /** The requests for the first `n` pages of a chain, one each. */
  function PageRequests(cfg: Config, q: Query, c: Chain, n: nat): seq<Json>
    requires n <= |c.cursors| + 1
  {
    if n == 0 then [] else PageRequests(cfg, q, c, n - 1) + [ParamsWith(cfg, q, CursorAt(c, n - 1))]
  }

  function PageRequest(cfg: Config, q: Query, c: Chain): nat -> seq<Json> {
    (k: nat) => if k <= |c.cursors| then [ParamsWith(cfg, q, CursorAt(c, k))] else []
  }

  lemma {:induction false} PageRequestsAre(cfg: Config, q: Query, c: Chain, n: nat)
    ensures Cat(PageRequest(cfg, q, c), n) == PageRequests(cfg, q, c, if n <= |c.cursors| then n else |c.cursors| + 1)
  {
    if n > 0 { PageRequestsAre(cfg, q, c, n - 1); }
  }

  lemma FetchesAre(cfg: Config, env: Env, q: Query, chains: seq<Chain>, sent: seq<Json>, i: nat)
    requires World(cfg, env, q, chains) && i < |chains|
    requires CursorsFrom(sent, Cursors(cfg, q, chains), 0, Longest(chains))
    ensures Cat(Fetches(cfg, env, q, sent, i), |sent|) == Cat(PageRequest(cfg, q, chains[i]), |sent|)
  {
    var f, g := Fetches(cfg, env, q, sent, i), PageRequest(cfg, q, chains[i]);
    forall k: nat | k < |sent| ensures f(k) == g(k) {
      assert sent[k] == Cursors(cfg, q, chains)(0 + k);
      FetchIs(cfg, env, q, chains, k, i);
    }
    CatSame(f, g, |sent|);
  }

  lemma FetchIs(cfg: Config, env: Env, q: Query, chains: seq<Chain>, k: nat, i: nat)
    requires World(cfg, env, q, chains) && i < |chains|
    ensures To(i, Asked(cfg, env, AtRound(cfg, q, chains, k), |cfg.ids|)) == PageRequest(cfg, q, chains[i])(k)
  {
    ChainsOk(cfg, env, q, chains);
    RoundAsksAll(cfg, env, q, chains, k, |cfg.ids|);
    RoundFetch(cfg, q, chains, k, i);
  }

  lemma RunReceives(cfg: Config, env: Env, q: Query, chains: seq<Chain>, rs: seq<Reply>, i: nat)
    requires World(cfg, env, q, chains) && Nameable(cfg, q, chains) && i < |cfg.ids|
    requires Pages(rs, Replies(cfg, env, q, chains), 0, Longest(chains))
    ensures OwnedBy(q, cfg.ids[i], Haul(rs)) == Rows(cfg, env, q, cfg.ids[i], AllItems(q, chains[i], |chains[i].pages|))
  {
    PagesAreReplies(cfg, env, q, chains, rs);
    HaulIsReceived(cfg, env, q, chains, rs);
    DrainIsComplete(cfg, env, q, chains, i);
  }

  lemma RunFetches(cfg: Config, env: Env, q: Query, chains: seq<Chain>, sent: seq<Json>, i: nat)
    requires World(cfg, env, q, chains) && i < |cfg.ids|
    requires CursorsFrom(sent, Cursors(cfg, q, chains), 0, Longest(chains))
    ensures ChainOk(chains[i])
    ensures Cat(Fetches(cfg, env, q, sent, i), |sent|) == PageRequests(cfg, q, chains[i], |chains[i].pages|)
  {
    ChainsOk(cfg, env, q, chains);
    LongestIs(chains);
    FetchesAre(cfg, env, q, chains, sent, i);
    PageRequestsAre(cfg, q, chains[i], Longest(chains));
  }

  lemma RunShape(cfg: Config, env: Env, q: Query, chains: seq<Chain>, fuel: nat)
    requires World(cfg, env, q, chains) && Plain(cfg, q) && fuel >= Longest(chains)
    ensures var (rs, sent) := (Follow(Ask(cfg, env, q), Null, fuel), Sent(Ask(cfg, env, q), Null, fuel));
      && Pages(rs, Replies(cfg, env, q, chains), 0, Longest(chains))
      && CursorsFrom(sent, Cursors(cfg, q, chains), 0, Longest(chains))
  {
    LongestIs(chains);
    RoundSteps(cfg, env, q, chains);
    var ask, cursor, page := Ask(cfg, env, q), Cursors(cfg, q, chains), Replies(cfg, env, q, chains);
    assert cursor(0) == Null;
    FollowFrom(ask, cursor, page, Longest(chains), 0, fuel);
    SentFrom(ask, cursor, page, Longest(chains), 0, fuel);
  }

  /** The drain, as the client lives it. Following `nextCursor` until it is
      absent, whatever patience it has beyond that, the client sends exactly as
      many requests as the longest backend has pages; over the whole run each
      backend is asked once for each of its pages, in order, and for nothing
      else; and what the client received from each backend is that backend's
      whole list, labelled, in its own order. */
  lemma DrainRun(cfg: Config, env: Env, q: Query, chains: seq<Chain>, fuel: nat, i: nat)
    requires World(cfg, env, q, chains) && Plain(cfg, q) && Nameable(cfg, q, chains)
    requires fuel >= Longest(chains) && i < |cfg.ids|
    ensures ChainOk(chains[i])
    ensures var (rs, sent) := (Follow(Ask(cfg, env, q), Null, fuel), Sent(Ask(cfg, env, q), Null, fuel));
      && |rs| == |sent| == Longest(chains)
      && Cat(Fetches(cfg, env, q, sent, i), |sent|) == PageRequests(cfg, q, chains[i], |chains[i].pages|)
      && OwnedBy(q, cfg.ids[i], Haul(rs)) == Rows(cfg, env, q, cfg.ids[i], AllItems(q, chains[i], |chains[i].pages|))
  {
    RunShape(cfg, env, q, chains, fuel);
    RunFetches(cfg, env, q, chains, Sent(Ask(cfg, env, q), Null, fuel), i);
    RunReceives(cfg, env, q, chains, Follow(Ask(cfg, env, q), Null, fuel), i);
  }
}
