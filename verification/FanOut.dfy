/** Which backends a list request asks, what it sends each of them, and what the
    page and the refusals owe to their answers: stated from the request, the
    configuration and the answers alone. */
module FanOut {
  import opened Prelude
  import opened JsonValue
  import opened Listing
  import Variants

  const VARIANT_KEY := "io.modelcontextprotocol/server-variant"

  /** The variant in force: the client's choice, else the first one configured. */
  ghost predicate InForce(cfg: Config, q: Query, variant: Option<string>) {
    match variant
    case None => q.variant.None? && cfg.variants == []
    case Some(v) => q.variant == Some(v) || (q.variant.None? && cfg.variants != [] && cfg.variants[0] == v)
  }

  /** The request's cursor lets it reach the backend: a composite cursor minted for
      the variant in force names it; any other cursor is for a lone backend. */
  ghost predicate CursorAdmits(cfg: Config, q: Query, id: string) {
    match Variants.ResolveCursor(cfg.wire, q.cursor)
    case Some((minted, cursors)) => InForce(cfg, q, minted) && id in cursors
    case None => q.cursor == Null || |cfg.ids| == 1
  }

  lemma EffectiveIsInForce(cfg: Config, q: Query, variant: Option<string>)
    ensures variant == Effective(cfg, q) <==> InForce(cfg, q, variant)
  {
  }

  lemma {:induction false} AskedUpTo(cfg: Config, env: Env, q: Query, n: nat, i: nat, params: Json)
    requires WellFormed(cfg, env) && n <= |cfg.ids|
    ensures (i, params) in Asked(cfg, env, q, n) <==> i < n && Chosen(cfg, env, q, i) && params == Params(cfg, q, i)
  {
    if n > 0 {
      AskedUpTo(cfg, env, q, n - 1, i, params);
    }
  }

  /** Each backend at most once, in the order of configuration. */
  ghost predicate InOrder(asked: seq<(nat, Json)>, n: nat) {
    && (forall a :: 0 <= a < |asked| ==> asked[a].0 < n)
    && (forall a, b :: 0 <= a < b < |asked| ==> asked[a].0 < asked[b].0)
  }

  lemma InOrderSnoc(asked: seq<(nat, Json)>, n: nat, params: Json)
    requires InOrder(asked, n)
    ensures InOrder(asked, n + 1) && InOrder(asked + [(n, params)], n + 1)
  {
  }

  lemma {:induction false} AskedInOrder(cfg: Config, env: Env, q: Query, n: nat)
    requires WellFormed(cfg, env) && n <= |cfg.ids|
    ensures InOrder(Asked(cfg, env, q, n), n)
  {
    if n > 0 {
      AskedInOrder(cfg, env, q, n - 1);
      var before := Asked(cfg, env, q, n - 1);
      if Chosen(cfg, env, q, n - 1) {
        InOrderSnoc(before, n - 1, Params(cfg, q, n - 1));
      } else {
        InOrderSnoc(before, n - 1, Null);
        assert before + [] == before;
      }
    }
  }

  /** A backend is asked, and then once and in the order of configuration, if and
      only if the cursor admits it, its breaker allows (where there are breakers)
      and its keywords match. */
  lemma AskedExactly(cfg: Config, env: Env, q: Query)
    requires WellFormed(cfg, env)
    ensures var asked := Fetches(cfg, env, q);
      && InOrder(asked, |cfg.ids|)
      && (forall i: nat :: (exists params :: (i, params) in asked) <==>
            && i < |cfg.ids| && CursorAdmits(cfg, q, cfg.ids[i])
            && (cfg.resilient ==> env.available[i]) && env.keywordOk(i))
  {
    AskedInOrder(cfg, env, q, |cfg.ids|);
    forall i: nat
      ensures (exists params :: (i, params) in Fetches(cfg, env, q)) <==>
            && i < |cfg.ids| && CursorAdmits(cfg, q, cfg.ids[i])
            && (cfg.resilient ==> env.available[i]) && env.keywordOk(i)
    {
      if i < |cfg.ids| {
        AskedOne(cfg, env, q, i);
      } else {
        forall params ensures (i, params) !in Fetches(cfg, env, q) {
          AskedUpTo(cfg, env, q, |cfg.ids|, i, params);
        }
      }
    }
  }

  lemma AskedOne(cfg: Config, env: Env, q: Query, i: nat)
    requires WellFormed(cfg, env) && i < |cfg.ids|
    ensures (exists params :: (i, params) in Fetches(cfg, env, q)) <==>
      CursorAdmits(cfg, q, cfg.ids[i]) && (cfg.resilient ==> env.available[i]) && env.keywordOk(i)
  {
    var resolved := Variants.ResolveCursor(cfg.wire, q.cursor);
    if resolved.Some? {
      EffectiveIsInForce(cfg, q, resolved.value.0);
    }
    if CursorAccepted(cfg, q) && Chosen(cfg, env, q, i) {
      AskedUpTo(cfg, env, q, |cfg.ids|, i, Params(cfg, q, i));
    } else {
      forall params ensures (i, params) !in Fetches(cfg, env, q) {
        AskedUpTo(cfg, env, q, |cfg.ids|, i, params);
      }
    }
  }

  /** The cursor that backend `i` is sent, if any: its own out of a composite
      cursor, or the client's as it stands when there is but one backend. */
  ghost predicate CarriesCursor(cfg: Config, q: Query, i: nat, sent: Option<Json>)
    requires i < |cfg.ids|
  {
    match Variants.ResolveCursor(cfg.wire, q.cursor)
    case Some((_, cursors)) => cfg.ids[i] in cursors && sent == Some(Str(cursors[cfg.ids[i]]))
    case None => sent == if q.cursor == Null then None else Some(q.cursor)
  }

  /** The variant in force travels in `_meta`, alone there; without one there is none. */
  ghost predicate CarriesVariant(cfg: Config, q: Query, sent: Option<Json>) {
    match sent
    case None => InForce(cfg, q, None)
    case Some(meta) => exists v :: InForce(cfg, q, Some(v)) && meta == Obj(map[VARIANT_KEY := Str(v)])
  }

  /** A request carries the client's filter when it is a non-empty object, the
      variant in force, the backend's cursor, and nothing else. */
  lemma RequestCarries(cfg: Config, env: Env, q: Query, i: nat, params: Json)
    requires WellFormed(cfg, env) && (i, params) in Fetches(cfg, env, q)
    ensures i < |cfg.ids| && params.Obj? && params.fields.Keys <= {"filter", "_meta", "cursor"}
    ensures Get(params, "filter") == if q.filter.Obj? && q.filter.fields != map[] then Some(q.filter) else None
    ensures CarriesVariant(cfg, q, Get(params, "_meta"))
    ensures CarriesCursor(cfg, q, i, Get(params, "cursor"))
  {
    AskedUpTo(cfg, env, q, |cfg.ids|, i, params);
    EffectiveIsInForce(cfg, q, Effective(cfg, q));
    BaseCarries(cfg, q);
  }

  lemma BaseCarries(cfg: Config, q: Query)
    ensures var base := Obj(BaseParams(cfg, q));
      && base.fields.Keys <= {"filter", "_meta"}
      && Get(base, "filter") == (if q.filter.Obj? && q.filter.fields != map[] then Some(q.filter) else None)
      && CarriesVariant(cfg, q, Get(base, "_meta"))
  {
    EffectiveIsInForce(cfg, q, Effective(cfg, q));
  }
}
