/** Which variants the proxy offers: read off the backends' own capabilities. */
module Composition {
  import opened Prelude
  import opened JsonValue
  import opened Variants

  /** The backend advertises these variants, and there are some. */
  ghost predicate Advertises(capabilities: Json, vs: seq<Json>) {
    var extension := Index(Index(capabilities, "extensions"), "io.modelcontextprotocol/server-variants");
    vs != [] && Index(extension, "availableVariants") == Arr(vs)
  }

  ghost predicate Names(vs: seq<Json>, id: string) {
    exists w :: w in vs && GetStr(w, "id") == Some(id)
  }

  /** Every backend that advertises variants advertises this one. */
  ghost predicate Common(caps: seq<Json>, v: Json) {
    && GetStr(v, "id").Some?
    && forall b, vs {:trigger Advertises(caps[b], vs)} ::
         0 <= b < |caps| && Advertises(caps[b], vs) ==> Names(vs, GetStr(v, "id").value)
  }

  /** Backend `b` is the first to advertise variants, and these are they. */
  ghost predicate First(caps: seq<Json>, b: nat, vs: seq<Json>) {
    && b < |caps| && Advertises(caps[b], vs)
    && forall c, ws {:trigger Advertises(caps[c], ws)} :: 0 <= c < b ==> !Advertises(caps[c], ws)
  }

  /** `out` is the entries of `vs` at these indices, in order. */
  ghost predicate Selects(vs: seq<Json>, js: seq<nat>, out: seq<Json>) {
    && Rising(js, |vs|) && |out| == |js|
    && forall k {:trigger js[k]} {:trigger out[k]} :: 0 <= k < |js| ==> out[k] == vs[js[k]]
  }

  lemma OffersIs(capabilities: Json, vs: seq<Json>)
    ensures Offers(capabilities) == Some(vs) <==> Advertises(capabilities, vs)
  {
  }

  lemma ListsIs(vs: seq<Json>, id: string)
    ensures Lists(vs, id) <==> Names(vs, id)
  {
    if i :| 0 <= i < |vs| && GetStr(vs[i], "id") == Some(id) {
      assert vs[i] in vs;
    }
    if w :| w in vs && GetStr(w, "id") == Some(id) {
      var i :| 0 <= i < |vs| && vs[i] == w;
    }
  }

  predicate Kept(vs: seq<Json>, ids: set<string>, j: nat) {
    j < |vs| && GetStr(vs[j], "id").Some? && GetStr(vs[j], "id").value in ids
  }

  /** The kept entries from `from` on. */
  lemma {:induction false} FilterSelects(vs: seq<Json>, ids: set<string>, from: nat) returns (js: seq<nat>)
    requires from <= |vs|
    ensures Selects(vs, js, Filter(vs[from..], ids))
    ensures forall j: nat :: j in js <==> from <= j && Kept(vs, ids, j)
    decreases |vs| - from
  {
    js := [];
    if from < |vs| {
      var rest := FilterSelects(vs, ids, from + 1);
      assert vs[from..][1..] == vs[from + 1..];
      js := rest;
      if Kept(vs, ids, from) {
        js := [from] + rest;
        FrontSelects(vs, from, rest, Filter(vs[from + 1..], ids));
      }
    }
  }

  lemma FrontSelects(vs: seq<Json>, from: nat, rest: seq<nat>, out: seq<Json>)
    requires from < |vs| && Selects(vs, rest, out) && forall j: nat :: j in rest ==> from < j
    ensures Selects(vs, [from] + rest, [vs[from]] + out)
  {
    forall k | 0 <= k < |rest| ensures from < rest[k] {
      assert rest[k] in rest;
    }
  }

  lemma {:induction false} FirstSupports(caps: seq<Json>) returns (b: nat)
    requires Supporting(caps) != []
    ensures b < |caps| && Offers(caps[b]) == Some(Supporting(caps)[0])
    ensures forall c :: 0 <= c < b ==> Offers(caps[c]).None?
  {
    if Offers(caps[0]).Some? {
      b := 0;
    } else {
      b := FirstSupports(caps[1..]);
      assert forall c :: 0 < c < |caps| ==> caps[c] == caps[1..][c - 1];
      b := b + 1;
    }
  }

  lemma CommonIs(caps: seq<Json>, common: set<string>, v: Json)
    requires forall id :: id in common <==> OfferedByAll(Supporting(caps), id)
    ensures (GetStr(v, "id").Some? && GetStr(v, "id").value in common) <==> Common(caps, v)
  {
    if GetStr(v, "id").Some? {
      var id, supporting := GetStr(v, "id").value, Supporting(caps);
      forall vs ensures vs in supporting <==> exists b :: 0 <= b < |caps| && Advertises(caps[b], vs) {
        SupportingIs(caps, vs);
        forall b | 0 <= b < |caps| ensures Offers(caps[b]) == Some(vs) <==> Advertises(caps[b], vs) {
          OffersIs(caps[b], vs);
        }
      }
      forall vs ensures Lists(vs, id) <==> Names(vs, id) {
        ListsIs(vs, id);
      }
      if OfferedByAll(supporting, id) {
        forall b, vs | 0 <= b < |caps| && Advertises(caps[b], vs) ensures Names(vs, id) {
          assert vs in supporting;
          var k :| 0 <= k < |supporting| && supporting[k] == vs;
        }
      }
      if Common(caps, v) {
        forall k | 0 <= k < |supporting| ensures Lists(supporting[k], id) {
          assert supporting[k] in supporting;
        }
      }
    }
  }

  /** Nothing is offered when no backend advertises variants; otherwise exactly the
      entries of the first one that does whose id every other one advertises too,
      in its order and as it describes them. */
  lemma OfferedExactly(caps: seq<Json>, out: seq<Json>, common: set<string>)
      returns (b: nat, vs: seq<Json>, js: seq<nat>)
    requires Supporting(caps) == [] ==> out == []
    requires Supporting(caps) != [] ==> out == Filter(Supporting(caps)[0], common)
    requires Supporting(caps) != [] ==> forall id :: id in common <==> OfferedByAll(Supporting(caps), id)
    ensures if forall c, ws {:trigger Advertises(caps[c], ws)} :: 0 <= c < |caps| ==> !Advertises(caps[c], ws)
            then out == []
            else
              && First(caps, b, vs) && Selects(vs, js, out)
              && forall j: nat :: j in js <==> j < |vs| && Common(caps, vs[j])
  {
    b, vs, js := 0, [], [];
    if Supporting(caps) == [] {
      forall c, ws | 0 <= c < |caps| ensures !Advertises(caps[c], ws) {
        SupportingIs(caps, ws);
        OffersIs(caps[c], ws);
      }
    } else {
      b := FirstSupports(caps);
      vs := Supporting(caps)[0];
      OffersIs(caps[b], vs);
      forall c, ws | 0 <= c < b ensures !Advertises(caps[c], ws) {
        OffersIs(caps[c], ws);
      }
      js := FilterSelects(vs, common, 0);
      assert vs[0..] == vs;
      forall j: nat | j < |vs| ensures Kept(vs, common, j) <==> Common(caps, vs[j]) {
        CommonIs(caps, common, vs[j]);
      }
    }
  }
}
