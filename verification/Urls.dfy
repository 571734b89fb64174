/** The URL of a converted REST call, read back: which arguments it carries, where,
    and how their bytes are written. */
module Urls {
  import opened Prelude
  import opened JsonValue
  import opened Rest

  // ---- The written form ----

  /** Letters, digits and four marks, section 2.3 of RFC 3986. */
  predicate Kept(b: byte) {
    || 65 <= b <= 90 || 97 <= b <= 122 || 48 <= b <= 57
    || b == 45 || b == 46 || b == 95 || b == 126
  }

  predicate UpperDigit(b: byte) {
    48 <= b <= 57 || 65 <= b <= 70
  }

  /** Every percent sign is followed by two digits, in upper case where letters. */
  ghost predicate UpperEscapes(t: Text) {
    forall i :: 0 <= i < |t| && t[i] == 37 ==> i + 2 < |t| && UpperDigit(t[i + 1]) && UpperDigit(t[i + 2])
  }

  lemma UpperConcat(a: Text, b: Text)
    requires UpperEscapes(a) && UpperEscapes(b)
    ensures UpperEscapes(a + b)
  {
  }

  lemma EscapeIsUpper(b: byte)
    ensures UpperEscapes(EncodeByte(b))
  {
  }

  /** A text of kept bytes is written as it is; every other byte becomes an escape,
      and escapes are in upper case. */
  lemma {:induction false} EncodedForm(v: Text)
    ensures UpperEscapes(PercentEncode(v))
    ensures PercentEncode(v) == v <==> forall i :: 0 <= i < |v| ==> Kept(v[i])
    ensures |PercentEncode(v)| >= |v|
  {
    if v != [] {
      EncodedForm(v[1..]);
      EscapeIsUpper(v[0]);
      UpperConcat(EncodeByte(v[0]), PercentEncode(v[1..]));
      assert v == [v[0]] + v[1..];
      KeptFirst(v);
    }
  }

  lemma KeptFirst(v: Text)
    requires v != []
    ensures (forall i :: 0 <= i < |v| ==> Kept(v[i])) <==>
      Kept(v[0]) && forall i :: 0 <= i < |v[1..]| ==> Kept(v[1..][i])
  {
    if Kept(v[0]) && forall i :: 0 <= i < |v[1..]| ==> Kept(v[1..][i]) {
      forall i | 0 <= i < |v| ensures Kept(v[i]) {
        if i > 0 { assert v[i] == v[1..][i - 1]; }
      }
    }
  }

  // ---- The arguments carried ----

  function NameIn(parameter: Json): string {
    if GetStr(parameter, "name").Some? then GetStr(parameter, "name").value else ""
  }

  /** The parameter belongs in `place`, and the call gives it a value. */
  ghost predicate Given(parameter: Json, args: Json, place: string) {
    && GetStr(parameter, "in") == Some(place)
    && Get(args, NameIn(parameter)).Some? && Get(args, NameIn(parameter)).value != Null
  }

  /** A string argument stands for itself, any other for its JSON text. */
  ghost predicate GivenAs(env: Env, parameter: Json, args: Json, p: Pair) {
    && p.0 == env.utf8(NameIn(parameter)) && Get(args, NameIn(parameter)).Some?
    && var value := Get(args, NameIn(parameter)).value;
      p.1 == env.utf8(if value.Str? then value.s else env.show(value))
  }

  /** The pairs stand for the parameters given in `place`, in declared order. */
  ghost predicate Carried(env: Env, ps: seq<Json>, args: Json, place: string, n: nat, js: seq<nat>, pairs: seq<Pair>)
    requires n <= |ps|
  {
    && Rising(js, n) && |pairs| == |js|
    && (forall j: nat :: j in js <==> j < n && Given(ps[j], args, place))
    && (forall k {:trigger pairs[k]} {:trigger js[k]} :: 0 <= k < |js| ==>
          js[k] < |ps| && GivenAs(env, ps[js[k]], args, pairs[k]))
  }

  lemma CarriedSkip(env: Env, ps: seq<Json>, args: Json, place: string, n: nat, js: seq<nat>, pairs: seq<Pair>)
    requires n < |ps| && Carried(env, ps, args, place, n, js, pairs) && !Given(ps[n], args, place)
    ensures Carried(env, ps, args, place, n + 1, js, pairs)
  {
  }

  lemma CarriedTake(env: Env, ps: seq<Json>, args: Json, place: string, n: nat, js: seq<nat>, pairs: seq<Pair>, p: Pair)
    requires n < |ps| && Carried(env, ps, args, place, n, js, pairs)
    requires Given(ps[n], args, place) && GivenAs(env, ps[n], args, p)
    ensures Carried(env, ps, args, place, n + 1, js + [n], pairs + [p])
  {
    RisingSnoc(js, n);
    forall j: nat ensures j in js + [n] <==> j < n + 1 && Given(ps[j], args, place) {
      InSnoc(js, n, j);
    }
  }

  lemma ArgumentIs(env: Env, parameter: Json, args: Json, place: string)
    ensures Given(parameter, args, place) <==>
      Argument(env, parameter, args).Some? && GetStr(parameter, "in") == Some(place)
    ensures Argument(env, parameter, args).Some? ==> GivenAs(env, parameter, args, Argument(env, parameter, args).value)
  {
  }

  lemma CarriedNext(env: Env, ps: seq<Json>, args: Json, place: string, n: nat, js: seq<nat>) returns (js': seq<nat>)
    requires n < |ps| && Carried(env, ps, args, place, n, js, PairsIn(env, ps, args, place, n))
    ensures Carried(env, ps, args, place, n + 1, js', PairsIn(env, ps, args, place, n + 1))
  {
    PairsNext(env, ps, args, place, n);
    ArgumentIs(env, ps[n], args, place);
    var before := PairsIn(env, ps, args, place, n);
    if Given(ps[n], args, place) {
      CarriedTake(env, ps, args, place, n, js, before, Argument(env, ps[n], args).value);
      js' := js + [n];
    } else {
      CarriedSkip(env, ps, args, place, n, js, before);
      js' := js;
    }
  }

  lemma CarriedNone(env: Env, ps: seq<Json>, args: Json, place: string)
    ensures Carried(env, ps, args, place, 0, [], PairsIn(env, ps, args, place, 0))
  {
  }

  /** The pairs collected for a place are exactly the parameters that belong there
      and have a non-null argument, each once, in declared order. */
  lemma {:induction false} PairsCarry(env: Env, ps: seq<Json>, args: Json, place: string, n: nat) returns (js: seq<nat>)
    requires n <= |ps|
    ensures Carried(env, ps, args, place, n, js, PairsIn(env, ps, args, place, n))
  {
    if n == 0 {
      CarriedNone(env, ps, args, place);
      js := [];
    } else {
      js := PairsCarry(env, ps, args, place, n - 1);
      js := CarriedNext(env, ps, args, place, n - 1, js);
    }
  }

  // ---- The URL ----

  /** `query` is empty when there is no pair, and otherwise a question mark and
      fields from which exactly these pairs are read back. */
  ghost predicate ReadsAs(query: Text, pairs: seq<Pair>) {
    if pairs == [] then query == []
    else
      && query != [] && query[0] == 63
      && var fields := SplitOn(38, query[1..]);
        |fields| == |pairs| && forall i :: 0 <= i < |pairs| ==> ReadPair(fields[i]) == Some(pairs[i])
  }

  lemma QueryReads(pairs: seq<Pair>)
    ensures ReadsAs(QueryText(pairs), pairs)
  {
    if pairs != [] {
      QueryIsRead(pairs);
      assert QueryText(pairs)[1..] == JoinWith(AMP, PairTexts(pairs));
    }
  }

  /** The URL is the base, the path with its placeholders replaced by the arguments
      given for the path, one after another in declared order, and a query from
      which the arguments given for the query are read back in declared order. */
  lemma UrlCarries(env: Env, base: Text, op: Json, args: Json)
      returns (path: Text, query: Text, inPath: seq<nat>, pathPairs: seq<Pair>, inQuery: seq<nat>,
        queryPairs: seq<Pair>)
    ensures Url(env, base, op, args) == base + path + query
    ensures var ps := if GetArr(op, "parameters").Some? then GetArr(op, "parameters").value else [];
      && Carried(env, ps, args, "path", |ps|, inPath, pathPairs)
      && Carried(env, ps, args, "query", |ps|, inQuery, queryPairs)
    ensures path == Sequential(env.utf8(if GetStr(op, "path").Some? then GetStr(op, "path").value else ""),
                               pathPairs, |pathPairs|)
    ensures ReadsAs(query, queryPairs)
  {
    var ps := ParametersOf(op);
    inPath := PairsCarry(env, ps, args, "path", |ps|);
    inQuery := PairsCarry(env, ps, args, "query", |ps|);
    pathPairs, queryPairs := PairsIn(env, ps, args, "path", |ps|), PairsIn(env, ps, args, "query", |ps|);
    path, query := Sequential(PathOf(env, op), pathPairs, |pathPairs|), QueryText(queryPairs);
    QueryReads(queryPairs);
  }
}
