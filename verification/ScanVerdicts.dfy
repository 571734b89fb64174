/** What a scan sends, what each answer does, and what the caller gets: stated
    from the message's inline payloads and the answers' own fields. */
module ScanVerdicts {
  import opened Prelude
  import opened JsonValue
  import opened JsonPath
  import opened Content
  import opened Payloads
  import opened Scanner
  import Filters
  import opened ChainVerdicts
  import Base64
  import Hex

  // ---- What is sent ----

  /** The raw bytes of a payload. */
  function RawBytes(env: Env, carried: Carried): seq<byte> {
    match carried
    case Words(s) => env.utf8(s)
    case Octets(b) => b
  }

  /** Block `k` describes an inline payload of the message with these raw bytes. */
  ghost predicate Sends(env: Env, message: Json, k: nat, bytes: seq<byte>) {
    exists list, i, tail, tag, carried {:trigger Carries(message, list, i, tail, tag, carried)} ::
      && Carries(message, list, i, tail, tag, carried) && k < |Blocks(message)|
      && Describes(Blocks(message)[k], [Key("result"), Key(list), Elem(i)] + tail, tag, carried)
      && bytes == RawBytes(env, carried)
  }

  lemma DescribedIsSent(env: Env, b: Block, path: Path, tag: Tag, carried: Carried)
    requires Describes(b, path, tag, carried)
    ensures Payload(env, b) == Some(RawBytes(env, carried)) && HasPayload(b)
  {
    if carried.Octets? {
      Hex.HexRoundTrip(carried.b);
    }
  }

  /** The bridge is sent the raw bytes of each inline payload, and nothing else. */
  lemma SentExactly(env: Env, message: Json, k: nat, bytes: seq<byte>)
    ensures (k < |Blocks(message)| && Payload(env, Blocks(message)[k]) == Some(bytes)) <==>
      Sends(env, message, k, bytes)
  {
    if k < |Blocks(message)| && Payload(env, Blocks(message)[k]) == Some(bytes) {
      var list, i, tail, tag, carried := ListedIsPayload(message, k);
      DescribedIsSent(env, Blocks(message)[k], [Key("result"), Key(list), Elem(i)] + tail, tag, carried);
    }
    if Sends(env, message, k, bytes) {
      var list, i, tail, tag, carried :| Carries(message, list, i, tail, tag, carried) && k < |Blocks(message)|
        && Describes(Blocks(message)[k], [Key("result"), Key(list), Elem(i)] + tail, tag, carried)
        && bytes == RawBytes(env, carried);
      DescribedIsSent(env, Blocks(message)[k], [Key("result"), Key(list), Elem(i)] + tail, tag, carried);
    }
  }

  // ---- When it blocks, and with what ----

  ghost predicate Refuses(verdict: Json) {
    GetStr(verdict, "kind") == Some("deny") || GetStr(verdict, "kind") == Some("quarantine")
  }

  /** Block `k` was sent and the answer refuses it. */
  ghost predicate RefusedAt(env: Env, message: Json, k: nat) {
    exists bytes {:trigger Sends(env, message, k, bytes)} ::
      Sends(env, message, k, bytes) && Refuses(env.scan(k, bytes))
  }

  lemma StopIsRefusal(verdict: Json)
    ensures Filters.Stops(verdict) <==> Refuses(verdict)
  {
  }

  lemma BlockedIs(request: Json, verdict: Json)
    ensures RefusedWith(Filters.Blocked(request, verdict), request, Some(verdict))
  {
  }

  lemma RefusedExactly(env: Env, message: Json, k: nat)
    requires k < |Blocks(message)|
    ensures RefusedAt(env, message, k) <==> Filters.Stops(Answer(env, Blocks(message), k))
  {
    var payload := Payload(env, Blocks(message)[k]);
    if payload.Some? {
      SentExactly(env, message, k, payload.value);
      StopIsRefusal(env.scan(k, payload.value));
    }
    if bytes :| Sends(env, message, k, bytes) && Refuses(env.scan(k, bytes)) {
      SentExactly(env, message, k, bytes);
      StopIsRefusal(env.scan(k, bytes));
    }
  }

  lemma RefusalIsListed(env: Env, message: Json, k: nat)
    requires RefusedAt(env, message, k)
    ensures k < |Blocks(message)|
  {
  }

  /** A scan forwards when no answer refuses; otherwise it blocks with the answer
      to the first block that was refused, whatever comes after it. */
  lemma FirstRefusalDecides(env: Env, message: Json)
    ensures if forall k {:trigger RefusedAt(env, message, k)} :: !RefusedAt(env, message, k) then
              Get(Scan(env, message), "action") == Some(Str("forward")) && Get(Scan(env, message), "message").Some?
            else exists k: nat, bytes {:trigger Sends(env, message, k, bytes)} ::
              && Sends(env, message, k, bytes) && Refuses(env.scan(k, bytes))
              && (forall j: nat {:trigger RefusedAt(env, message, j)} :: j < k ==> !RefusedAt(env, message, j))
              && RefusedWith(Scan(env, message), message, Some(env.scan(k, bytes)))
  {
    var bs := Blocks(message);
    ScanBlocksExactly(env, message);
    forall k: nat ensures RefusedAt(env, message, k) <==> k < |bs| && Filters.Stops(Answer(env, bs, k)) {
      if k < |bs| {
        RefusedExactly(env, message, k);
      } else if RefusedAt(env, message, k) {
        RefusalIsListed(env, message, k);
      }
    }
    if k: nat :| RefusedAt(env, message, k) {
      var first := FirstRefusal(env, message, k);
      var bytes := Payload(env, bs[first]).value;
      SentExactly(env, message, first, bytes);
      BlockedIs(message, Answer(env, bs, first));
      assert FirstStop(env, bs, first);
      StopIsRefusal(Answer(env, bs, first));
    } else {
      ForwardsIfGoing(env, message);
    }
  }

  lemma ForwardsIfGoing(env: Env, message: Json)
    requires Get(Scan(env, message), "message").Some?
    ensures Get(Scan(env, message), "action") == Some(Str("forward"))
  {
    DoneIsBlock(env, message, Blocks(message), |Blocks(message)|);
  }

  lemma {:induction false} FirstRefusal(env: Env, message: Json, k: nat) returns (first: nat)
    requires k < |Blocks(message)| && Filters.Stops(Answer(env, Blocks(message), k))
    ensures first <= k && Filters.Stops(Answer(env, Blocks(message), first))
    ensures forall j: nat :: j < first ==> !Filters.Stops(Answer(env, Blocks(message), j))
  {
    if j: nat :| j < k && Filters.Stops(Answer(env, Blocks(message), j)) {
      first := FirstRefusal(env, message, j);
    } else {
      first := k;
    }
  }

  // ---- What a forwarding scan changes ----

  /** Block `k` was sent and the answer mutates it to what `hex` spells. */
  ghost predicate MutatedTo(env: Env, message: Json, k: nat, hex: string) {
    exists bytes {:trigger Sends(env, message, k, bytes)} ::
      Sends(env, message, k, bytes) && Mutates(env.scan(k, bytes), hex)
  }

  ghost predicate Mutates(verdict: Json, hex: string) {
    GetStr(verdict, "kind") == Some("mutate") && GetStr(verdict, "bytes") == Some(hex)
  }

  lemma MutatedExactly(env: Env, message: Json, k: nat, hex: string)
    requires k < |Blocks(message)|
    ensures MutatedTo(env, message, k, hex) <==>
      Payload(env, Blocks(message)[k]).Some? && NewBytes(Answer(env, Blocks(message), k)) == Some(hex)
  {
    var payload := Payload(env, Blocks(message)[k]);
    if payload.Some? {
      SentExactly(env, message, k, payload.value);
    }
    if bytes :| Sends(env, message, k, bytes) && Mutates(env.scan(k, bytes), hex) {
      SentExactly(env, message, k, bytes);
    }
  }

  /** After a scan that forwards, block `k` reads as the mutation asked when there
      was one, and as before otherwise. */
  lemma BlocksAfter(env: Env, message: Json, k: nat)
    requires k < |Blocks(message)| && forall j {:trigger RefusedAt(env, message, j)} :: !RefusedAt(env, message, j)
    ensures Get(Scan(env, message), "message").Some?
    ensures var (b, after) := (Blocks(message)[k], Blocks(Index(Scan(env, message), "message")));
      && |after| == |Blocks(message)|
      && (forall hex :: MutatedTo(env, message, k, hex) ==>
            after[k] == if b.bytes.Str? then b.(bytes := Str(Hex.ToHex(Hex.Lenient(hex))))
                        else b.(text := Str(env.lossy(Hex.Lenient(hex)))))
      && ((forall hex {:trigger MutatedTo(env, message, k, hex)} :: !MutatedTo(env, message, k, hex)) ==> after[k] == b)
  {
    var bs := Blocks(message);
    forall j | 0 <= j < |bs| ensures !Filters.Stops(Answer(env, bs, j)) {
      RefusedExactly(env, message, j);
    }
    ScanFrame(env, message);
    assert Blocks(Index(Scan(env, message), "message")) == Upto(env, bs, |bs|);
    forall hex ensures MutatedTo(env, message, k, hex) <==>
      Payload(env, bs[k]).Some? && NewBytes(Answer(env, bs, k)) == Some(hex)
    {
      MutatedExactly(env, message, k, hex);
    }
    if Rewrites(env, bs, k) {
      assert MutatedTo(env, message, k, NewBytes(Answer(env, bs, k)).value);
    }
  }

  // ---- Provenance ----

  /** The answer to block `k` tells this of `key`. */
  ghost predicate Tells(env: Env, message: Json, k: nat, key: string, value: Json) {
    exists bytes {:trigger Sends(env, message, k, bytes)} ::
      Sends(env, message, k, bytes) && Get(Index(env.scan(k, bytes), "provenance"), key) == Some(value)
  }

  lemma TellsExactly(env: Env, message: Json, k: nat, key: string, value: Json)
    ensures Tells(env, message, k, key, value) <==>
      && k < |Blocks(message)|
      && var told := NewProvenance(Answer(env, Blocks(message), k));
        key in told && told[key] == value
  {
    if k < |Blocks(message)| && Payload(env, Blocks(message)[k]).Some? {
      SentExactly(env, message, k, Payload(env, Blocks(message)[k]).value);
    }
    if bytes :| Sends(env, message, k, bytes) && Get(Index(env.scan(k, bytes), "provenance"), key) == Some(value) {
      SentExactly(env, message, k, bytes);
    }
  }

  ghost predicate Mentions(env: Env, message: Json, k: nat, key: string) {
    exists value :: Tells(env, message, k, key, value)
  }

  /** Among the first `n` blocks, the last to tell of `key` told this. */
  ghost predicate LastTold(env: Env, message: Json, n: nat, key: string, value: Json) {
    n > 0 &&
    if Mentions(env, message, n - 1, key) then Tells(env, message, n - 1, key, value)
    else LastTold(env, message, n - 1, key, value)
  }

  lemma MentionsExactly(env: Env, message: Json, k: nat, key: string)
    requires k < |Blocks(message)|
    ensures Mentions(env, message, k, key) <==> key in NewProvenance(Answer(env, Blocks(message), k))
  {
    var told := NewProvenance(Answer(env, Blocks(message), k));
    if key in told {
      TellsExactly(env, message, k, key, told[key]);
    }
    if value :| Tells(env, message, k, key, value) {
      TellsExactly(env, message, k, key, value);
    }
  }

  function Entry(told: Provenance, key: string): Option<Json> {
    if key in told then Some(told[key]) else None
  }

  lemma GatheredNext(env: Env, message: Json, n: nat, key: string)
    requires n < |Blocks(message)|
    ensures var (now, next) := (Gathered(env, Blocks(message), n), Gathered(env, Blocks(message), n + 1));
      Entry(next, key) ==
        if Mentions(env, message, n, key) then Entry(NewProvenance(Answer(env, Blocks(message), n)), key)
        else Entry(now, key)
  {
    MentionsExactly(env, message, n, key);
  }

  lemma LastToldNext(env: Env, message: Json, n: nat, key: string, value: Json)
    requires n < |Blocks(message)|
    requires Entry(Gathered(env, Blocks(message), n), key) == Some(value) <==> LastTold(env, message, n, key, value)
    ensures Entry(Gathered(env, Blocks(message), n + 1), key) == Some(value) <==>
      LastTold(env, message, n + 1, key, value)
  {
    GatheredNext(env, message, n, key);
    TellsExactly(env, message, n, key, value);
  }

  lemma {:induction false} GatheredIsLastTold(env: Env, message: Json, n: nat, key: string, value: Json)
    requires n <= |Blocks(message)|
    ensures Entry(Gathered(env, Blocks(message), n), key) == Some(value) <==> LastTold(env, message, n, key, value)
  {
    if n > 0 {
      GatheredIsLastTold(env, message, n - 1, key, value);
      LastToldNext(env, message, n - 1, key, value);
    }
  }

  function MetaOf(message: Json): Json {
    Index(Index(message, "result"), "_meta")
  }

  lemma SetKeepsMeta(v: Json, path: Path, x: Json)
    requires |path| >= 2 && path[0] == Key("result") && path[1] != Key("_meta")
    ensures MetaOf(Set(v, path, x)) == MetaOf(v)
  {
  }

  lemma PayloadsAreNotMeta(message: Json, k: nat)
    requires k < |Blocks(message)|
    ensures var path := Blocks(message)[k].path; |path| >= 3 && path[0] == Key("result") && path[1] != Key("_meta")
  {
    var list, i := BlockOrigin(message, k);
    BlockPath(list, i, ItemsOf(message, list)[i]);
  }

  lemma MutationKeepsMeta(env: Env, working: Json, b: Block, hex: string)
    requires |b.path| >= 2 && b.path[0] == Key("result") && b.path[1] != Key("_meta")
    ensures MetaOf(ApplyMutation(env, working, b, hex)) == MetaOf(working)
  {
    var bytes := Hex.Lenient(hex);
    SetKeepsMeta(working, b.path, Str(Base64.Encode(bytes)));
    SetKeepsMeta(working, b.path, Str(env.lossy(bytes)));
  }

  lemma TurnKeepsMeta(env: Env, message: Json, n: nat, p: Progress)
    requires n < |Blocks(message)| && p.Going? && Turn(env, message, Blocks(message), n, p).Going?
    ensures MetaOf(Turn(env, message, Blocks(message), n, p).working) == MetaOf(p.working)
  {
    PayloadsAreNotMeta(message, n);
    var hex := NewBytes(Answer(env, Blocks(message), n));
    if hex.Some? {
      MutationKeepsMeta(env, p.working, Blocks(message)[n], hex.value);
    }
  }

  lemma {:induction false} WorkingKeepsMeta(env: Env, message: Json, n: nat)
    requires n <= |Blocks(message)| && After(env, message, Blocks(message), n).Going?
    ensures MetaOf(After(env, message, Blocks(message), n).working) == MetaOf(message)
  {
    if n > 0 {
      WorkingKeepsMeta(env, message, n - 1);
      TurnKeepsMeta(env, message, n - 1, After(env, message, Blocks(message), n - 1));
    }
  }

  lemma MetaGains(working: Json, told: Provenance, key: string)
    requires Index(working, "result").Obj?
    ensures Get(MetaOf(Annotate(working, told)), key) ==
      if key in told then Some(told[key]) else Get(MetaOf(working), key)
  {
  }

  lemma ScanMeta(env: Env, message: Json, key: string)
    requires forall k :: 0 <= k < |Blocks(message)| ==> !Filters.Stops(Answer(env, Blocks(message), k))
    ensures var told := Gathered(env, Blocks(message), |Blocks(message)|);
      Get(MetaOf(Index(Scan(env, message), "message")), key) ==
        if key in told then Some(told[key]) else Get(MetaOf(message), key)
  {
    var bs := Blocks(message);
    StaysInStep(env, message, bs);
    WorkingKeepsMeta(env, message, |bs|);
    var told := Gathered(env, bs, |bs|);
    if told != map[] {
      ResultIsObject(env, message);
      MetaGains(After(env, message, bs, |bs|).working, told, key);
    }
  }

  lemma ResultIsObject(env: Env, message: Json)
    requires forall k :: 0 <= k < |Blocks(message)| ==> !Filters.Stops(Answer(env, Blocks(message), k))
    requires Gathered(env, Blocks(message), |Blocks(message)|) != map[]
    ensures After(env, message, Blocks(message), |Blocks(message)|).Going?
    ensures Index(After(env, message, Blocks(message), |Blocks(message)|).working, "result").Obj?
  {
    var bs := Blocks(message);
    StaysInStep(env, message, bs);
    var k := ProvenanceNeedsPayload(env, bs, |bs|);
    BlockForms(message, k);
    ResultUntouched(env, message, |bs|);
    ResultStays(message, After(env, message, bs, |bs|).working);
  }

  /** None of the first `n` blocks' answers tells of `key`. */
  ghost predicate Untold(env: Env, message: Json, n: nat, key: string) {
    n == 0 || (!Mentions(env, message, n - 1, key) && Untold(env, message, n - 1, key))
  }

  lemma UntoldNext(env: Env, message: Json, n: nat, key: string)
    requires n < |Blocks(message)|
    requires Untold(env, message, n, key) <==> Entry(Gathered(env, Blocks(message), n), key).None?
    ensures Untold(env, message, n + 1, key) <==> Entry(Gathered(env, Blocks(message), n + 1), key).None?
  {
    GatheredNext(env, message, n, key);
    MentionsExactly(env, message, n, key);
  }

  lemma {:induction false} UntoldExactly(env: Env, message: Json, n: nat, key: string)
    requires n <= |Blocks(message)|
    ensures Untold(env, message, n, key) <==> Entry(Gathered(env, Blocks(message), n), key).None?
  {
    if n > 0 {
      UntoldExactly(env, message, n - 1, key);
      UntoldNext(env, message, n - 1, key);
    }
  }

  /** After a scan that forwards, the result's `_meta` says of each key what the
      last answer to tell of it told, and what it said before of any other. */
  lemma MetaAfter(env: Env, message: Json, key: string, value: Json)
    requires forall j {:trigger RefusedAt(env, message, j)} :: !RefusedAt(env, message, j)
    ensures var out := Index(Scan(env, message), "message");
      Get(Index(Index(out, "result"), "_meta"), key) == Some(value) <==>
        if Untold(env, message, |Blocks(message)|, key) then
          Get(Index(Index(message, "result"), "_meta"), key) == Some(value)
        else LastTold(env, message, |Blocks(message)|, key, value)
  {
    var bs := Blocks(message);
    forall j | 0 <= j < |bs| ensures !Filters.Stops(Answer(env, bs, j)) {
      RefusedExactly(env, message, j);
    }
    GatheredIsLastTold(env, message, |bs|, key, value);
    UntoldExactly(env, message, |bs|, key);
    ScanMeta(env, message, key);
  }
}
