/** The hash-chained audit log. SHA-256, the keyed signature, the JSON printer
    and UTF-8 are parameters; nothing is assumed of the digest but its length. */
module Signing {
  import opened Prelude
  import opened JsonValue
  import Bits
  import Hex

  datatype Crypto = Crypto(
    sha256: seq<byte> -> seq<byte>,
    hmac: (seq<byte>, seq<byte>) -> seq<byte>,
    canonical: Json -> seq<byte>,
    utf8: string -> seq<byte>)

  /** Digests and signatures are 256 bits; UTF-8 extends ASCII and loses nothing. */
  ghost predicate Sound(c: Crypto) {
    && (forall d :: |c.sha256(d)| == 32)
    && (forall k, d :: |c.hmac(k, d)| == 32)
    && (forall s: string :: IsAscii(s) ==> c.utf8(s) == Ascii(s))
    && Lossless(c.utf8)
  }

  ghost predicate Lossless(utf8: string -> seq<byte>) {
    forall s: string, t: string {:trigger utf8(s), utf8(t)} :: utf8(s) == utf8(t) ==> s == t
  }

  const ZEROS := "0000000000000000"
  const GENESIS := ZEROS + ZEROS + ZEROS + ZEROS
  const BAR: byte := 124

  function Sign(c: Crypto, secret: string, record: Json): string {
    Hex.ToHex(c.hmac(c.utf8(secret), c.canonical(record)))
  }

  /** The bytes one link hashes. */
  function LinkInput(c: Crypto, prev: string, record: Json): seq<byte> {
    c.utf8(prev) + [BAR] + c.canonical(record)
  }

  function Chain(c: Crypto, prev: string, record: Json): string {
    Hex.ToHex(c.sha256(LinkInput(c, prev, record)))
  }

  function Entry(c: Crypto, secret: string, head: string, record: Json): Json {
    Obj(map["record" := record, "prev" := Str(head),
            "signature" := Str(Sign(c, secret, record)), "hash" := Str(Chain(c, head, record))])
  }

  function Record(entry: Json): Json { Index(entry, "record") }
  function HashOf(entry: Json): string { OrEmpty(GetStr(entry, "hash")) }
  function SignatureOf(entry: Json): string { OrEmpty(GetStr(entry, "signature")) }

  predicate EntryOk(c: Crypto, secret: string, head: string, entry: Json) {
    && c.utf8(Sign(c, secret, Record(entry))) == c.utf8(SignatureOf(entry))
    && GetStr(entry, "prev") == Some(head)
    && Chain(c, head, Record(entry)) == HashOf(entry)
  }

  function HeadAfter(head: string, entries: seq<Json>, n: nat): string
    requires n <= |entries|
  {
    if n == 0 then head else HashOf(entries[n - 1])
  }

  predicate LinkOk(c: Crypto, secret: string, head: string, entries: seq<Json>, i: nat)
    requires i < |entries|
  {
    EntryOk(c, secret, HeadAfter(head, entries, i), entries[i])
  }

  predicate VerifiesFrom(c: Crypto, secret: string, head: string, entries: seq<Json>) {
    forall i {:trigger LinkOk(c, secret, head, entries, i)} ::
      0 <= i < |entries| ==> LinkOk(c, secret, head, entries, i)
  }

  predicate Verifies(c: Crypto, secret: string, entries: seq<Json>) {
    VerifiesFrom(c, secret, GENESIS, entries)
  }

  // ---- Constant-time comparison ----

  /** Differences only ever accumulate, so the verdict needs no early exit. */
  method ConstantTimeEq(a: seq<byte>, b: seq<byte>) returns (same: bool)
    ensures same <==> a == b
  {
    if |a| != |b| { return false; }
    var diff := 0;
    for i := 0 to |a|
      invariant diff >= 0 && (diff == 0 <==> a[..i] == b[..i])
    {
      assert a[..i + 1] == a[..i] + [a[i]] && b[..i + 1] == b[..i] + [b[i]];
      Bits.XorZero(a[i] as nat, b[i] as nat);
      Bits.OrZero(diff, Bits.Xor(a[i] as nat, b[i] as nat));
      diff := Bits.Or(diff, Bits.Xor(a[i] as nat, b[i] as nat));
    }
    assert a[..|a|] == a && b[..|a|] == b;
    return diff == 0;
  }

  // ---- The log ----

  class AuditLog {
    const c: Crypto
    const secret: string
    const genesis: string
    var head: string
    var records: seq<Json>

    ghost predicate Valid()
      reads this
    {
      && genesis == GENESIS
      && head == HeadAfter(genesis, records, |records|)
      && Verifies(c, secret, records)
    }

    constructor (c: Crypto, secret: string)
      ensures this.c == c && this.secret == secret && records == []
      ensures Valid()
    {
      this.c, this.secret := c, secret;
      genesis, head, records := GENESIS, GENESIS, [];
    }

    /** The new entry continues the chain, and a valid log stays valid. */
    method Append(record: Json) returns (entry: Json)
      modifies this
      ensures entry == Entry(c, secret, old(head), record) && Sealed(c, secret, old(head), entry)
      ensures records == old(records) + [entry] && head == HashOf(entry)
      ensures old(Valid()) ==> Valid()
    {
      ghost var before := records;
      ghost var valid := Valid();
      entry := Entry(c, secret, head, record);
      EntryFields(c, secret, head, record);
      ghost var prev := head;
      head := HashOf(entry);
      records := records + [entry];
      if valid {
        VerifiesConcat(c, secret, GENESIS, before, [entry]);
        assert EntryOk(c, secret, HeadAfter(prev, [entry], 0), entry);
      }
    }

    /** Anyone may have edited `records`, so this asks nothing of the log. */
    method Verify() returns (ok: bool)
      ensures ok == VerifiesFrom(c, secret, genesis, records)
    {
      var head := genesis;
      for i := 0 to |records|
        invariant head == HeadAfter(genesis, records, i)
        invariant forall j {:trigger LinkOk(c, secret, genesis, records, j)} ::
          0 <= j < i ==> LinkOk(c, secret, genesis, records, j)
      {
        var ok := VerifyEntry(c, secret, head, records[i]);
        if !ok {
          assert !LinkOk(c, secret, genesis, records, i);
          return false;
        }
        head := OrEmpty(GetStr(records[i], "hash"));
      }
      return true;
    }
  }

  method VerifyEntry(c: Crypto, secret: string, head: string, entry: Json) returns (ok: bool)
    ensures ok == EntryOk(c, secret, head, entry)
  {
    var record := Index(entry, "record");
    var signed := ConstantTimeEq(c.utf8(Sign(c, secret, record)), c.utf8(OrEmpty(GetStr(entry, "signature"))));
    if !signed { return false; }
    if GetStr(entry, "prev") != Some(head) { return false; }
    return Chain(c, head, record) == OrEmpty(GetStr(entry, "hash"));
  }

  lemma EntryFields(c: Crypto, secret: string, head: string, record: Json)
    ensures EntryOk(c, secret, head, Entry(c, secret, head, record))
    ensures Record(Entry(c, secret, head, record)) == record
  {
  }

  /** Verification composes along the chain. With `ys` removed it still holds:
      a log cut short verifies, so cutting is not detected here. */
  lemma VerifiesConcat(c: Crypto, secret: string, head: string, xs: seq<Json>, ys: seq<Json>)
    ensures VerifiesFrom(c, secret, head, xs + ys) <==>
      VerifiesFrom(c, secret, head, xs) && VerifiesFrom(c, secret, HeadAfter(head, xs, |xs|), ys)
  {
    var mid := HeadAfter(head, xs, |xs|);
    forall i | 0 <= i < |xs| ensures LinkOk(c, secret, head, xs + ys, i) == LinkOk(c, secret, head, xs, i) {
      assert (xs + ys)[i] == xs[i] && HeadAfter(head, xs + ys, i) == HeadAfter(head, xs, i);
    }
    forall j | 0 <= j < |ys| ensures LinkOk(c, secret, head, xs + ys, |xs| + j) == LinkOk(c, secret, mid, ys, j) {
      assert (xs + ys)[|xs| + j] == ys[j] && HeadAfter(head, xs + ys, |xs| + j) == HeadAfter(mid, ys, j);
    }
    if VerifiesFrom(c, secret, head, xs) && VerifiesFrom(c, secret, mid, ys) {
      forall i | 0 <= i < |xs + ys| ensures LinkOk(c, secret, head, xs + ys, i) {
        if i >= |xs| {
          assert LinkOk(c, secret, mid, ys, i - |xs|);
        } else {
          assert LinkOk(c, secret, head, xs, i);
        }
      }
    }
  }

  // ---- What verification accepts ----

  /** A log grown one entry at a time. */
  function Grow(next: (seq<Json>, Json) -> Json, rs: seq<Json>, n: nat): (log: seq<Json>)
    requires n <= |rs|
    ensures |log| == n
  {
    if n == 0 then [] else Grow(next, rs, n - 1) + [next(Grow(next, rs, n - 1), rs[n - 1])]
  }

  lemma {:induction false} GrowPrefix(next: (seq<Json>, Json) -> Json, rs: seq<Json>, n: nat, i: nat)
    requires i <= n <= |rs|
    ensures Grow(next, rs, n)[..i] == Grow(next, rs, i)
  {
    if i < n {
      GrowPrefix(next, rs, n - 1, i);
      assert Grow(next, rs, n)[..i] == Grow(next, rs, n - 1)[..i];
    }
  }

  lemma GrowAt(next: (seq<Json>, Json) -> Json, rs: seq<Json>, n: nat, i: nat)
    requires i < n <= |rs|
    ensures Grow(next, rs, n)[i] == next(Grow(next, rs, n)[..i], rs[i])
  {
    GrowPrefix(next, rs, n, i);
    GrowPrefix(next, rs, n, i + 1);
    assert Grow(next, rs, n)[i] == Grow(next, rs, n)[..i + 1][i];
  }

  /** What `append` adds to a log that holds `log`. */
  function Next(c: Crypto, secret: string): (seq<Json>, Json) -> Json {
    (log: seq<Json>, record: Json) => Entry(c, secret, HeadAfter(GENESIS, log, |log|), record)
  }

  /** The log that `append` builds from some records. */
  function Build(c: Crypto, secret: string, rs: seq<Json>): (log: seq<Json>)
    ensures |log| == |rs|
  {
    Grow(Next(c, secret), rs, |rs|)
  }

  lemma BuiltAt(c: Crypto, secret: string, rs: seq<Json>, i: nat)
    requires i < |rs|
    ensures Build(c, secret, rs)[i] == Entry(c, secret, HeadAfter(GENESIS, Build(c, secret, rs), i), rs[i])
  {
    var log := Build(c, secret, rs);
    GrowAt(Next(c, secret), rs, |rs|, i);
    assert HeadAfter(GENESIS, log[..i], i) == HeadAfter(GENESIS, log, i);
  }

  /** Every log that `append` builds verifies and holds its records in order. */
  lemma BuiltVerifies(c: Crypto, secret: string, rs: seq<Json>)
    ensures Verifies(c, secret, Build(c, secret, rs))
    ensures forall i :: 0 <= i < |rs| ==> Record(Build(c, secret, rs)[i]) == rs[i]
  {
    var built := Build(c, secret, rs);
    forall i | 0 <= i < |rs| ensures LinkOk(c, secret, GENESIS, built, i) && Record(built[i]) == rs[i] {
      BuiltAt(c, secret, rs, i);
      EntryFields(c, secret, HeadAfter(GENESIS, built, i), rs[i]);
    }
  }

  /** An entry holds what another one does, in the four fields that matter. */
  predicate SameFields(a: Json, b: Json) {
    && Record(a) == Record(b)
    && GetStr(a, "prev") == GetStr(b, "prev")
    && GetStr(a, "signature") == GetStr(b, "signature")
    && GetStr(a, "hash") == GetStr(b, "hash")
  }

  lemma LinkLengths(c: Crypto, secret: string, head: string, record: Json)
    requires Sound(c)
    ensures |Chain(c, head, record)| == 64 && |Sign(c, secret, record)| == 64
  {
  }

  lemma EntryOkExactly(c: Crypto, secret: string, head: string, entry: Json)
    requires Sound(c)
    ensures EntryOk(c, secret, head, entry) <==> SameFields(entry, Entry(c, secret, head, Record(entry)))
  {
    LinkLengths(c, secret, head, Record(entry));
    EntryFields(c, secret, head, Record(entry));
  }

  predicate AsAppended(c: Crypto, secret: string, entries: seq<Json>, i: nat)
    requires i < |entries|
  {
    SameFields(entries[i], Entry(c, secret, HeadAfter(GENESIS, entries, i), Record(entries[i])))
  }

  /** Verification accepts exactly the logs whose every entry is, field by field,
      the one `append` would have written for its record at that point. */
  lemma VerifiesExactly(c: Crypto, secret: string, entries: seq<Json>)
    requires Sound(c)
    ensures Verifies(c, secret, entries) <==>
      forall i {:trigger AsAppended(c, secret, entries, i)} :: 0 <= i < |entries| ==> AsAppended(c, secret, entries, i)
  {
    forall i | 0 <= i < |entries|
      ensures LinkOk(c, secret, GENESIS, entries, i) <==> AsAppended(c, secret, entries, i)
    {
      EntryOkExactly(c, secret, HeadAfter(GENESIS, entries, i), entries[i]);
    }
  }

  // ---- The bytes that are signed and hashed ----

  /** The entry's signature is the MAC of its record's canonical bytes keyed by the
      secret, and its hash the digest of the previous link, a bar and those bytes. */
  ghost predicate Sealed(c: Crypto, secret: string, prev: string, entry: Json) {
    var bytes := c.canonical(Index(entry, "record"));
    && GetStr(entry, "prev") == Some(prev)
    && GetStr(entry, "signature") == Some(Hex.ToHex(c.hmac(c.utf8(secret), bytes)))
    && GetStr(entry, "hash") == Some(Hex.ToHex(c.sha256(c.utf8(prev) + [124] + bytes)))
  }

  /** The first link is 64 zeros; every other is the hash before it. */
  ghost predicate IsLink(entries: seq<Json>, i: nat, prev: string)
    requires i < |entries|
  {
    if i == 0 then |prev| == 64 && forall j :: 0 <= j < 64 ==> prev[j] == '0'
    else GetStr(entries[i - 1], "hash") == Some(prev)
  }

  lemma EntryOkIsSealed(c: Crypto, secret: string, head: string, entry: Json)
    requires Sound(c)
    ensures EntryOk(c, secret, head, entry) <==> Sealed(c, secret, head, entry)
  {
    LinkLengths(c, secret, head, Record(entry));
  }

  lemma GenesisIsZeros()
    ensures |GENESIS| == 64 && forall j :: 0 <= j < 64 ==> GENESIS[j] == '0'
  {
    assert |ZEROS| == 16 && forall j :: 0 <= j < 16 ==> ZEROS[j] == '0';
  }

  /** Entry `i` is sealed behind the link before it. */
  ghost predicate SealedAt(c: Crypto, secret: string, entries: seq<Json>, i: nat)
    requires i < |entries|
  {
    exists prev :: IsLink(entries, i, prev) && Sealed(c, secret, prev, entries[i])
  }

  lemma LinkIsSealed(c: Crypto, secret: string, entries: seq<Json>, i: nat)
    requires Sound(c) && i < |entries|
    ensures (i > 0 ==> GetStr(entries[i - 1], "hash").Some?) ==>
      (LinkOk(c, secret, GENESIS, entries, i) <==> SealedAt(c, secret, entries, i))
    ensures LinkOk(c, secret, GENESIS, entries, i) || SealedAt(c, secret, entries, i) ==>
      GetStr(entries[i], "hash").Some?
  {
    var head := HeadAfter(GENESIS, entries, i);
    EntryOkIsSealed(c, secret, head, entries[i]);
    GenesisIsZeros();
    if i > 0 ==> GetStr(entries[i - 1], "hash").Some? {
      assert IsLink(entries, i, head);
      forall prev | IsLink(entries, i, prev) ensures prev == head {
      }
    }
  }

  lemma LinkAgrees(c: Crypto, secret: string, entries: seq<Json>, i: nat)
    requires Sound(c) && i < |entries|
    ensures LinkOk(c, secret, GENESIS, entries, i) && (i > 0 ==> LinkOk(c, secret, GENESIS, entries, i - 1)) ==>
      SealedAt(c, secret, entries, i)
    ensures SealedAt(c, secret, entries, i) && (i > 0 ==> SealedAt(c, secret, entries, i - 1)) ==>
      LinkOk(c, secret, GENESIS, entries, i)
  {
    LinkIsSealed(c, secret, entries, i);
    if i > 0 {
      LinkIsSealed(c, secret, entries, i - 1);
    }
  }

  /** Verification accepts exactly the chains of sealed entries, from 64 zeros on. */
  lemma SealedExactly(c: Crypto, secret: string, entries: seq<Json>)
    requires Sound(c)
    ensures Verifies(c, secret, entries) <==>
      forall i {:trigger SealedAt(c, secret, entries, i)} :: 0 <= i < |entries| ==> SealedAt(c, secret, entries, i)
  {
    if Verifies(c, secret, entries) {
      forall i | 0 <= i < |entries| ensures SealedAt(c, secret, entries, i) {
        LinkAgrees(c, secret, entries, i);
      }
    }
    if forall i {:trigger SealedAt(c, secret, entries, i)} :: 0 <= i < |entries| ==> SealedAt(c, secret, entries, i) {
      forall i | 0 <= i < |entries| ensures LinkOk(c, secret, GENESIS, entries, i) {
        LinkAgrees(c, secret, entries, i);
      }
    }
  }

  /** A signature binds its record: two entries of logs that verify under one secret
      and carry one signature have one canonical record, or their records' bytes
      are two inputs with one MAC under that secret. */
  lemma SignatureBindsRecord(c: Crypto, secret: string, xs: seq<Json>, ys: seq<Json>, i: nat, j: nat)
      returns (d: seq<byte>, e: seq<byte>)
    requires Sound(c) && Verifies(c, secret, xs) && Verifies(c, secret, ys)
    requires i < |xs| && j < |ys| && GetStr(xs[i], "signature") == GetStr(ys[j], "signature")
    ensures d == c.canonical(Index(xs[i], "record")) && e == c.canonical(Index(ys[j], "record"))
    ensures d == e || c.hmac(c.utf8(secret), d) == c.hmac(c.utf8(secret), e)
  {
    d, e := c.canonical(Index(xs[i], "record")), c.canonical(Index(ys[j], "record"));
    assert LinkOk(c, secret, GENESIS, xs, i) && LinkOk(c, secret, GENESIS, ys, j);
    EntryOkIsSealed(c, secret, HeadAfter(GENESIS, xs, i), xs[i]);
    EntryOkIsSealed(c, secret, HeadAfter(GENESIS, ys, j), ys[j]);
    Hex.ToHexInjective(c.hmac(c.utf8(secret), d), c.hmac(c.utf8(secret), e));
  }

  /** A signature binds its secret: a record and signature that occur in logs which
      verify under two secrets give two keys with one MAC on that record's bytes. */
  lemma SignatureBindsSecret(c: Crypto, secret: string, other: string, xs: seq<Json>, ys: seq<Json>, i: nat, j: nat)
      returns (k: seq<byte>, l: seq<byte>)
    requires Sound(c) && secret != other && Verifies(c, secret, xs) && Verifies(c, other, ys)
    requires i < |xs| && j < |ys| && Index(xs[i], "record") == Index(ys[j], "record")
    requires GetStr(xs[i], "signature") == GetStr(ys[j], "signature")
    ensures k == c.utf8(secret) && l == c.utf8(other) && k != l
    ensures c.hmac(k, c.canonical(Index(xs[i], "record"))) == c.hmac(l, c.canonical(Index(xs[i], "record")))
  {
    k, l := c.utf8(secret), c.utf8(other);
    var d := c.canonical(Index(xs[i], "record"));
    assert LinkOk(c, secret, GENESIS, xs, i) && LinkOk(c, other, GENESIS, ys, j);
    EntryOkIsSealed(c, secret, HeadAfter(GENESIS, xs, i), xs[i]);
    EntryOkIsSealed(c, other, HeadAfter(GENESIS, ys, j), ys[j]);
    Hex.ToHexInjective(c.hmac(k, d), c.hmac(l, d));
    assert secret != other ==> k != l;
  }

  // ---- Tamper evidence ----

  lemma ZerosAreAscii()
    ensures IsAscii(ZEROS) && |ZEROS| == 16
  {
  }

  lemma GenesisIsALink()
    ensures IsAscii(GENESIS) && |GENESIS| == 64
  {
    ZerosAreAscii();
  }

  /** Every link is 64 ASCII characters, so a link's input splits one way. */
  lemma HeadShape(c: Crypto, secret: string, entries: seq<Json>, i: nat)
    requires Sound(c) && i <= |entries| && Verifies(c, secret, entries)
    ensures IsAscii(HeadAfter(GENESIS, entries, i)) && |HeadAfter(GENESIS, entries, i)| == 64
  {
    if i == 0 {
      GenesisIsALink();
    } else {
      var head, entry := HeadAfter(GENESIS, entries, i - 1), entries[i - 1];
      assert LinkOk(c, secret, GENESIS, entries, i - 1);
      LinkLengths(c, secret, head, Record(entry));
      Hex.ToHexIsAscii(c.sha256(LinkInput(c, head, Record(entry))));
    }
  }

  lemma InputSplits(c: Crypto, p: string, r: Json, q: string, s: Json)
    requires Sound(c) && IsAscii(p) && IsAscii(q) && |p| == |q|
    requires LinkInput(c, p, r) == LinkInput(c, q, s)
    ensures p == q && c.canonical(r) == c.canonical(s)
  {
    var n := |p|;
    assert LinkInput(c, p, r)[..n] == Ascii(p) && LinkInput(c, q, s)[..n] == Ascii(q);
    assert LinkInput(c, p, r)[n + 1..] == c.canonical(r) && LinkInput(c, q, s)[n + 1..] == c.canonical(s);
    AsciiInjective(p, q);
  }

  /** Two inputs with one digest, or one input with the all-zero digest. */
  datatype Evidence = Nothing | Collision(a: seq<byte>, b: seq<byte>) | Zero(a: seq<byte>)

  ghost predicate Proves(c: Crypto, e: Evidence) {
    match e
    case Nothing => false
    case Collision(a, b) => a != b && c.sha256(a) == c.sha256(b)
    case Zero(a) => Hex.ToHex(c.sha256(a)) == GENESIS
  }

  /** Everything the chain protects of one entry. */
  predicate Agree(c: Crypto, x: Json, y: Json) {
    && c.canonical(Record(x)) == c.canonical(Record(y))
    && GetStr(x, "prev") == GetStr(y, "prev")
    && HashOf(x) == HashOf(y)
    && SignatureOf(x) == SignatureOf(y)
  }

  /** One step back: entries with one hash agree and had one previous link. */
  lemma StepBack(c: Crypto, secret: string, xs: seq<Json>, ys: seq<Json>, i: nat, j: nat) returns (e: Evidence)
    requires Sound(c) && Verifies(c, secret, xs) && Verifies(c, secret, ys)
    requires i < |xs| && j < |ys| && HashOf(xs[i]) == HashOf(ys[j])
    ensures e.Nothing? || Proves(c, e)
    ensures !e.Zero?
    ensures e.Nothing? ==> Agree(c, xs[i], ys[j]) && HeadAfter(GENESIS, xs, i) == HeadAfter(GENESIS, ys, j)
  {
    var p, q := HeadAfter(GENESIS, xs, i), HeadAfter(GENESIS, ys, j);
    assert LinkOk(c, secret, GENESIS, xs, i) && LinkOk(c, secret, GENESIS, ys, j);
    var a, b := LinkInput(c, p, Record(xs[i])), LinkInput(c, q, Record(ys[j]));
    Hex.ToHexInjective(c.sha256(a), c.sha256(b));
    if a != b { return Collision(a, b); }
    HeadShape(c, secret, xs, i);
    HeadShape(c, secret, ys, j);
    InputSplits(c, p, Record(xs[i]), q, Record(ys[j]));
    return Nothing;
  }

  predicate AgreeAt(c: Crypto, xs: seq<Json>, ys: seq<Json>, k: nat)
    requires k < |xs| && k < |ys|
  {
    Agree(c, xs[k], ys[k])
  }

  /** Back from a shared link: entry by entry, until an exhibit or the start. */
  lemma {:induction false} Back(c: Crypto, secret: string, xs: seq<Json>, ys: seq<Json>, i: nat, j: nat)
      returns (e: Evidence)
    requires Sound(c) && Verifies(c, secret, xs) && Verifies(c, secret, ys)
    requires i <= |xs| && j <= |ys| && HeadAfter(GENESIS, xs, i) == HeadAfter(GENESIS, ys, j)
    ensures e != Nothing ==> Proves(c, e) && (e.Zero? ==> i != j)
    ensures e == Nothing ==> i == j && forall k {:trigger AgreeAt(c, xs, ys, k)} :: 0 <= k < i ==> AgreeAt(c, xs, ys, k)
    decreases i
  {
    if i == 0 || j == 0 {
      e := AtTheStart(c, secret, xs, ys, i, j);
    } else {
      e := StepBack(c, secret, xs, ys, i - 1, j - 1);
      if e == Nothing {
        e := Back(c, secret, xs, ys, i - 1, j - 1);
      }
    }
  }

  /** Tamper evidence. Two logs that verify and end in the same hash either have
      the same length and agree in every entry, or the proof exhibits a digest
      collision, or (lengths differing) an input whose digest is all zeros. */
  lemma TamperEvidence(c: Crypto, secret: string, xs: seq<Json>, ys: seq<Json>) returns (e: Evidence)
    requires Sound(c) && Verifies(c, secret, xs) && Verifies(c, secret, ys)
    requires HeadAfter(GENESIS, xs, |xs|) == HeadAfter(GENESIS, ys, |ys|)
    ensures e != Nothing ==> Proves(c, e) && (e.Zero? ==> |xs| != |ys|)
    ensures e == Nothing ==> |xs| == |ys| && forall k {:trigger AgreeAt(c, xs, ys, k)} ::
      0 <= k < |xs| ==> AgreeAt(c, xs, ys, k)
  {
    e := Back(c, secret, xs, ys, |xs|, |ys|);
  }

  lemma AtTheStart(c: Crypto, secret: string, xs: seq<Json>, ys: seq<Json>, i: nat, j: nat) returns (e: Evidence)
    requires Verifies(c, secret, xs) && Verifies(c, secret, ys)
    requires i <= |xs| && j <= |ys| && (i == 0 || j == 0)
    requires HeadAfter(GENESIS, xs, i) == HeadAfter(GENESIS, ys, j)
    ensures if i == j then e == Nothing else e.Zero? && Proves(c, e)
  {
    e := Nothing;
    if i > 0 {
      e := ZeroLink(c, secret, xs, i);
    } else if j > 0 {
      e := ZeroLink(c, secret, ys, j);
    }
  }

  lemma ZeroLink(c: Crypto, secret: string, entries: seq<Json>, i: nat) returns (e: Evidence)
    requires Verifies(c, secret, entries) && 0 < i <= |entries|
    requires HeadAfter(GENESIS, entries, i) == GENESIS
    ensures e.Zero? && Proves(c, e)
  {
    var head, entry := HeadAfter(GENESIS, entries, i - 1), entries[i - 1];
    assert LinkOk(c, secret, GENESIS, entries, i - 1);
    e := Zero(LinkInput(c, head, Record(entry)));
  }
}
