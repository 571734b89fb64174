/** What one run of a filter chain does: which filters see a request, when and how
    it is refused, and what becomes of its arguments and annotations. Stated from
    the filters' declarations and the fields of their verdicts. */
module ChainVerdicts {
  import opened Prelude
  import opened JsonValue
  import opened Filters
  import Content
  import Folds
  import Namespace
  import Payloads
  import Sorting

  // ---- Interest ----

  /** A declared list admits when it is absent, no array or empty, when it holds a
      star, or when it holds some text that fits. */
  ghost predicate Admits(declared: Option<Json>, fits: string -> bool) {
    || declared.None? || !declared.value.Arr? || declared.value.items == []
    || Str("*") in declared.value.items
    || exists s :: Str(s) in declared.value.items && fits(s)
  }

  /** A pattern that ends in a slash and a star covers its family, a star covers
      everything, and any other pattern only itself. */
  ghost predicate Covers(pattern: string, mime: string) {
    || pattern == mime || pattern == "*"
    || exists family :: pattern == family + "/*" && |family| + 1 <= |mime| && mime[..|family| + 1] == family + "/"
  }

  ghost predicate TypesFit(message: Json, s: string) {
    exists b :: b in Content.Blocks(message) && b.mime.Str? && Covers(s, b.mime.s)
  }

  lemma {:induction false} MimesHold(blocks: seq<Content.Block>, n: nat, mime: string)
    requires n <= |blocks|
    ensures mime in MimesOf(blocks, n) <==> exists k :: 0 <= k < n && blocks[k].mime == Str(mime)
  {
    if n > 0 {
      MimesHold(blocks, n - 1, mime);
    }
  }

  lemma PresentExactly(message: Json, direction: string, mime: string)
    ensures mime in MessageContext(message, direction).mimes <==>
      exists b :: b in Content.Blocks(message) && b.mime == Str(mime)
  {
    var blocks := Content.Blocks(message);
    MimesHold(blocks, |blocks|, mime);
    Sorting.SortedOnce(MimesOf(blocks, |blocks|));
    if b :| b in blocks && b.mime == Str(mime) {
      var k :| 0 <= k < |blocks| && blocks[k] == b;
    }
  }

  lemma PatternIs(pattern: string, mime: string)
    ensures MimeMatch(pattern, mime) <==> Covers(pattern, mime)
  {
    if |pattern| >= 2 && pattern[|pattern| - 2..] == "/*" {
      var family := pattern[..|pattern| - 2];
      assert pattern == family + "/*";
      assert pattern[..|pattern| - 1] == family + "/";
    }
    if family :| pattern == family + "/*" && |family| + 1 <= |mime| && mime[..|family| + 1] == family + "/" {
      assert pattern[|pattern| - 2..] == "/*" && pattern[..|pattern| - 1] == family + "/";
    }
  }

  lemma MatchesIs(declared: Option<Json>, value: Option<string>)
    ensures Matches(declared, value) <==> Admits(declared, s => value == Some(s))
  {
  }

  lemma ContentIs(declared: Option<Json>, message: Json, direction: string)
    ensures MatchesContent(declared, MessageContext(message, direction).mimes) <==>
      Admits(declared, s => TypesFit(message, s))
  {
    var present := MessageContext(message, direction).mimes;
    if declared.Some? && declared.value.Arr? {
      var items := declared.value.items;
      if i, j :| 0 <= i < |items| && 0 <= j < |present| && items[i].Str? && MimeMatch(items[i].s, present[j]) {
        PresentExactly(message, direction, present[j]);
        PatternIs(items[i].s, present[j]);
        assert TypesFit(message, items[i].s);
        assert Str(items[i].s) in items;
      }
      if s :| Str(s) in items && TypesFit(message, s) {
        var b :| b in Content.Blocks(message) && b.mime.Str? && Covers(s, b.mime.s);
        PresentExactly(message, direction, b.mime.s);
        PatternIs(s, b.mime.s);
        var i :| 0 <= i < |items| && items[i] == Str(s);
        var j :| 0 <= j < |present| && present[j] == b.mime.s;
      }
    }
  }

  /** A filter sees a request exactly when its declarations admit the method, the
      direction from client to server, the tool of a tool call, and some content
      type present. */
  lemma CaresExactly(j: Job, i: nat)
    requires i < |j.fs|
    ensures var (interest, called) := (j.fs[i].interest, GetStr(j.request, "method"));
            var tool := GetStr(Index(j.request, "params"), "name");
      Cares(j, i) <==>
        && Admits(Get(interest, "methods"), s => called == Some(s))
        && Admits(Get(interest, "directions"), s => s == "c2u")
        && Admits(Get(interest, "tools"), s => called == Some("tools/call") && tool == Some(s))
        && Admits(Get(interest, "content_types"), s => TypesFit(j.request, s))
  {
    var interest, context := j.fs[i].interest, MessageContext(j.request, C2U);
    MatchesIs(Get(interest, "methods"), context.name);
    MatchesIs(Get(interest, "directions"), Some(C2U));
    MatchesIs(Get(interest, "tools"), context.tool);
    ContentIs(Get(interest, "content_types"), j.request, C2U);
  }

  // ---- Refusal ----

  /** Stage `k` refuses the message it is shown: by its verdict, or by failing
      under a policy that fails closed. */
  ghost predicate RefusesAt(j: Job, k: nat) {
    && k < |j.fs| && Cares(j, k)
    && var verdict := j.fs[k].evaluate(j.hook, Shown(j, k));
      if verdict.None? then j.fs[k].policy == "fail_closed"
      else GetStr(verdict.value, "kind") == Some("deny") || GetStr(verdict.value, "kind") == Some("quarantine")
  }

  /** The first refusal's own answer, or a bare denial when the filter failed. */
  ghost predicate RefusedWith(outcome: Json, request: Json, verdict: Option<Json>) {
    var response := Index(outcome, "response");
    var said := if verdict.Some? then verdict.value else Null;
    && Get(outcome, "message").None? && Get(outcome, "action") == Some(Str("block"))
    && Get(outcome, "quarantined") == Some(Bool(GetStr(said, "kind") == Some("quarantine")))
    && Get(response, "jsonrpc") == Some(Str("2.0")) && Get(response, "result").None?
    && Get(response, "id") == Some(if Get(request, "id").Some? then Get(request, "id").value else Null)
    && Get(Index(response, "error"), "code") == Some(Num(-32001))
    && Get(Index(response, "error"), "message") ==
        Some(Str(if GetStr(said, "reason").Some? then GetStr(said, "reason").value else ""))
  }

  lemma RefusesIs(j: Job, k: nat)
    ensures RefusesAt(j, k) <==> k < |j.fs| && Halts(j, k)
  {
  }

  lemma BlockedIs(request: Json, f: Filter, hook: string, message: Json)
    ensures RefusedWith(Blocked(request, VerdictOf(f, hook, message)), request, f.evaluate(hook, message))
  {
  }

  /** The stage at which the machine halts first is the first to refuse. */
  lemma FirstHaltRefuses(j: Job)
    ensures var first := Folds.FirstHalt(Machine(j), 0);
      && (forall i: nat {:trigger RefusesAt(j, i)} :: i < first ==> !RefusesAt(j, i))
      && (if first < |j.fs| then RefusesAt(j, first) else forall i: nat {:trigger RefusesAt(j, i)} :: !RefusesAt(j, i))
  {
    var first := Folds.FirstHalt(Machine(j), 0);
    forall i: nat | i < first ensures !RefusesAt(j, i) {
      RefusesIs(j, i);
      assert !Folds.Halts(Machine(j), i);
    }
    if first < |j.fs| {
      RefusesIs(j, first);
      assert Folds.Halts(Machine(j), first);
    }
  }

  /** A run that no filter refuses forwards the message all of them left; any other
      is blocked with what the first refusing filter answered. */
  lemma FirstRefusalDecides(j: Job)
    ensures if forall k {:trigger RefusesAt(j, k)} :: !RefusesAt(j, k) then
              Get(Outcome(j), "action") == Some(Str("forward")) && Get(Outcome(j), "message") == Some(Shown(j, |j.fs|))
            else exists k: nat {:trigger RefusesAt(j, k)} ::
              && RefusesAt(j, k) && (forall i: nat {:trigger RefusesAt(j, i)} :: i < k ==> !RefusesAt(j, i))
              && RefusedWith(Outcome(j), j.request, j.fs[k].evaluate(j.hook, Shown(j, k)))
  {
    FirstHaltRefuses(j);
    var first := Folds.FirstHalt(Machine(j), 0);
    if first < |j.fs| {
      BlockedIs(j.request, j.fs[first], j.hook, Shown(j, first));
      assert Outcome(j) == Blocked(j.request, VerdictOf(j.fs[first], j.hook, Shown(j, first)));
    }
  }

  // ---- Annotations ----

  function Note(message: Json, key: string): Option<Json> {
    Get(Index(Index(message, "params"), "_meta"), key)
  }

  /** What stage `n` annotates `key` with, if it does. */
  ghost function Annotates(j: Job, n: nat, key: string): Option<Json> {
    if n < |j.fs| && Cares(j, n) && GetStr(Says(j, n), "kind") == Some("annotate")
    then Get(Index(Says(j, n), "provenance"), key)
    else None
  }

  /** The last of the first `n` stages to annotate `key` decides it, and what the
      request said stands when none does. */
  ghost function LastNote(j: Job, n: nat, key: string): Option<Json> {
    if n == 0 then Note(j.request, key)
    else if Annotates(j, n - 1, key).Some? then Annotates(j, n - 1, key)
    else LastNote(j, n - 1, key)
  }

  lemma ApplyNotes(verdict: Json, message: Json, key: string)
    ensures Note(ApplyOne(verdict, message), key) ==
      if GetStr(verdict, "kind") == Some("annotate") && Get(Index(verdict, "provenance"), key).Some?
      then Get(Index(verdict, "provenance"), key) else Note(message, key)
  {
  }

  lemma NotesNext(j: Job, n: nat, key: string)
    ensures Note(Shown(j, n + 1), key) ==
      if Annotates(j, n, key).Some? then Annotates(j, n, key) else Note(Shown(j, n), key)
  {
    ShownNext(j, n);
    ApplyNotes(Says(j, n), Shown(j, n), key);
  }

  /** Annotations gather in `params._meta`: each key as the last filter to annotate
      it did, every other as the request had it. */
  lemma {:induction false} NotesAreTheLast(j: Job, n: nat, key: string)
    ensures Note(Shown(j, n), key) == LastNote(j, n, key)
  {
    if n > 0 {
      NotesAreTheLast(j, n - 1, key);
      NotesNext(j, n - 1, key);
    }
  }

  // ---- A pooled call ----

  /** A pooled call ends with the chain's own refusal, or at the handler and tool that
      its name says, with the arguments of the last mutating verdict (or its own, or
      none), or nowhere when no handler has that name. */
  lemma PooledExactly(handlers: set<string>, j: Job)
    ensures var (end, parts) := (Pooled(handlers, j), Namespace.Split(NameIn(j.request)));
      if exists k: nat {:trigger RefusesAt(j, k)} :: RefusesAt(j, k) then
        end == Refused(Index(Outcome(j), "response"))
      else if parts.Some? && parts.value.0 in handlers then
        var arguments := LastArguments(Machine(j), |j.fs|);
        end == To(parts.value.0, parts.value.1, if arguments.Some? then arguments.value else Obj(map[]))
      else end == NotFound
  {
    FirstRefusalDecides(j);
    ShownKeepsCall(j, |j.fs|);
    SameName(Shown(j, |j.fs|), j.request);
    ArgumentsAreTheLast(j, |j.fs|);
  }

  // ---- The content types present ----

  /** The item or resource declares this content type where blocks look for it. */
  ghost predicate Declares(message: Json, mime: string) {
    || (exists i, item {:trigger Payloads.ItemAt(message, "content", i, item)} ::
          Payloads.ItemAt(message, "content", i, item) && ItemDeclares(item, mime))
    || (exists i, item {:trigger Payloads.ItemAt(message, "contents", i, item)} ::
          Payloads.ItemAt(message, "contents", i, item) && ResourceDeclares(item, mime))
  }

  ghost predicate ItemDeclares(item: Json, mime: string) {
    var kind := GetStr(item, "type");
    || ((kind == Some("image") || kind == Some("audio") || kind == Some("resource_link"))
        && GetStr(item, "mimeType") == Some(mime))
    || (kind == Some("resource") && ResourceDeclares(Index(item, "resource"), mime))
  }

  ghost predicate ResourceDeclares(resource: Json, mime: string) {
    (Get(resource, "text").Some? || Get(resource, "blob").Some?) && GetStr(resource, "mimeType") == Some(mime)
  }

  lemma ItemMime(i: nat, item: Json, mime: string)
    ensures (|Content.ContentBlock(i, item)| == 1 && Content.ContentBlock(i, item)[0].mime == Str(mime)) <==>
      ItemDeclares(item, mime)
  {
  }

  lemma EntryMime(i: nat, entry: Json, mime: string)
    ensures (|Content.ResourceBlock(i, entry)| == 1 && Content.ResourceBlock(i, entry)[0].mime == Str(mime)) <==>
      ResourceDeclares(entry, mime)
  {
  }

  /** A content type is present exactly when an image, audio item, resource link or
      inline resource declares it. */
  lemma TypesPresentExactly(message: Json, mime: string)
    ensures (exists b :: b in Content.Blocks(message) && b.mime == Str(mime)) <==> Declares(message, mime)
  {
    if b :| b in Content.Blocks(message) && b.mime == Str(mime) {
      var k :| 0 <= k < |Content.Blocks(message)| && Content.Blocks(message)[k] == b;
      var list, i := Payloads.BlockOrigin(message, k);
      var item := Content.ItemsOf(message, list)[i];
      Payloads.ItemAtIs(message, list, i, item);
      ItemMime(i, item, mime);
      EntryMime(i, item, mime);
    }
    if i, item :| Payloads.ItemAt(message, "content", i, item) && ItemDeclares(item, mime) {
      ItemMime(i, item, mime);
      var k := Payloads.BlockOf(message, "content", i, item);
    }
    if i, item :| Payloads.ItemAt(message, "contents", i, item) && ResourceDeclares(item, mime) {
      EntryMime(i, item, mime);
      var k := Payloads.BlockOf(message, "contents", i, item);
    }
  }
}
