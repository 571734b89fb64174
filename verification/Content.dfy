/** Typed content blocks: one descriptor per block of a message, each with the
    path to its payload, and the two writers that go through that path. */
module Content {
  import opened Prelude
  import opened JsonValue
  import opened JsonPath
  import Base64
  import Hex

  datatype Block = Block(kind: string, path: Path, mime: Json, uri: Json, text: Json, bytes: Json)

  /** Base64 in a string field, as lowercase hex; null when it does not decode. */
  function BytesField(value: Option<Json>): (j: Json)
    ensures j.Null? || j.Str?
  {
    if value.Some? && value.value.Str? && Base64.Decode(value.value.s).Some?
    then Str(Hex.ToHex(Base64.Decode(value.value.s).value))
    else Null
  }

  function ContentBase(index: nat): Path {
    [Key("result"), Key("content"), Elem(index)]
  }

  function ResourceBase(index: nat): Path {
    [Key("result"), Key("contents"), Elem(index)]
  }

  function Embedded(index: nat, resource: Json): seq<Block> {
    var base := ContentBase(index) + [Key("resource")];
    var uri, mime := OrNull(Get(resource, "uri")), OrNull(Get(resource, "mimeType"));
    if Get(resource, "text").Some? then
      [Block("resource", base + [Key("text")], mime, uri, Get(resource, "text").value, Null)]
    else if Get(resource, "blob").Some? then
      [Block("resource", base + [Key("blob")], mime, uri, Null, BytesField(Get(resource, "blob")))]
    else []
  }

  function ContentBlock(index: nat, item: Json): (blocks: seq<Block>)
    ensures |blocks| <= 1
  {
    var base := ContentBase(index);
    match GetStr(item, "type")
    case None => [Block("unknown", base, Null, Null, Null, Null)]
    case Some(kind) =>
      if kind == "text" then
        [Block("text", base + [Key("text")], Null, Null, OrNull(Get(item, "text")), Null)]
      else if kind == "image" || kind == "audio" then
        [Block(kind, base + [Key("data")], OrNull(Get(item, "mimeType")), Null, Null, BytesField(Get(item, "data")))]
      else if kind == "resource_link" then
        [Block(kind, base + [Key("uri")], OrNull(Get(item, "mimeType")), OrNull(Get(item, "uri")), Null, Null)]
      else if kind == "resource" then
        Embedded(index, Index(item, "resource"))
      else
        [Block("unknown", base, Null, Null, Null, Null)]
  }

  function ResourceBlock(index: nat, item: Json): (blocks: seq<Block>)
    ensures |blocks| <= 1
  {
    var uri, mime := OrNull(Get(item, "uri")), OrNull(Get(item, "mimeType"));
    if Get(item, "text").Some? then
      [Block("resource", ResourceBase(index) + [Key("text")], mime, uri, Get(item, "text").value, Null)]
    else if Get(item, "blob").Some? then
      [Block("resource", ResourceBase(index) + [Key("blob")], mime, uri, Null, BytesField(Get(item, "blob")))]
    else []
  }

  /** The array `message.result[key]`, or nothing. */
  function ItemsOf(message: Json, key: string): seq<Json> {
    var items := GetArr(Index(message, "result"), key);
    if items.Some? then items.value else []
  }

  /** The blocks of the first `n` items. */
  function Gather(f: (nat, Json) -> seq<Block>, items: seq<Json>, n: nat): seq<Block>
    requires n <= |items|
  {
    if n == 0 then [] else Gather(f, items, n - 1) + f(n - 1, items[n - 1])
  }

  function GatherAll(f: (nat, Json) -> seq<Block>, items: seq<Json>): seq<Block> {
    Gather(f, items, |items|)
  }

  function Blocks(message: Json): seq<Block> {
    GatherAll(ContentBlock, ItemsOf(message, "content")) + GatherAll(ResourceBlock, ItemsOf(message, "contents"))
  }

  method BlocksLoop(message: Json) returns (out: seq<Block>)
    ensures out == Blocks(message)
  {
    out := [];
    var items := ItemsOf(message, "content");
    for i := 0 to |items|
      invariant out == Gather(ContentBlock, items, i)
    {
      out := out + ContentBlock(i, items[i]);
    }
    ghost var first := out;
    items := ItemsOf(message, "contents");
    for i := 0 to |items|
      invariant out == first + Gather(ResourceBlock, items, i)
    {
      var block := ResourceBlock(i, items[i]);
      assert (first + Gather(ResourceBlock, items, i)) + block == first + (Gather(ResourceBlock, items, i) + block);
      out := out + block;
    }
  }

  function SetText(message: Json, path: Path, text: string): Json {
    Set(message, path, Str(text))
  }

  function SetBytes(message: Json, path: Path, bytes: seq<byte>): Json {
    Set(message, path, Str(Base64.Encode(bytes)))
  }

  lemma BytesFieldOfEncoded(bytes: seq<byte>)
    ensures BytesField(Some(Str(Base64.Encode(bytes)))) == Str(Hex.ToHex(bytes))
  {
    Base64.DecodeUndoesEncode(bytes);
  }

  // ---- Writing through a block's path ----

  /** The block after its payload slot holds the string `s`. */
  function Reread(b: Block, s: string): Block {
    if b.bytes.Str? then b.(bytes := BytesField(Some(Str(s)))) else b.(text := Str(s))
  }

  predicate HasPayload(b: Block) {
    b.bytes.Str? || b.text.Str?
  }

  /** `tail` leads from the item to the payload of its one block, and writing a
      string there changes that block's payload and nothing else about it. */
  ghost predicate WritesThrough(f: (nat, Json) -> seq<Block>, base: Path, i: nat, item: Json, tail: Path, s: string) {
    && |f(i, item)| == 1
    && f(i, item)[0].path == base + tail
    && f(i, Set(item, tail, Str(s))) == [Reread(f(i, item)[0], s)]
  }

  lemma SetOneKey(v: Json, k: string, x: Json)
    ensures Set(v, [Key(k)], x) == if v.Obj? && k in v.fields then Obj(v.fields[k := x]) else v
  {
    assert [Key(k)][1..] == [];
  }

  lemma SetTwoKeys(v: Json, k: string, l: string, x: Json)
    ensures Set(v, [Key(k), Key(l)], x) ==
      if v.Obj? && k in v.fields then Obj(v.fields[k := Set(v.fields[k], [Key(l)], x)]) else v
  {
    assert [Key(k), Key(l)][1..] == [Key(l)];
  }

  lemma ResourceWrites(i: nat, item: Json, s: string) returns (tail: Path)
    requires |ResourceBlock(i, item)| == 1 && HasPayload(ResourceBlock(i, item)[0])
    ensures WritesThrough(ResourceBlock, ResourceBase(i), i, item, tail, s)
  {
    if Get(item, "text").Some? {
      tail := [Key("text")];
      SetOneKey(item, "text", Str(s));
    } else {
      tail := [Key("blob")];
      SetOneKey(item, "blob", Str(s));
    }
  }

  lemma EmbeddedWrites(i: nat, resource: Json, s: string) returns (k: string)
    requires |Embedded(i, resource)| == 1 && HasPayload(Embedded(i, resource)[0])
    ensures Embedded(i, resource)[0].path == ContentBase(i) + [Key("resource"), Key(k)]
    ensures Embedded(i, Set(resource, [Key(k)], Str(s))) == [Reread(Embedded(i, resource)[0], s)]
  {
    if Get(resource, "text").Some? {
      k := "text";
      SetOneKey(resource, "text", Str(s));
    } else {
      k := "blob";
      SetOneKey(resource, "blob", Str(s));
    }
  }

  lemma ContentWrites(i: nat, item: Json, s: string) returns (tail: Path)
    requires |ContentBlock(i, item)| == 1 && HasPayload(ContentBlock(i, item)[0])
    ensures WritesThrough(ContentBlock, ContentBase(i), i, item, tail, s)
  {
    var kind := GetStr(item, "type").value;
    if kind == "text" {
      tail := [Key("text")];
      SetOneKey(item, "text", Str(s));
    } else if kind == "resource" {
      var resource := Index(item, "resource");
      var k := EmbeddedWrites(i, resource, s);
      tail := [Key("resource"), Key(k)];
      SetTwoKeys(item, "resource", k, Str(s));
    } else {
      tail := [Key("data")];
      SetOneKey(item, "data", Str(s));
    }
  }

  // ---- Updating one item updates one block ----

  lemma {:induction false} GatherSame(f: (nat, Json) -> seq<Block>, a: seq<Json>, b: seq<Json>, n: nat)
    requires n <= |a| && n <= |b| && forall i :: 0 <= i < n ==> a[i] == b[i]
    ensures Gather(f, a, n) == Gather(f, b, n)
  {
    if n > 0 {
      GatherSame(f, a, b, n - 1);
    }
  }

  lemma {:induction false} GatherUpdate(f: (nat, Json) -> seq<Block>, items: seq<Json>, n: nat, i: nat, item: Json)
    requires i < n <= |items| && |f(i, items[i])| == 1 && |f(i, item)| == 1
    ensures |Gather(f, items, i)| < |Gather(f, items, n)|
    ensures Gather(f, items[i := item], n) == Gather(f, items, n)[|Gather(f, items, i)| := f(i, item)[0]]
  {
    var items' := items[i := item];
    if i == n - 1 {
      GatherSame(f, items, items', i);
    } else {
      GatherUpdate(f, items, n - 1, i, item);
      UpdateLeft(Gather(f, items, n - 1), f(n - 1, items[n - 1]), |Gather(f, items, i)|, f(i, item)[0]);
    }
  }

  /** Every block comes from one item. */
  lemma {:induction false} GatherOrigin(f: (nat, Json) -> seq<Block>, items: seq<Json>, n: nat, k: nat) returns (i: nat)
    requires n <= |items| && k < |Gather(f, items, n)|
    requires forall j: nat, v {:trigger f(j, v)} :: |f(j, v)| <= 1
    ensures i < n && |Gather(f, items, i)| == k && f(i, items[i]) == [Gather(f, items, n)[k]]
  {
    if k < |Gather(f, items, n - 1)| {
      i := GatherOrigin(f, items, n - 1, k);
    } else {
      i := n - 1;
    }
  }

  /** Overwriting below item `i` of one array replaces that item and leaves the
      other array, and every other item, alone. */
  lemma SetItem(message: Json, key: string, i: nat, tail: Path, x: Json)
    requires i < |ItemsOf(message, key)|
    ensures var message' := Set(message, [Key("result"), Key(key), Elem(i)] + tail, x);
      && ItemsOf(message', key) == ItemsOf(message, key)[i := Set(ItemsOf(message, key)[i], tail, x)]
      && forall other: string :: other != key ==> ItemsOf(message', other) == ItemsOf(message, other)
  {
    var result := message.fields["result"];
    var items := ItemsOf(message, key);
    var y := Set(items[i], tail, x);
    var base := [Key("result"), Key(key), Elem(i)];
    ReachItem(result, key, i, y);
    assert base[1..] == [Key(key), Elem(i)];
    assert At(message, base) == Some(items[i]);
    SetConcat(message, base, tail, x);
  }

  lemma ReachItem(result: Json, key: string, i: nat, y: Json)
    requires result.Obj? && key in result.fields && result.fields[key].Arr? && i < |result.fields[key].items|
    ensures At(result, [Key(key), Elem(i)]) == Some(result.fields[key].items[i])
    ensures Set(result, [Key(key), Elem(i)], y) == Obj(result.fields[key := Arr(result.fields[key].items[i := y])])
  {
    var arr := result.fields[key];
    assert [Key(key), Elem(i)][1..] == [Elem(i)] && [Elem(i)][1..] == [];
    assert At(arr, [Elem(i)]) == Some(arr.items[i]);
    assert Set(arr, [Elem(i)], y) == Arr(arr.items[i := y]);
  }

  lemma WriteThroughItem(f: (nat, Json) -> seq<Block>, message: Json, key: string, i: nat, tail: Path, s: string)
    requires i < |ItemsOf(message, key)|
    requires WritesThrough(f, [Key("result"), Key(key), Elem(i)], i, ItemsOf(message, key)[i], tail, s)
    ensures var items := ItemsOf(message, key);
      var b := f(i, items[i])[0];
      var message' := Set(message, b.path, Str(s));
      && |Gather(f, items, i)| < |GatherAll(f, items)|
      && GatherAll(f, ItemsOf(message', key)) == GatherAll(f, items)[|Gather(f, items, i)| := Reread(b, s)]
      && forall other: string :: other != key ==> ItemsOf(message', other) == ItemsOf(message, other)
  {
    var items := ItemsOf(message, key);
    SetItem(message, key, i, tail, Str(s));
    GatherUpdate(f, items, |items|, i, Set(items[i], tail, Str(s)));
  }

  lemma UpdateLeft<T>(a: seq<T>, b: seq<T>, k: nat, x: T)
    requires k < |a|
    ensures (a + b)[k := x] == a[k := x] + b
  {
  }

  lemma UpdateRight<T>(a: seq<T>, b: seq<T>, k: nat, x: T)
    requires k < |b|
    ensures (a + b)[|a| + k := x] == a + b[k := x]
  {
  }

  lemma WriteThroughContent(message: Json, k: nat, s: string)
    requires k < |GatherAll(ContentBlock, ItemsOf(message, "content"))|
    requires HasPayload(Blocks(message)[k])
    ensures Blocks(Set(message, Blocks(message)[k].path, Str(s))) ==
      Blocks(message)[k := Reread(Blocks(message)[k], s)]
  {
    var items := ItemsOf(message, "content");
    var i := GatherOrigin(ContentBlock, items, |items|, k);
    var tail := ContentWrites(i, items[i], s);
    WriteThroughItem(ContentBlock, message, "content", i, tail, s);
    var second := GatherAll(ResourceBlock, ItemsOf(message, "contents"));
    UpdateLeft(GatherAll(ContentBlock, items), second, k, Reread(Blocks(message)[k], s));
  }

  lemma WriteThroughContents(message: Json, k: nat, s: string)
    requires |GatherAll(ContentBlock, ItemsOf(message, "content"))| <= k < |Blocks(message)|
    requires HasPayload(Blocks(message)[k])
    ensures Blocks(Set(message, Blocks(message)[k].path, Str(s))) ==
      Blocks(message)[k := Reread(Blocks(message)[k], s)]
  {
    var items := ItemsOf(message, "contents");
    var first, second := GatherAll(ContentBlock, ItemsOf(message, "content")), GatherAll(ResourceBlock, items);
    var at := k - |first|;
    assert Blocks(message)[k] == second[at];
    var i := GatherOrigin(ResourceBlock, items, |items|, at);
    var tail := ResourceWrites(i, items[i], s);
    WriteThroughItem(ResourceBlock, message, "contents", i, tail, s);
    UpdateRight(first, second, at, Reread(second[at], s));
  }

  /** A payload written through a block's own path is read back in that block,
      and every other block stays as it was. */
  lemma WriteThroughPath(message: Json, k: nat, s: string)
    requires k < |Blocks(message)| && HasPayload(Blocks(message)[k])
    ensures Blocks(Set(message, Blocks(message)[k].path, Str(s))) ==
      Blocks(message)[k := Reread(Blocks(message)[k], s)]
  {
    if k < |GatherAll(ContentBlock, ItemsOf(message, "content"))| {
      WriteThroughContent(message, k, s);
    } else {
      WriteThroughContents(message, k, s);
    }
  }

  /** A block's binary form is null or a string, and a text block has none. */
  lemma BlockForms(message: Json, k: nat)
    requires k < |Blocks(message)|
    ensures var b := Blocks(message)[k]; (b.bytes.Null? || b.bytes.Str?) && (b.bytes.Str? ==> b.text.Null?)
    ensures HasPayload(Blocks(message)[k]) ==> Index(message, "result").Obj?
  {
    var content, contents := ItemsOf(message, "content"), ItemsOf(message, "contents");
    var first := GatherAll(ContentBlock, content);
    if k < |first| {
      var i := GatherOrigin(ContentBlock, content, |content|, k);
    } else {
      var i := GatherOrigin(ResourceBlock, contents, |contents|, k - |first|);
    }
  }
}
