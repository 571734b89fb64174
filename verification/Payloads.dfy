/** Which payloads a message carries inline, read off the message alone, and that
    the block list finds each of them once, in order, and no other. */
module Payloads {
  import opened Prelude
  import opened JsonValue
  import opened JsonPath
  import opened Content
  import Base64
  import Hex

  datatype Carried = Words(s: string) | Octets(b: seq<byte>)

  /** The string field `key` holds base64 of these bytes. */
  ghost predicate Encodes(v: Json, key: string, carried: Carried) {
    carried.Octets? && GetStr(v, key).Some? && Base64.Decode(GetStr(v, key).value) == Some(carried.b)
  }

  ghost predicate Says(v: Json, key: string, carried: Carried) {
    carried.Words? && GetStr(v, key) == Some(carried.s)
  }

  /** A resource carries its text, or else its blob. */
  ghost predicate ResourceCarries(resource: Json, key: string, carried: Carried) {
    || (key == "text" && Says(resource, "text", carried))
    || (key == "blob" && Get(resource, "text").None? && Encodes(resource, "blob", carried))
  }

  /** What is known of a payload besides its place and content. */
  datatype Tag = Tag(kind: string, mime: Json, uri: Json)

  /** `v[key]`, or null. */
  function Field(v: Json, key: string): Json {
    if Get(v, key).Some? then Get(v, key).value else Null
  }

  /** A resource carries this payload at `tail`. */
  ghost predicate EntryCarries(entry: Json, tail: Path, tag: Tag, carried: Carried) {
    && tag == Tag("resource", Field(entry, "mimeType"), Field(entry, "uri"))
    && |tail| == 1 && tail[0].Key? && ResourceCarries(entry, tail[0].key, carried)
  }

  /** An item of `result.content` carries this payload at `tail`. */
  ghost predicate ItemCarries(item: Json, tail: Path, tag: Tag, carried: Carried) {
    match GetStr(item, "type")
    case None => false
    case Some(kind) =>
      || (kind == "text" && tail == [Key("text")] && tag == Tag("text", Null, Null) && Says(item, "text", carried))
      || ((kind == "image" || kind == "audio") && tail == [Key("data")]
          && tag == Tag(kind, Field(item, "mimeType"), Null) && Encodes(item, "data", carried))
      || (kind == "resource" && |tail| == 2 && tail[0] == Key("resource")
          && EntryCarries(Field(item, "resource"), tail[1..], tag, carried))
  }

  /** Item `i` of the array `result[list]`. */
  ghost predicate ItemAt(message: Json, list: string, i: nat, item: Json) {
    At(message, [Key("result"), Key(list), Elem(i)]) == Some(item)
  }

  /** The message carries this payload in item `i` of that list, below `tail`. */
  ghost predicate Carries(message: Json, list: string, i: nat, tail: Path, tag: Tag, carried: Carried) {
    exists item :: ItemAt(message, list, i, item) &&
      ((list == "content" && ItemCarries(item, tail, tag, carried)) ||
       (list == "contents" && EntryCarries(item, tail, tag, carried)))
  }

  /** The block describes that payload. */
  predicate Describes(b: Block, path: Path, tag: Tag, carried: Carried) {
    && b.path == path && b.kind == tag.kind && b.mime == tag.mime && b.uri == tag.uri
    && match carried
       case Words(s) => b.text == Str(s) && b.bytes == Null
       case Octets(o) => b.text == Null && b.bytes == Str(Hex.ToHex(o))
  }

  // ---- One item ----

  lemma EntryDescribed(i: nat, entry: Json, tail: Path, tag: Tag, carried: Carried)
    requires EntryCarries(entry, tail, tag, carried)
    ensures |ResourceBlock(i, entry)| == 1
    ensures Describes(ResourceBlock(i, entry)[0], ResourceBase(i) + tail, tag, carried)
  {
  }

  lemma EntryFound(i: nat, entry: Json) returns (tail: Path, tag: Tag, carried: Carried)
    requires |ResourceBlock(i, entry)| == 1 && HasPayload(ResourceBlock(i, entry)[0])
    ensures EntryCarries(entry, tail, tag, carried)
    ensures Describes(ResourceBlock(i, entry)[0], ResourceBase(i) + tail, tag, carried)
  {
    tag := Tag("resource", Field(entry, "mimeType"), Field(entry, "uri"));
    if Get(entry, "text").Some? {
      tail, carried := [Key("text")], Words(Get(entry, "text").value.s);
      assert ResourceCarries(entry, "text", carried);
    } else {
      tail, carried := [Key("blob")], Octets(Base64.Decode(Get(entry, "blob").value.s).value);
      assert ResourceCarries(entry, "blob", carried);
    }
  }

  lemma ItemDescribed(i: nat, item: Json, tail: Path, tag: Tag, carried: Carried)
    requires ItemCarries(item, tail, tag, carried)
    ensures |ContentBlock(i, item)| == 1
    ensures Describes(ContentBlock(i, item)[0], ContentBase(i) + tail, tag, carried)
  {
  }

  lemma ItemFound(i: nat, item: Json) returns (tail: Path, tag: Tag, carried: Carried)
    requires |ContentBlock(i, item)| == 1 && HasPayload(ContentBlock(i, item)[0])
    ensures ItemCarries(item, tail, tag, carried)
    ensures Describes(ContentBlock(i, item)[0], ContentBase(i) + tail, tag, carried)
  {
    var kind := GetStr(item, "type").value;
    if kind == "text" {
      tail, tag, carried := [Key("text")], Tag(kind, Null, Null), Words(Get(item, "text").value.s);
    } else if kind == "resource" {
      var resource := Field(item, "resource");
      tag := Tag(kind, Field(resource, "mimeType"), Field(resource, "uri"));
      if Get(resource, "text").Some? {
        tail, carried := [Key("resource"), Key("text")], Words(Get(resource, "text").value.s);
        assert ResourceCarries(resource, "text", carried);
      } else {
        tail := [Key("resource"), Key("blob")];
        carried := Octets(Base64.Decode(Get(resource, "blob").value.s).value);
        assert ResourceCarries(resource, "blob", carried);
      }
    } else {
      tail, tag := [Key("data")], Tag(kind, Field(item, "mimeType"), Null);
      carried := Octets(Base64.Decode(Get(item, "data").value.s).value);
    }
  }

  // ---- The lists ----

  lemma StepByKey(v: Json, key: string, path: Path)
    ensures At(v, [Key(key)] + path) == if v.Obj? && key in v.fields then At(v.fields[key], path) else None
  {
    assert ([Key(key)] + path)[1..] == path;
  }

  lemma ItemAtIs(message: Json, list: string, i: nat, item: Json)
    ensures ItemAt(message, list, i, item) <==> i < |ItemsOf(message, list)| && ItemsOf(message, list)[i] == item
  {
    var result := Index(message, "result");
    var held := Index(result, list);
    assert [Key("result"), Key(list), Elem(i)] == [Key("result")] + [Key(list), Elem(i)];
    assert [Key(list), Elem(i)] == [Key(list)] + [Elem(i)];
    StepByKey(message, "result", [Key(list), Elem(i)]);
    StepByKey(result, list, [Elem(i)]);
    assert At(held, [Elem(i)]) == if held.Arr? && i < |held.items| then Some(held.items[i]) else None by {
      assert [Elem(i)][1..] == [];
    }
  }

  lemma {:induction false} GatherGrows(f: (nat, Json) -> seq<Block>, items: seq<Json>, i: nat, n: nat)
    requires i <= n <= |items|
    ensures |Gather(f, items, i)| <= |Gather(f, items, n)|
  {
    if i < n {
      GatherGrows(f, items, i, n - 1);
    }
  }

  /** Item `i`'s one block stands behind those of the items before it. */
  lemma {:induction false} GatherAt(f: (nat, Json) -> seq<Block>, items: seq<Json>, n: nat, i: nat)
    requires i < n <= |items| && |f(i, items[i])| == 1
    ensures |Gather(f, items, i)| < |Gather(f, items, n)|
    ensures Gather(f, items, n)[|Gather(f, items, i)|] == f(i, items[i])[0]
  {
    if i < n - 1 {
      GatherAt(f, items, n - 1, i);
    }
  }

  /** Where the blocks of an array stand in the block list. */
  function Offset(message: Json, list: string): nat {
    if list == "contents" then |GatherAll(ContentBlock, ItemsOf(message, "content"))| else 0
  }

  function Reader(list: string): (nat, Json) -> seq<Block> {
    if list == "contents" then ResourceBlock else ContentBlock
  }

  lemma BlocksAt(message: Json, list: string, k: nat)
    requires list == "content" || list == "contents"
    requires k < |GatherAll(Reader(list), ItemsOf(message, list))|
    ensures Offset(message, list) + k < |Blocks(message)|
    ensures Blocks(message)[Offset(message, list) + k] == GatherAll(Reader(list), ItemsOf(message, list))[k]
  {
  }

  /** Every block comes from one item of one of the two arrays. */
  lemma BlockOrigin(message: Json, k: nat) returns (list: string, i: nat)
    requires k < |Blocks(message)|
    ensures list == "content" || list == "contents"
    ensures i < |ItemsOf(message, list)| && Reader(list)(i, ItemsOf(message, list)[i]) == [Blocks(message)[k]]
    ensures k == Offset(message, list) + |Gather(Reader(list), ItemsOf(message, list), i)|
  {
    var first := |GatherAll(ContentBlock, ItemsOf(message, "content"))|;
    if k < first {
      list := "content";
      i := GatherOrigin(ContentBlock, ItemsOf(message, list), |ItemsOf(message, list)|, k);
    } else {
      list := "contents";
      i := GatherOrigin(ResourceBlock, ItemsOf(message, list), |ItemsOf(message, list)|, k - first);
    }
  }

  /** An item with one block has it in the list. */
  lemma BlockOf(message: Json, list: string, i: nat, item: Json) returns (k: nat)
    requires list == "content" || list == "contents"
    requires ItemAt(message, list, i, item) && |Reader(list)(i, item)| == 1
    ensures k < |Blocks(message)| && Blocks(message)[k] == Reader(list)(i, item)[0]
  {
    ItemAtIs(message, list, i, item);
    var items := ItemsOf(message, list);
    GatherAt(Reader(list), items, |items|, i);
    k := |Gather(Reader(list), items, i)|;
    BlocksAt(message, list, k);
    k := Offset(message, list) + k;
  }

  // ---- Main results ----

  lemma CarrierIsDescribed(message: Json, list: string, i: nat, tail: Path, tag: Tag, carried: Carried)
      returns (item: Json)
    requires Carries(message, list, i, tail, tag, carried)
    ensures (list == "content" || list == "contents") && ItemAt(message, list, i, item)
    ensures |Reader(list)(i, item)| == 1
    ensures Describes(Reader(list)(i, item)[0], [Key("result"), Key(list), Elem(i)] + tail, tag, carried)
  {
    item :| ItemAt(message, list, i, item) &&
      ((list == "content" && ItemCarries(item, tail, tag, carried)) ||
       (list == "contents" && EntryCarries(item, tail, tag, carried)));
    if list == "content" {
      ItemDescribed(i, item, tail, tag, carried);
    } else {
      EntryDescribed(i, item, tail, tag, carried);
    }
  }

  /** Every payload the message carries inline has a block of its own: with its
      path, its kind, its text or its bytes in hex, and the mime type and uri that
      stand beside it. */
  lemma PayloadIsListed(message: Json, list: string, i: nat, tail: Path, tag: Tag, carried: Carried) returns (k: nat)
    requires Carries(message, list, i, tail, tag, carried)
    ensures k < |Blocks(message)| && HasPayload(Blocks(message)[k])
    ensures Describes(Blocks(message)[k], [Key("result"), Key(list), Elem(i)] + tail, tag, carried)
  {
    var item := CarrierIsDescribed(message, list, i, tail, tag, carried);
    k := BlockOf(message, list, i, item);
  }

  /** And every block with a payload is such a payload. */
  lemma ListedIsPayload(message: Json, k: nat)
      returns (list: string, i: nat, tail: Path, tag: Tag, carried: Carried)
    requires k < |Blocks(message)| && HasPayload(Blocks(message)[k])
    ensures Carries(message, list, i, tail, tag, carried)
    ensures Describes(Blocks(message)[k], [Key("result"), Key(list), Elem(i)] + tail, tag, carried)
  {
    list, i := BlockOrigin(message, k);
    var item := ItemsOf(message, list)[i];
    ItemAtIs(message, list, i, item);
    if list == "content" {
      tail, tag, carried := ItemFound(i, item);
    } else {
      tail, tag, carried := EntryFound(i, item);
    }
  }

  /** One place in the message comes before another: `content` before `contents`,
      and an earlier item before a later one. */
  predicate Before(p: Path, q: Path) {
    && |p| >= 3 && |q| >= 3 && p[2].Elem? && q[2].Elem?
    && ((p[1] == Key("content") && q[1] == Key("contents")) || (p[1] == q[1] && p[2].index < q[2].index))
  }

  lemma BlockPath(list: string, i: nat, item: Json)
    requires |Reader(list)(i, item)| == 1
    ensures [Key("result"), Key(if list == "contents" then list else "content"), Elem(i)] <=
      Reader(list)(i, item)[0].path
  {
  }

  /** The blocks stand in the order of the items they describe, so no item has two. */
  lemma BlocksInOrder(message: Json, k: nat, m: nat)
    requires k < m < |Blocks(message)|
    ensures Before(Blocks(message)[k].path, Blocks(message)[m].path)
  {
    var list, i := BlockOrigin(message, k);
    var list', j := BlockOrigin(message, m);
    BlockPath(list, i, ItemsOf(message, list)[i]);
    BlockPath(list', j, ItemsOf(message, list')[j]);
    if list == list' && j <= i {
      GatherGrows(Reader(list), ItemsOf(message, list), j, i);
    }
    if list == "contents" && list' == "content" {
      GatherAt(ContentBlock, ItemsOf(message, "content"), |ItemsOf(message, "content")|, j);
    }
  }
}
