/** Slots in a JSON tree: reading, overwriting, and what an overwrite leaves alone. */
module JsonPath {
  import opened Prelude
  import opened JsonValue

  datatype Seg = Key(key: string) | Elem(index: nat)
  type Path = seq<Seg>

  /** `navigate_mut`: the value the path leads to, if every step exists. */
  function At(v: Json, path: Path): Option<Json> {
    if path == [] then Some(v)
    else
      match path[0]
      case Key(k) => if v.Obj? && k in v.fields then At(v.fields[k], path[1..]) else None
      case Elem(i) => if v.Arr? && i < |v.items| then At(v.items[i], path[1..]) else None
  }

  /** Overwrite the slot at `path`; a path that leads nowhere changes nothing. */
  function Set(v: Json, path: Path, x: Json): Json {
    if path == [] then x
    else
      match path[0]
      case Key(k) =>
        if v.Obj? && k in v.fields then Obj(v.fields[k := Set(v.fields[k], path[1..], x)]) else v
      case Elem(i) =>
        if v.Arr? && i < |v.items| then Arr(v.items[i := Set(v.items[i], path[1..], x)]) else v
  }

  /** What one node shows of itself, its children aside. */
  datatype Sight = Missing | Leaf(value: Json) | Items(count: nat) | Keys(keys: set<string>)

  function Face(v: Json): Sight {
    match v
    case Arr(items) => Items(|items|)
    case Obj(fields) => Keys(fields.Keys)
    case _ => Leaf(v)
  }

  function Sees(v: Json, path: Path): Sight {
    match At(v, path)
    case None => Missing
    case Some(w) => Face(w)
  }

  /** The slot that was written holds what was written. */
  lemma {:induction false} SetHolds(v: Json, path: Path, x: Json)
    ensures if At(v, path).Some? then At(Set(v, path, x), path) == Some(x) else Set(v, path, x) == v
    decreases |path|
  {
    if path != [] {
      match path[0]
      case Key(k) => if v.Obj? && k in v.fields { SetHolds(v.fields[k], path[1..], x); }
      case Elem(i) => if v.Arr? && i < |v.items| { SetHolds(v.items[i], path[1..], x); }
    }
  }

  /** Every node that is not at or below the slot looks as it did. */
  lemma {:induction false} SetFrame(v: Json, path: Path, x: Json, other: Path)
    requires !(path <= other)
    ensures Sees(Set(v, path, x), other) == Sees(v, other)
    decreases |path|
  {
    var w := Set(v, path, x);
    if other == [] {
      SetKeepsFace(v, path, x);
    } else if path[0] == other[0] {
      PrefixTails(path, other);
      match path[0]
      case Key(k) => if v.Obj? && k in v.fields { SetFrame(v.fields[k], path[1..], x, other[1..]); }
      case Elem(i) => if v.Arr? && i < |v.items| { SetFrame(v.items[i], path[1..], x, other[1..]); }
    }
  }

  lemma PrefixTails<T>(a: seq<T>, b: seq<T>)
    requires a != [] && b != [] && a[0] == b[0]
    ensures a <= b <==> a[1..] <= b[1..]
  {
    assert a == [a[0]] + a[1..] && b == [b[0]] + b[1..];
  }

  lemma SetKeepsFace(v: Json, path: Path, x: Json)
    requires path != []
    ensures Face(Set(v, path, x)) == Face(v)
  {
  }

  /** The faces at every path determine the tree, so `SetFrame` misses nothing. */
  lemma {:induction false} FacesDetermine(a: Json, b: Json)
    requires forall path: Path :: Sees(a, path) == Sees(b, path)
    ensures a == b
    decreases a
  {
    assert Sees(a, []) == Sees(b, []);
    match a
    case Arr(items) =>
      forall i | 0 <= i < |items| ensures items[i] == b.items[i] {
        forall path: Path ensures Sees(items[i], path) == Sees(b.items[i], path) {
          StepDown(a, b, Elem(i), path);
        }
        FacesDetermine(items[i], b.items[i]);
      }
      assert items == b.items;
    case Obj(fields) =>
      forall k | k in fields ensures fields[k] == b.fields[k] {
        forall path: Path ensures Sees(fields[k], path) == Sees(b.fields[k], path) {
          StepDown(a, b, Key(k), path);
        }
        FacesDetermine(fields[k], b.fields[k]);
      }
      assert fields == b.fields;
    case _ =>
  }

  lemma StepDown(a: Json, b: Json, seg: Seg, path: Path)
    requires Sees(a, [seg] + path) == Sees(b, [seg] + path)
    ensures seg.Key? && a.Obj? && b.Obj? && seg.key in a.fields && seg.key in b.fields ==>
      Sees(a.fields[seg.key], path) == Sees(b.fields[seg.key], path)
    ensures seg.Elem? && a.Arr? && b.Arr? && seg.index < |a.items| && seg.index < |b.items| ==>
      Sees(a.items[seg.index], path) == Sees(b.items[seg.index], path)
  {
    assert ([seg] + path)[1..] == path;
  }

  lemma {:induction false} AtConcat(v: Json, p: Path, q: Path)
    ensures At(v, p + q) == if At(v, p).Some? then At(At(v, p).value, q) else None
    decreases |p|
  {
    if p == [] {
      assert p + q == q;
    } else {
      assert (p + q)[1..] == p[1..] + q;
      match p[0]
      case Key(k) => if v.Obj? && k in v.fields { AtConcat(v.fields[k], p[1..], q); }
      case Elem(i) => if v.Arr? && i < |v.items| { AtConcat(v.items[i], p[1..], q); }
    }
  }

  lemma {:induction false} SetConcat(v: Json, p: Path, q: Path, x: Json)
    requires At(v, p).Some?
    ensures Set(v, p + q, x) == Set(v, p, Set(At(v, p).value, q, x))
    decreases |p|
  {
    if p == [] {
      assert p + q == q;
    } else {
      assert (p + q)[1..] == p[1..] + q;
      match p[0]
      case Key(k) => SetConcat(v.fields[k], p[1..], q, x);
      case Elem(i) => SetConcat(v.items[i], p[1..], q, x);
    }
  }
}
