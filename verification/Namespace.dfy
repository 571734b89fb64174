/** Labelling of names and URIs with a backend id, and its reversal. */
module Namespace {
  import opened Prelude

  /** `d` occurs in `s` at index `i`. */
  predicate At(s: string, d: string, i: int) {
    0 <= i && i + |d| <= |s| && s[i..i + |d|] == d
  }

  /** The index of the first occurrence of `d` at or after `from`. */
  function Find(s: string, d: string, from: nat): (r: Option<nat>)
    requires from <= |s|
    ensures r.Some? ==> from <= r.value && At(s, d, r.value) && forall j :: from <= j < r.value ==> !At(s, d, j)
    ensures r.None? ==> forall j :: from <= j ==> !At(s, d, j)
    decreases |s| - from
  {
    if At(s, d, from) then Some(from)
    else if from == |s| then None
    else Find(s, d, from + 1)
  }

  /** `s.split_once(d)`: around the first occurrence of `d`. */
  function SplitOnce(s: string, d: string): (r: Option<(string, string)>)
    ensures r.Some? ==> s == r.value.0 + d + r.value.1
    ensures r.None? <==> forall j :: !At(s, d, j)
  {
    match Find(s, d, 0)
    case None => None
    case Some(i) => Some((s[..i], s[i + |d|..]))
  }

  lemma SplitOnceAt(s: string, d: string, i: nat)
    requires At(s, d, i) && forall j :: 0 <= j < i ==> !At(s, d, j)
    ensures SplitOnce(s, d) == Some((s[..i], s[i + |d|..]))
  {
    assert Find(s, d, 0) == Some(i);
  }

  const DELIMITER := "__"

  predicate IdChar(c: char) {
    'a' <= c <= 'z' || 'A' <= c <= 'Z' || '0' <= c <= '9' || c == '_' || c == '-'
  }

  predicate ValidBackendId(id: string) {
    id != "" && SplitOnce(id, DELIMITER).None? && forall i :: 0 <= i < |id| ==> IdChar(id[i])
  }

  function Prefix(id: string, name: string): string {
    id + DELIMITER + name
  }

  function Split(name: string): Option<(string, string)> {
    match SplitOnce(name, DELIMITER)
    case None => None
    case Some((id, original)) => if id == "" || original == "" then None else Some((id, original))
  }

  predicate EndsInUnderscore(id: string) {
    id != "" && id[|id| - 1] == '_'
  }

  /** A valid id is recovered from a label exactly when it does not end in the
      delimiter's own character. */
  lemma SplitUndoesPrefix(id: string, name: string)
    requires ValidBackendId(id)
    ensures Split(Prefix(id, name)) == Some((id, name)) <==> name != "" && !EndsInUnderscore(id)
  {
    var s := Prefix(id, name);
    forall j | 0 <= j < |id| - 1 ensures !At(s, DELIMITER, j) {
      assert s[j..j + 2] == id[j..j + 2];
      assert !At(id, DELIMITER, j);
    }
    var n := |id| - 1;
    if EndsInUnderscore(id) {
      assert s[n] == '_' && s[n + 1] == '_';
      assert At(s, DELIMITER, n);
      SplitOnceAt(s, DELIMITER, n);
    } else {
      assert s[n..n + 2][0] == id[n];
      assert !At(s, DELIMITER, n);
      assert s[|id|..|id| + 2] == DELIMITER;
      SplitOnceAt(s, DELIMITER, |id|);
      assert s[|id| + 2..] == name;
    }
  }

  /** A name that splits is the label of its two parts. */
  lemma SplitIsLabel(name: string)
    requires Split(name).Some?
    ensures var (id, original) := Split(name).value;
      id != "" && original != "" && name == Prefix(id, original) && name[0] == id[0]
  {
  }

  /** Labels of different (id, name) pairs differ, even across backends. */
  lemma PrefixInjective(id: string, name: string, id': string, name': string)
    requires ValidBackendId(id) && ValidBackendId(id')
    requires !EndsInUnderscore(id) && !EndsInUnderscore(id')
    requires Prefix(id, name) == Prefix(id', name')
    ensures id == id' && name == name'
  {
    if name == "" || name' == "" {
      assert Prefix(id, name + "x") == Prefix(id, name) + "x" == Prefix(id', name' + "x");
      SplitUndoesPrefix(id, name + "x");
      SplitUndoesPrefix(id', name' + "x");
    } else {
      SplitUndoesPrefix(id, name);
      SplitUndoesPrefix(id', name');
    }
  }

  /** What an id ending in `_` does: the label is read back under another id. */
  lemma TrailingUnderscoreMisroutes()
    ensures ValidBackendId("a_") && Prefix("a_", "x") == Prefix("a", "_x")
    ensures Split(Prefix("a_", "x")) == Some(("a", "_x"))
  {
    assert "a_"[0] != '_';
    forall j ensures !At("a_", DELIMITER, j) {
      assert 0 <= j && j + 2 <= 2 ==> "a_"[j..j + 2][0] == "a_"[j];
    }
    var s := "a___x";
    assert s[0..2] == "a_" && s[1..3] == "__" && s[3..] == "_x";
    assert At(s, DELIMITER, 1);
    SplitOnceAt(s, DELIMITER, 1);
    assert s[..1] == "a";
  }

  // ---- URIs ----

  const SCHEME := "://"

  function PrefixUri(id: string, uri: string): string {
    match SplitOnce(uri, SCHEME)
    case None => uri
    case Some((scheme, rest)) =>
      match SplitOnce(rest, "/")
      case Some((authority, path)) => scheme + SCHEME + (authority + "/" + (id + "/" + path))
      case None => scheme + SCHEME + (rest + "/" + id)
  }

  function SplitUri(uri: string): Option<(string, string)> {
    match SplitOnce(uri, SCHEME)
    case None => None
    case Some((scheme, rest)) =>
      match SplitOnce(rest, "/")
      case None => None
      case Some((authority, path)) =>
        match SplitOnce(path, "/")
        case Some((id, remainder)) =>
          if id != "" then Some((id, scheme + SCHEME + (authority + "/" + remainder))) else None
        case None =>
          if path != "" then Some((path, scheme + SCHEME + authority)) else None
  }

  predicate SlashFree(s: string) {
    SplitOnce(s, "/").None?
  }

  predicate HasScheme(uri: string) {
    SplitOnce(uri, SCHEME).Some?
  }

  /** Replacing what follows the first scheme separator leaves it first. */
  lemma SchemeStays(uri: string, rest: string)
    requires HasScheme(uri)
    ensures SplitOnce(SplitOnce(uri, SCHEME).value.0 + SCHEME + rest, SCHEME)
         == Some((SplitOnce(uri, SCHEME).value.0, rest))
  {
    var scheme := SplitOnce(uri, SCHEME).value.0;
    var s := scheme + SCHEME + rest;
    forall j | 0 <= j < |scheme| ensures !At(s, SCHEME, j) {
      assert uri[..|scheme| + 3] == s[..|scheme| + 3];
      assert uri[j..j + 3] == uri[..|scheme| + 3][j..j + 3] == s[j..j + 3];
      assert !At(uri, SCHEME, j);
    }
    assert s[|scheme|..|scheme| + 3] == SCHEME;
    SplitOnceAt(s, SCHEME, |scheme|);
    assert s[|scheme| + 3..] == rest;
  }

  lemma SlashSplit(a: string, b: string)
    requires SlashFree(a)
    ensures SplitOnce(a + "/" + b, "/") == Some((a, b))
  {
    var s := a + "/" + b;
    forall j | 0 <= j < |a| ensures !At(s, "/", j) {
      assert s[j..j + 1] == a[j..j + 1];
      assert !At(a, "/", j);
    }
    assert s[|a|..|a| + 1] == "/";
    SplitOnceAt(s, "/", |a|);
    assert s[|a| + 1..] == b;
  }

  lemma SplitHeadSlashFree(s: string)
    requires SplitOnce(s, "/").Some?
    ensures SlashFree(SplitOnce(s, "/").value.0)
  {
    var a := SplitOnce(s, "/").value.0;
    forall j ensures !At(a, "/", j) {
      if At(a, "/", j) {
        assert s[j..j + 1] == a[j..j + 1];
        assert At(s, "/", j);
      }
    }
  }

  lemma {:induction false} SplitUriUndoesPrefixUri(id: string, uri: string)
    requires id != "" && SlashFree(id)
    ensures SplitUri(PrefixUri(id, uri)) == Some((id, uri)) <==> HasScheme(uri)
  {
    if HasScheme(uri) {
      var (scheme, rest) := SplitOnce(uri, SCHEME).value;
      match SplitOnce(rest, "/") {
        case Some((authority, path)) =>
          SchemeStays(uri, authority + "/" + (id + "/" + path));
          SplitHeadSlashFree(rest);
          SlashSplit(authority, id + "/" + path);
          SlashSplit(id, path);
          assert rest == authority + "/" + path;
        case None =>
          SchemeStays(uri, rest + "/" + id);
          SlashSplit(rest, id);
      }
    } else {
      assert SplitUri(uri).None?;
    }
  }

  /** The other direction: any URI that splits is the label of its parts. */
  lemma {:induction false} PrefixUriUndoesSplitUri(uri: string)
    requires SplitUri(uri).Some?
    ensures var (id, original) := SplitUri(uri).value;
            id != "" && SlashFree(id) && HasScheme(original) && PrefixUri(id, original) == uri
  {
    var (scheme, rest) := SplitOnce(uri, SCHEME).value;
    var (authority, path) := SplitOnce(rest, "/").value;
    SplitHeadSlashFree(rest);
    match SplitOnce(path, "/") {
      case Some((id, remainder)) =>
        SplitHeadSlashFree(path);
        SchemeStays(uri, authority + "/" + remainder);
        SlashSplit(authority, remainder);
        assert path == id + "/" + remainder;
      case None =>
        SchemeStays(uri, authority);
    }
  }
}
