// Group helpers of the backend (backend/src/utils/groups.py): the upload filter, the streaming
// upload write and the read-modify-write of a group's file index.
module GroupsUtils {
  import opened Wrappers
  import opened Text
  import opened Paths
  import opened JsonValues
  import opened LocalStorage
  import opened Common
  import opened Records

  // ---- Python's ordering of str: code point by code point, a proper prefix first ----

  predicate StrLt(a: string, b: string)
  {
    if a == [] then b != []
    else if b == [] then false
    else if a[0] != b[0] then a[0] < b[0]
    else StrLt(a[1..], b[1..])
  }

  lemma StrLtIrreflexive(a: string)
    ensures !StrLt(a, a)
  {
  }

  lemma StrLtTotal(a: string, b: string)
    ensures a == b || StrLt(a, b) || StrLt(b, a)
  {
    if a != [] && b != [] && a[0] == b[0] {
      StrLtTotal(a[1..], b[1..]);
      if a[1..] == b[1..] {
        assert a == [a[0]] + a[1..] && b == [b[0]] + b[1..];
      }
    }
  }

  lemma StrLtAsymmetric(a: string, b: string)
    ensures !(StrLt(a, b) && StrLt(b, a))
  {
  }

  lemma StrLtTransitive(a: string, b: string, c: string)
    requires StrLt(a, b) && StrLt(b, c)
    ensures StrLt(a, c)
  {
    if a != [] && a[0] == b[0] && b[0] == c[0] {
      StrLtTransitive(a[1..], b[1..], c[1..]);
    }
  }

  function Elems(xs: seq<string>): set<string> { set x | x in xs }

  lemma ElemsEmpty(xs: seq<string>)
    ensures xs == [] <==> Elems(xs) == {}
  {
    if xs != [] {
      assert xs[0] in Elems(xs);
    }
  }

  predicate StrictlySorted(xs: seq<string>)
  {
    forall i, j :: 0 <= i < j < |xs| ==> StrLt(xs[i], xs[j])
  }

  /** x placed into a strictly sorted list, unless it is already there. */
  function InsertUnique(x: string, xs: seq<string>): (r: seq<string>)
    requires StrictlySorted(xs)
    ensures StrictlySorted(r) && Elems(r) == {x} + Elems(xs)
    ensures r != [] && (StrLt(x, r[0]) || x == r[0] || (xs != [] && r[0] == xs[0]))
  {
    if xs == [] then [x]
    else if x == xs[0] then xs
    else if StrLt(x, xs[0]) then
      assert forall j :: 0 < j < |xs| ==> StrLt(x, xs[j]) by {
        forall j | 0 < j < |xs| ensures StrLt(x, xs[j]) { StrLtTransitive(x, xs[0], xs[j]); }
      }
      [x] + xs
    else
      StrLtTotal(x, xs[0]);
      var rest := InsertUnique(x, xs[1..]);
      assert Elems(xs) == {xs[0]} + Elems(xs[1..]) by { assert xs == [xs[0]] + xs[1..]; }
      assert forall y :: y in rest ==> StrLt(xs[0], y) by {
        forall y | y in rest ensures StrLt(xs[0], y) {
          assert y in Elems(rest);
          if y != x {
            assert y in Elems(xs[1..]);
            var j :| 0 <= j < |xs[1..]| && xs[1..][j] == y;
            assert xs[j + 1] == y;
          }
        }
      }
      var r := [xs[0]] + rest;
      assert Elems(r) == {xs[0]} + Elems(rest) by {
        forall y ensures y in r <==> y == xs[0] || y in rest { }
      }
      r
  }

  /** sorted(set(xs)): the distinct strings of xs in ascending order. */
  function SortedUnique(xs: seq<string>): (r: seq<string>)
    ensures StrictlySorted(r) && Elems(r) == Elems(xs)
  {
    if xs == [] then []
    else
      assert Elems(xs) == {xs[0]} + Elems(xs[1..]) by { assert xs == [xs[0]] + xs[1..]; }
      InsertUnique(xs[0], SortedUnique(xs[1..]))
  }

  /** A list without repeats holds each of its items exactly once. */
  lemma {:induction false} DistinctCounts(xs: seq<string>)
    requires Distinct(xs)
    ensures forall x :: multiset(xs)[x] == (if x in xs then 1 else 0)
  {
    if xs != [] {
      assert Distinct(xs[1..]) by {
        forall i, j | 0 <= i < j < |xs| - 1 ensures xs[1..][i] != xs[1..][j] {
          assert xs[1..][i] == xs[i + 1] && xs[1..][j] == xs[j + 1];
        }
      }
      DistinctCounts(xs[1..]);
      assert xs == [xs[0]] + xs[1..];
      assert xs[0] !in xs[1..];
    }
  }

  /**
   * Python's sorted(xs) keeps repeated items while sorted(set(xs)) drops them; on a list without
   * repeats the two agree: sorted(set(xs)) is then a permutation of xs.
   */
  lemma SortedUniqueKeepsAll(xs: seq<string>)
    requires Distinct(xs)
    ensures multiset(SortedUnique(xs)) == multiset(xs)
  {
    var r := SortedUnique(xs);
    assert Distinct(r) by {
      forall i, j | 0 <= i < j < |r| ensures r[i] != r[j] { StrLtIrreflexive(r[i]); }
    }
    DistinctCounts(xs);
    DistinctCounts(r);
    assert forall x :: x in r <==> x in xs by {
      forall x ensures x in r <==> x in xs { assert x in r <==> x in Elems(r); assert x in xs <==> x in Elems(xs); }
    }
  }

  /**
   * A strictly sorted list is determined by its elements: sorted(set(xs)) does not depend on the order
   * in which the set was built.
   */
  lemma {:induction false} SortedIsUnique(a: seq<string>, b: seq<string>)
    requires StrictlySorted(a) && StrictlySorted(b) && Elems(a) == Elems(b)
    ensures a == b
  {
    ElemsEmpty(a);
    ElemsEmpty(b);
    if a != [] {
      assert a[0] in Elems(b) && b[0] in Elems(a);
      if a[0] != b[0] {
        StrLtTotal(a[0], b[0]);
        var i :| 0 <= i < |b| && b[i] == a[0];
        var j :| 0 <= j < |a| && a[j] == b[0];
        assert i > 0 && j > 0;
        StrLtAsymmetric(a[0], b[0]);
        assert false;
      }
      assert Elems(a[1..]) == Elems(b[1..]) by {
        forall y | y in a[1..] ensures y in b[1..] {
          var i :| 1 <= i < |a| && a[i] == y;
          assert StrLt(a[0], y);
          StrLtIrreflexive(y);
          assert y in Elems(a);
          var k :| 0 <= k < |b| && b[k] == y;
          assert k != 0;
          assert b[1..][k - 1] == y;
        }
        forall y | y in b[1..] ensures y in a[1..] {
          var i :| 1 <= i < |b| && b[i] == y;
          assert StrLt(b[0], y);
          StrLtIrreflexive(y);
          assert y in Elems(b);
          var k :| 0 <= k < |a| && a[k] == y;
          assert k != 0;
          assert a[1..][k - 1] == y;
        }
      }
      SortedIsUnique(a[1..], b[1..]);
      assert a == [a[0]] + a[1..] && b == [b[0]] + b[1..];
    }
  }

  // ---- the group index document ----

  function JsonStrings(ids: seq<string>): (r: seq<Json>)
    ensures |r| == |ids| && forall i :: 0 <= i < |ids| ==> r[i] == JStr(ids[i])
  {
    if ids == [] then [] else JsonStrings(ids[..|ids| - 1]) + [JStr(ids[|ids| - 1])]
  }

  /** {"files": ids}. */
  function IndexDoc(ids: seq<string>): Json
  {
    JObj(map["files" := JArr(JsonStrings(ids))])
  }

  /** The ids of a list of JSON values, when every one of them is a string. */
  function StringItems(items: seq<Json>): (r: Option<seq<string>>)
    ensures r.Some? <==> forall i :: 0 <= i < |items| ==> items[i].JStr?
    ensures r.Some? ==> |r.value| == |items| && forall i :: 0 <= i < |items| ==> items[i] == JStr(r.value[i])
  {
    if items == [] then Some([])
    else
      match StringItems(items[..|items| - 1])
      case None => None
      case Some(init) =>
        if items[|items| - 1].JStr? then Some(init + [items[|items| - 1].s]) else None
  }

  /**
   * idx.get("files", []) of an index document, as a list of ids: the document must be a dict and the
   * entry a list of strings. The service only writes such lists; a string, a dict or a list holding
   * other values, which Python would iterate as it is, is read as a server error here.
   */
  function IndexIds(doc: Json): Result<seq<string>, int>
  {
    if !doc.JObj? then Err(ServerError)
    else
      var files := GetOr(doc.fields, "files", JArr([]));
      if !files.JArr? then Err(ServerError)
      else
        match StringItems(files.items)
        case None => Err(ServerError)
        case Some(ids) => Ok(ids)
  }

  /** Reading back an index document gives the ids it was written with. */
  lemma IndexRoundTrip(ids: seq<string>)
    ensures IndexIds(IndexDoc(ids)) == Ok(ids)
  {
    var items := JsonStrings(ids);
    assert StringItems(items).Some?;
    var got := StringItems(items).value;
    assert |got| == |ids|;
    assert forall i :: 0 <= i < |ids| ==> got[i] == ids[i] by {
      forall i | 0 <= i < |ids| ensures got[i] == ids[i] {
        assert items[i] == JStr(got[i]) && items[i] == JStr(ids[i]);
      }
    }
    assert got == ids;
    var fields := map["files" := JArr(items)];
    assert GetOr(fields, "files", JArr([])) == JArr(items);
  }

  /**
   * _append_group_index(gid, ids): with an index, the new list is sorted(set(old) | set(ids));
   * without one, the list is ids as given. diskOk says whether the write succeeds.
   */
  function AppendIndexSpec(base: Path, st: StoreState, gid: string, ids: seq<string>, diskOk: bool): (Result<(), int>, StoreState)
  {
    var key := IndexKey(gid);
    match StoreExists(base, st, key)
    case Err(c) => (Err(c), st)
    case Ok(present) =>
      if present then
        match StoreRead(base, st, key)
        case Err(c) => (Err(c), st)
        case Ok(idx) =>
          match IndexIds(idx)
          case Err(c) => (Err(c), st)
          case Ok(cur) =>
            var (r, st') := CreateSpec(base, st, key, IndexDoc(SortedUnique(cur + ids)), true, diskOk);
            (if r.Ok? then Ok(()) else Err(ServerError), st')
      else
        var (r, st') := CreateSpec(base, st, key, IndexDoc(ids), true, diskOk);
        (if r.Ok? then Ok(()) else Err(ServerError), st')
  }

  method AppendGroupIndex(store: JsonStore, gid: string, ids: seq<string>, diskOk: bool) returns (r: Result<(), int>)
    requires store.Valid()
    modifies store
    ensures store.Valid()
    ensures (r, store.State()) == AppendIndexSpec(store.base, old(store.State()), gid, ids, diskOk)
  {
    var key := IndexKey(gid);
    var present := store.Exists(key);
    if present.Err? {
      return Err(ServerError);
    }
    var list := ids;
    if present.value {
      var idx := store.Read(key);
      if idx.Err? {
        return Err(ServerError);
      }
      var cur := IndexIds(idx.value);
      if cur.Err? {
        return Err(cur.error);
      }
      list := SortedUnique(cur.value + ids);
    }
    var w := store.Create(key, IndexDoc(list), true, diskOk);
    r := if w.Ok? then Ok(()) else Err(ServerError);
  }

  /**
   * After a successful append the index holds every id it held before and every id given; with a
   * previous index it is sorted and duplicate-free, without one it is exactly the given ids in order.
   */
  lemma AppendKeepsEveryId(base: Path, st: StoreState, gid: string, ids: seq<string>, diskOk: bool)
    requires AppendIndexSpec(base, st, gid, ids, diskOk).0.Ok?
    ensures var st' := AppendIndexSpec(base, st, gid, ids, diskOk).1;
            ReadSpec(base, st', IndexKey(gid)).Ok? && IndexIds(ReadSpec(base, st', IndexKey(gid)).value).Ok?
    ensures var st' := AppendIndexSpec(base, st, gid, ids, diskOk).1;
            var now := IndexIds(ReadSpec(base, st', IndexKey(gid)).value).value;
            Elems(ids) <= Elems(now)
            && (ExistsSpec(base, st, IndexKey(gid)) == Ok(false) ==> now == ids)
            && (ExistsSpec(base, st, IndexKey(gid)) == Ok(true) ==>
                  StrictlySorted(now) && Elems(now) == Elems(IndexIds(ReadSpec(base, st, IndexKey(gid)).value).value) + Elems(ids))
  {
    var key := IndexKey(gid);
    if ExistsSpec(base, st, key) == Ok(true) {
      var cur := IndexIds(ReadSpec(base, st, key).value).value;
      var l := SortedUnique(cur + ids);
      ReadAfterCreate(base, st, key, IndexDoc(l), true, diskOk);
      IndexRoundTrip(l);
      assert Elems(cur + ids) == Elems(cur) + Elems(ids) by {
        forall y ensures y in cur + ids <==> y in cur || y in ids { }
      }
    } else {
      ReadAfterCreate(base, st, key, IndexDoc(ids), true, diskOk);
      IndexRoundTrip(ids);
    }
  }

  // ---- accepting and saving uploads ----

  /** _should_accept(name): not macOS debris, and an allowed extension. */
  predicate ShouldAccept(name: string)
  {
    !IsTrashMember(name) && IsAllowedExt(name)
  }

  /** Every member extract_zip_filtered writes is one _should_accept accepts. */
  lemma ExtractedAreAccepted(e: ZipEntry, outDir: Path)
    ensures ExtractTarget(e, outDir).Some? ==> ShouldAccept(e.name)
  {
    if ExtractTarget(e, outDir).Some? {
      ExtractTargetSome(e, outDir);
    }
  }

  /** The bytes of the chunks, in order. */
  function Flatten(chunks: seq<seq<bv8>>): (r: seq<bv8>)
  {
    if chunks == [] then [] else Flatten(chunks[..|chunks| - 1]) + chunks[|chunks| - 1]
  }

  /** Every byte read ends up in the file, in order: the written length is the sum of the chunk lengths. */
  lemma {:induction false} FlattenAppend(a: seq<seq<bv8>>, b: seq<seq<bv8>>)
    ensures Flatten(a + b) == Flatten(a) + Flatten(b)
  {
    if b == [] {
      assert a + b == a;
    } else {
      assert (a + b)[..|a + b| - 1] == a + b[..|b| - 1];
      FlattenAppend(a, b[..|b| - 1]);
    }
  }

  /**
   * _save_upload_to_path(dst, upload): the parent directories are created and the chunks read until
   * end of file are streamed into a temporary file that replaces dst; on a write failure nothing replaces dst.
   */
  method SaveUploadToPath(fs: FileSystem, dst: Path, chunks: seq<seq<bv8>>, diskOk: bool) returns (ok: bool)
    modifies fs
    ensures ok == (diskOk && dst != [])
    ensures fs.dirs == old(fs.dirs) + Prefixes(Parent(dst))
    ensures fs.files == if ok then old(fs.files)[dst := BlobFile(Flatten(chunks))] else old(fs.files)
  {
    fs.dirs := fs.dirs + Prefixes(Parent(dst));
    var tmp: seq<bv8> := [];
    var i := 0;
    while i < |chunks|
      invariant 0 <= i <= |chunks|
      invariant tmp == Flatten(chunks[..i])
    {
      assert chunks[..i + 1][..i] == chunks[..i];
      tmp := tmp + chunks[i];
      i := i + 1;
    }
    assert chunks[..|chunks|] == chunks;
    if !diskOk || dst == [] {
      return false;
    }
    fs.files := fs.files[dst := BlobFile(tmp)];
    ok := true;
  }
}
