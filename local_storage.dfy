// The JSON document store of the backend (backend/src/infra/storage/local_storage.py):
// documents addressed by slash-separated keys, kept as <base>/<key>.json, written atomically,
// with a per-document version standing in for the file's modification time.
module LocalStorage {
  import opened Wrappers
  import opened Text
  import opened Paths
  import opened JsonValues
  import Collections

  datatype StoreError =
    | InvalidKey        // ValueError: the key's path leaves the base directory or has no name
    | NotFound          // FileNotFoundError
    | AlreadyExists     // FileExistsError from create without overwrite
    | VersionMismatch   // FileExistsError from a failed if_match_mtime comparison
    | DiskFailure       // the atomic write raised; the previous document is intact

  /** A stored document and the version (modification stamp) of its last write. */
  datatype Stored = Stored(doc: Json, version: nat)

  /** Everything the store keeps: the documents by resolved path, and the last version issued. */
  datatype StoreState = StoreState(docs: map<Path, Stored>, clock: nat)

  /** _key_to_path: (base / key).with_suffix(".json").resolve(), refused when outside base. */
  function KeyToPath(base: Path, key: string): Result<Path, StoreError>
  {
    var raw := JoinStr(base, key);
    if raw == [] then Err(InvalidKey) else CheckedPath(base, Named(raw))
  }

  /** The resolved path, or ValueError when it is not inside the base directory. */
  function CheckedPath(base: Path, named: seq<string>): Result<Path, StoreError>
  {
    var p := Normalize([], named);
    if WithinBase(base, p) then Ok(p) else Err(InvalidKey)
  }

  /** The joined path with with_suffix(".json") applied to its name. */
  function Named(raw: seq<string>): seq<string>
    requires raw != []
  {
    raw[..|raw| - 1] + [JsonName(raw[|raw| - 1])]
  }

  function JsonName(n: string): (r: string)
    ensures EndsWith(r, ".json") && r != "" && r != "." && r != ".."
    ensures '/' !in n ==> '/' !in r
  {
    WithSuffix(n, ".json")
  }

  /** Resolving the named path resolves the directory part and keeps the .json name last. */
  lemma NormalizeNamed(raw: seq<string>)
    requires raw != [] && '/' !in raw[|raw| - 1]
    ensures Normalize([], Named(raw)) == Normalize([], raw[..|raw| - 1]) + [JsonName(raw[|raw| - 1])]
  {
    var last := JsonName(raw[|raw| - 1]);
    NormalizeAppend([], raw[..|raw| - 1], [last]);
    assert [last][1..] == [];
  }

  /** A document path inside the base whose file name carries the .json suffix. */
  predicate DocPath(base: Path, p: Path)
  {
    IsPrefixPath(base, p) && |p| > 0 && EndsWith(p[|p| - 1], ".json")
  }

  /**
   * Every key the store accepts names a .json file inside the base directory, strictly below it
   * unless the base directory's own name ends in .json.
   */
  lemma KeyToPathInside(base: Path, key: string)
    requires base != [] && Clean(base) && KeyToPath(base, key).Ok?
    ensures DocPath(base, KeyToPath(base, key).value)
    ensures !EndsWith(base[|base| - 1], ".json") ==> |KeyToPath(base, key).value| > |base|
  {
    var raw := JoinStr(base, key);
    var last := JsonName(raw[|raw| - 1]);
    var named := Named(raw);
    assert forall i :: 0 <= i < |named| ==> named[i] != "" && '/' !in named[i] && named[i] != ".";
    NormalizeClean([], named);
    NormalizeNamed(raw);
    var p := KeyToPath(base, key).value;
    assert p == Normalize([], raw[..|raw| - 1]) + [last];
    WithinBaseIffPrefix(base, p);
    assert p[|p| - 1] == last;
  }

  /** A store whose base directory is "/" refuses every key. */
  lemma RootStoreRefusesEveryKey(key: string)
    ensures KeyToPath([], key) == Err(InvalidKey)
  {
    var raw := JoinStr([], key);
    if raw != [] {
      var named := Named(raw);
      assert forall i :: 0 <= i < |named| ==> named[i] != "" && '/' !in named[i] && named[i] != ".";
      NormalizeClean([], named);
      NormalizeNamed(raw);
      WithinRootOnlyRoot(Normalize([], named));
    }
  }

  /** Keys that differ only in the file extension of their last component address the same document. */
  lemma SameDocumentForExtensions(base: Path, dir: string, name: string, e1: string, e2: string)
    requires dir == "" || dir[|dir| - 1] == '/'
    requires name != "" && '/' !in name && '.' !in name
    requires Extension(e1) && Extension(e2)
    ensures KeyToPath(base, dir + name + e1) == KeyToPath(base, dir + name + e2)
    ensures KeyToPath(base, dir + name + e1) == KeyToPath(base, dir + name)
  {
    SameNamedPath(base, dir, name, e1);
    SameNamedPath(base, dir, name, e2);
    SameNamedPath(base, dir, name, "");
    assert dir + name + "" == dir + name;
    SameNamedSamePath(base, dir + name + e1, dir + name + e2);
    SameNamedSamePath(base, dir + name + e1, dir + name);
  }

  /** A name without separators or dots, such as a UUID or a fixed folder name. */
  predicate PlainName(s: string) { s != "" && '/' !in s && '.' !in s }

  /** A key "folder/id" made of plain names is the document <base>/folder/id.json. */
  lemma PlainKey(base: Path, folder: string, id: string)
    requires base != [] && Clean(base) && PlainName(folder) && PlainName(id)
    ensures KeyToPath(base, folder + "/" + id) == Ok(base + [folder, id + ".json"])
  {
    var key := folder + "/" + id;
    SameNamedPath(base, folder + "/", id, "");
    assert folder + "/" + id + "" == key;
    FolderJoin(base, folder);
    var p := base + [folder, id + ".json"];
    assert Named(JoinStr(base, key)) == p;
    PlainPathChecked(base, p);
  }

  lemma FolderJoin(base: Path, folder: string)
    requires PlainName(folder)
    ensures JoinStr(base, folder + "/") == base + [folder]
  {
    SplitNoSep(folder, '/');
    assert folder + "/" == folder + ['/'] + "";
    SplitAtSep(folder, '/', "");
    assert Split("", '/') == [""];
    assert "."[0] == '.' && folder != ".";
    KeptAppend([folder], [""]);
    assert Kept([""]) == [];
    assert Kept([folder]) == [folder];
  }

  lemma PlainPathChecked(base: Path, p: Path)
    requires base != [] && Clean(base) && |p| == |base| + 2 && p[..|base|] == base
    requires PlainName(p[|base|]) && p[|base| + 1] != "" && '/' !in p[|base| + 1] && |p[|base| + 1]| > 2
    ensures CheckedPath(base, p) == Ok(p)
  {
    assert Clean(p) by {
      forall i | 0 <= i < |p| ensures CleanComponent(p[i]) {
        if i < |base| { assert p[i] == base[i]; }
      }
    }
    NormalizeOfClean([], p);
    assert [] + p == p;
    WithinBaseIffPrefix(base, p);
  }

  /** The document path depends on the key only through the named, unresolved path. */
  lemma SameNamedSamePath(base: Path, k1: string, k2: string)
    requires JoinStr(base, k1) != [] && JoinStr(base, k2) != []
    requires Named(JoinStr(base, k1)) == Named(JoinStr(base, k2))
    ensures KeyToPath(base, k1) == KeyToPath(base, k2)
  {
  }

  lemma SameNamedPath(base: Path, dir: string, name: string, e: string)
    requires dir == "" || dir[|dir| - 1] == '/'
    requires name != "" && '/' !in name && '.' !in name
    requires e == "" || Extension(e)
    ensures JoinStr(base, dir + name + e) != []
    ensures Named(JoinStr(base, dir + name + e)) == JoinStr(base, dir) + [name + ".json"]
  {
    assert dir + name + e == dir + (name + e);
    if e == "" {
      assert name + e == name;
      SuffixNoDot(name);
    } else {
      SuffixOfStemExt(name, e);
    }
    assert name + e != "." && name + e != ".." by {
      assert (name + e)[0] == name[0];
      if |name + e| == 2 { assert e == ""; }
    }
    LastPartWithSuffix(base, dir, name + e);
  }

  /** Splitting dir + last puts last (which has no separator) at the end of the joined parts. */
  lemma LastPartWithSuffix(base: Path, dir: string, last: string)
    requires dir == "" || dir[|dir| - 1] == '/'
    requires last != "" && '/' !in last && last != "." && last != ".."
    ensures var raw := JoinStr(base, dir + last);
            raw != [] && raw[|raw| - 1] == last
            && raw[..|raw| - 1] == JoinStr(base, dir)
  {
    SplitNoSep(last, '/');
    var k := dir + last;
    if dir == "" {
      assert k == last;
      assert Split(k, '/') == [last];
      assert Kept([last]) == [last] + Kept([]);
      assert Parts(k) == [last];
      assert Parts(dir) == [];
    } else {
      var d := dir[..|dir| - 1];
      assert dir == d + ['/'];
      assert k == d + ['/'] + last;
      SplitAtSep(d, '/', last);
      assert dir == d + ['/'] + "";
      SplitAtSep(d, '/', "");
      KeptAppend(Split(d, '/'), [last]);
      KeptAppend(Split(d, '/'), [""]);
      assert Parts(k) == Parts(dir) + [last];
      assert k[0] == dir[0];
    }
  }

  // ---- specification of each operation on the abstract state ----

  function ReadSpec(base: Path, st: StoreState, key: string): Result<Json, StoreError>
  {
    match KeyToPath(base, key)
    case Err(e) => Err(e)
    case Ok(p) => if p in st.docs then Ok(st.docs[p].doc) else Err(NotFound)
  }

  function ExistsSpec(base: Path, st: StoreState, key: string): Result<bool, StoreError>
  {
    match KeyToPath(base, key)
    case Err(e) => Err(e)
    case Ok(p) => Ok(p in st.docs)
  }

  /** _atomic_write: all or nothing; a successful write stamps the document with a fresh version. */
  function WriteSpec(st: StoreState, p: Path, doc: Json, diskOk: bool): (Result<nat, StoreError>, StoreState)
  {
    var v: nat := st.clock + 1;
    if diskOk then (Ok(v), StoreState(st.docs[p := Stored(doc, v)], v))
    else (Err(DiskFailure), st)
  }

  function CreateSpec(base: Path, st: StoreState, key: string, doc: Json, overwrite: bool, diskOk: bool)
    : (Result<(), StoreError>, StoreState)
  {
    match KeyToPath(base, key)
    case Err(e) => (Err(e), st)
    case Ok(p) =>
      if p in st.docs && !overwrite then (Err(AlreadyExists), st)
      else
        var (w, st') := WriteSpec(st, p, doc, diskOk);
        (if w.Ok? then Ok(()) else Err(w.error), st')
  }

  /** The if_match_mtime guard: with an expected version, the document must exist at exactly that version. */
  predicate VersionMatches(st: StoreState, p: Path, ifMatch: Option<nat>)
  {
    ifMatch.None? || (p in st.docs && st.docs[p].version == ifMatch.value)
  }

  function ReplaceSpec(base: Path, st: StoreState, key: string, doc: Json, ifMatch: Option<nat>, diskOk: bool)
    : (Result<nat, StoreError>, StoreState)
  {
    match KeyToPath(base, key)
    case Err(e) => (Err(e), st)
    case Ok(p) =>
      if !VersionMatches(st, p, ifMatch) then (Err(VersionMismatch), st)
      else WriteSpec(st, p, doc, diskOk)
  }

  function UpdateSpec(base: Path, st: StoreState, key: string, patch: Json -> Json, ifMatch: Option<nat>, diskOk: bool)
    : (Result<nat, StoreError>, StoreState)
  {
    match KeyToPath(base, key)
    case Err(e) => (Err(e), st)
    case Ok(p) =>
      if !VersionMatches(st, p, ifMatch) then (Err(VersionMismatch), st)
      else if p !in st.docs then (Err(NotFound), st)
      else WriteSpec(st, p, patch(st.docs[p].doc), diskOk)
  }

  function DeleteSpec(base: Path, st: StoreState, key: string, missingOk: bool): (Result<(), StoreError>, StoreState)
  {
    match KeyToPath(base, key)
    case Err(e) => (Err(e), st)
    case Ok(p) =>
      if p in st.docs then (Ok(()), StoreState(st.docs - {p}, st.clock))
      else if missingOk then (Ok(()), st)
      else (Err(NotFound), st)
  }

  /** The key of a document relative to the base, as list() reports it. */
  function RelKey(base: Path, p: Path): string
  {
    if |base| <= |p| then Join(p[|base|..], "/") else ""
  }

  /** The documents list(prefix, recursive) reports: *.json files under the prefix directory (directly below it when not recursive). */
  predicate Listed(dir: Path, p: Path, recursive: bool)
  {
    IsPrefixPath(dir, p) && |p| > |dir| && EndsWith(p[|p| - 1], ".json") && (recursive || |p| == |dir| + 1)
  }

  function ListSpec(base: Path, st: StoreState, prefix: string, recursive: bool): Result<set<string>, StoreError>
  {
    var dir := Resolve(base, prefix);
    if !WithinBase(base, dir) then Err(InvalidKey)
    else if |dir| < |base| then Err(InvalidKey)
    else Ok(ListedKeys(base, st.docs, dir, recursive))
  }

  function ListedKeys(base: Path, docs: map<Path, Stored>, dir: Path, recursive: bool): set<string>
  {
    set p | p in docs && Listed(dir, p, recursive) :: RelKey(base, p)
  }

  // ---- properties of the store ----

  /** What a successful create, replace or update wrote is what the next read of that key returns. */
  lemma ReadAfterReplace(base: Path, st: StoreState, key: string, doc: Json, ifMatch: Option<nat>, diskOk: bool)
    requires ReplaceSpec(base, st, key, doc, ifMatch, diskOk).0.Ok?
    ensures ReadSpec(base, ReplaceSpec(base, st, key, doc, ifMatch, diskOk).1, key) == Ok(doc)
  {
  }

  lemma ReadAfterCreate(base: Path, st: StoreState, key: string, doc: Json, overwrite: bool, diskOk: bool)
    requires CreateSpec(base, st, key, doc, overwrite, diskOk).0.Ok?
    ensures ReadSpec(base, CreateSpec(base, st, key, doc, overwrite, diskOk).1, key) == Ok(doc)
  {
  }

  /** Update applies the patch to the current document. */
  lemma ReadAfterUpdate(base: Path, st: StoreState, key: string, patch: Json -> Json, ifMatch: Option<nat>, diskOk: bool)
    requires UpdateSpec(base, st, key, patch, ifMatch, diskOk).0.Ok?
    ensures ReadSpec(base, st, key).Ok?
    ensures ReadSpec(base, UpdateSpec(base, st, key, patch, ifMatch, diskOk).1, key) == Ok(patch(ReadSpec(base, st, key).value))
  {
  }

  /** Any failed operation leaves every document and version as it was (writes are atomic). */
  lemma FailureChangesNothing(base: Path, st: StoreState, key: string, doc: Json, ifMatch: Option<nat>, overwrite: bool, diskOk: bool)
    ensures CreateSpec(base, st, key, doc, overwrite, diskOk).0.Err? ==> CreateSpec(base, st, key, doc, overwrite, diskOk).1 == st
    ensures ReplaceSpec(base, st, key, doc, ifMatch, diskOk).0.Err? ==> ReplaceSpec(base, st, key, doc, ifMatch, diskOk).1 == st
  {
  }

  /** create without overwrite never replaces an existing document. */
  lemma CreateNeverClobbers(base: Path, st: StoreState, key: string, doc: Json, diskOk: bool)
    requires ExistsSpec(base, st, key) == Ok(true)
    ensures CreateSpec(base, st, key, doc, false, diskOk) == (Err(AlreadyExists), st)
  {
  }

  /** A write touches only the document at its own path. */
  lemma ReplaceLeavesOthers(base: Path, st: StoreState, key: string, other: string, doc: Json, ifMatch: Option<nat>, diskOk: bool)
    requires KeyToPath(base, key) != KeyToPath(base, other)
    ensures ReadSpec(base, ReplaceSpec(base, st, key, doc, ifMatch, diskOk).1, other) == ReadSpec(base, st, other)
  {
  }

  lemma CreateLeavesOthers(base: Path, st: StoreState, key: string, other: string, doc: Json, overwrite: bool, diskOk: bool)
    requires KeyToPath(base, key) != KeyToPath(base, other)
    ensures ReadSpec(base, CreateSpec(base, st, key, doc, overwrite, diskOk).1, other) == ReadSpec(base, st, other)
  {
  }

  predicate ClockBounds(st: StoreState) { forall p :: p in st.docs ==> st.docs[p].version <= st.clock }

  /** Each successful write issues a version above every version seen before, and the bound is kept. */
  lemma WriteVersionIsFresh(base: Path, st: StoreState, key: string, doc: Json, ifMatch: Option<nat>, diskOk: bool)
    requires ClockBounds(st)
    ensures ClockBounds(ReplaceSpec(base, st, key, doc, ifMatch, diskOk).1)
    ensures ReplaceSpec(base, st, key, doc, ifMatch, diskOk).0.Ok? ==>
              forall p :: p in st.docs ==> st.docs[p].version < ReplaceSpec(base, st, key, doc, ifMatch, diskOk).0.value
  {
  }

  /**
   * Optimistic concurrency: two writers that read the same version and both replace with
   * if_match_mtime set cannot both succeed; the second one is refused.
   */
  lemma NoLostUpdate(base: Path, st: StoreState, key: string, v: nat, d1: Json, d2: Json, ok1: bool, ok2: bool)
    requires ClockBounds(st)
    requires ReplaceSpec(base, st, key, d1, Some(v), ok1).0.Ok?
    ensures ReplaceSpec(base, ReplaceSpec(base, st, key, d1, Some(v), ok1).1, key, d2, Some(v), ok2).0 == Err(VersionMismatch)
  {
  }

  /** After a delete, the key no longer exists. */
  lemma DeleteRemoves(base: Path, st: StoreState, key: string, missingOk: bool)
    requires DeleteSpec(base, st, key, missingOk).0.Ok?
    ensures ExistsSpec(base, DeleteSpec(base, st, key, missingOk).1, key) == Ok(false)
  {
  }

  /** Deleting a missing document fails exactly when missing_ok is false. */
  lemma DeleteMissing(base: Path, st: StoreState, key: string, missingOk: bool)
    requires ExistsSpec(base, st, key) == Ok(false)
    ensures DeleteSpec(base, st, key, missingOk).0.Ok? <==> missingOk
  {
  }

  /** A created document shows up in the recursive listing of the whole store (list("", True)). */
  lemma CreatedIsListed(base: Path, st: StoreState, key: string, doc: Json, overwrite: bool, diskOk: bool)
    requires base != [] && Clean(base) && !EndsWith(base[|base| - 1], ".json")
    requires CreateSpec(base, st, key, doc, overwrite, diskOk).0.Ok?
    ensures RelKey(base, KeyToPath(base, key).value) in ListedKeys(base, CreateSpec(base, st, key, doc, overwrite, diskOk).1.docs, base, true)
  {
    KeyToPathInside(base, key);
    var p := KeyToPath(base, key).value;
    var st' := CreateSpec(base, st, key, doc, overwrite, diskOk).1;
    assert p in st'.docs;
    DocumentListed(base, st', p);
  }

  /** Every document strictly below the base appears in the recursive listing of the whole store. */
  lemma DocumentListed(base: Path, st: StoreState, p: Path)
    requires Clean(base) && p in st.docs && DocPath(base, p) && |p| > |base|
    ensures ListSpec(base, st, "", true) == Ok(ListedKeys(base, st.docs, base, true))
    ensures RelKey(base, p) in ListedKeys(base, st.docs, base, true)
  {
    ResolveEmpty(base);
    assert Listed(base, p, true);
  }

  lemma ResolveEmpty(base: Path)
    requires Clean(base)
    ensures Resolve(base, "") == base
  {
    assert Split("", '/') == [""];
    assert Parts("") == [];
    assert JoinStr(base, "") == base;
    NormalizeOfClean([], base);
  }

  // ---- the store object ----

  class JsonStore {
    const base: Path
    var docs: map<Path, Stored>
    var clock: nat

    function State(): StoreState
      reads this
    {
      StoreState(docs, clock)
    }

    ghost predicate Valid()
      reads this
    {
      Clean(base) && ClockBounds(State())
    }

    constructor(baseDir: Path)
      requires Clean(baseDir)
      ensures Valid() && base == baseDir && docs == map[] && clock == 0
    {
      base := baseDir;
      docs := map[];
      clock := 0;
    }

    method Create(key: string, doc: Json, overwrite: bool, diskOk: bool) returns (r: Result<(), StoreError>)
      requires Valid()
      modifies this
      ensures Valid()
      ensures (r, State()) == CreateSpec(base, old(State()), key, doc, overwrite, diskOk)
    {
      var p := KeyToPath(base, key);
      if p.Err? {
        return Err(p.error);
      }
      if p.value in docs && !overwrite {
        return Err(AlreadyExists);
      }
      var w := AtomicWrite(p.value, doc, diskOk);
      r := if w.Ok? then Ok(()) else Err(w.error);
    }

    method Read(key: string) returns (r: Result<Json, StoreError>)
      ensures r == ReadSpec(base, State(), key)
    {
      var p := KeyToPath(base, key);
      if p.Err? {
        return Err(p.error);
      }
      if p.value !in docs {
        return Err(NotFound);
      }
      r := Ok(docs[p.value].doc);
    }

    method Replace(key: string, doc: Json, ifMatch: Option<nat>, diskOk: bool) returns (r: Result<nat, StoreError>)
      requires Valid()
      modifies this
      ensures Valid()
      ensures (r, State()) == ReplaceSpec(base, old(State()), key, doc, ifMatch, diskOk)
    {
      var p := KeyToPath(base, key);
      if p.Err? {
        return Err(p.error);
      }
      if ifMatch.Some? {
        var current := if p.value in docs then Some(docs[p.value].version) else None;
        if current.None? || current.value != ifMatch.value {
          return Err(VersionMismatch);
        }
      }
      r := AtomicWrite(p.value, doc, diskOk);
    }

    method Update(key: string, patch: Json -> Json, ifMatch: Option<nat>, diskOk: bool) returns (r: Result<nat, StoreError>)
      requires Valid()
      modifies this
      ensures Valid()
      ensures (r, State()) == UpdateSpec(base, old(State()), key, patch, ifMatch, diskOk)
    {
      var p := KeyToPath(base, key);
      if p.Err? {
        return Err(p.error);
      }
      if ifMatch.Some? {
        var current := if p.value in docs then Some(docs[p.value].version) else None;
        if current.None? || current.value != ifMatch.value {
          return Err(VersionMismatch);
        }
      }
      var current := Read(key);
      if current.Err? {
        return Err(current.error);
      }
      r := AtomicWrite(p.value, patch(current.value), diskOk);
    }

    method Delete(key: string, missingOk: bool) returns (r: Result<(), StoreError>)
      requires Valid()
      modifies this
      ensures Valid()
      ensures (r, State()) == DeleteSpec(base, old(State()), key, missingOk)
    {
      var p := KeyToPath(base, key);
      if p.Err? {
        return Err(p.error);
      }
      if p.value in docs {
        docs := docs - {p.value};
        r := Ok(());
      } else if missingOk {
        r := Ok(());
      } else {
        r := Err(NotFound);
      }
    }

    method Exists(key: string) returns (r: Result<bool, StoreError>)
      ensures r == ExistsSpec(base, State(), key)
    {
      var p := KeyToPath(base, key);
      if p.Err? {
        return Err(p.error);
      }
      r := Ok(p.value in docs);
    }

    /** list(prefix, recursive): every matching document once, in an unspecified (directory) order. */
    method List(prefix: string, recursive: bool) returns (r: Result<seq<string>, StoreError>)
      ensures ListSpec(base, State(), prefix, recursive).Err? ==> r.Err? && r.error == ListSpec(base, State(), prefix, recursive).error
      ensures ListSpec(base, State(), prefix, recursive).Ok? ==>
                r.Ok? && (set k | k in r.value) == ListSpec(base, State(), prefix, recursive).value
      ensures r.Ok? ==> forall i, j :: 0 <= i < j < |r.value| ==> r.value[i] != r.value[j]
    {
      var dir := Resolve(base, prefix);
      if !WithinBase(base, dir) || |dir| < |base| {
        return Err(InvalidKey);
      }
      var out := Collections.Enumerate(ListedKeys(base, docs, dir, recursive));
      r := Ok(out);
    }

    method AtomicWrite(p: Path, doc: Json, diskOk: bool) returns (r: Result<nat, StoreError>)
      requires Valid()
      modifies this
      ensures Valid()
      ensures (r, State()) == WriteSpec(old(State()), p, doc, diskOk)
    {
      if !diskOk {
        return Err(DiskFailure);
      }
      clock := clock + 1;
      docs := docs[p := Stored(doc, clock)];
      r := Ok(clock);
    }
  }
}
