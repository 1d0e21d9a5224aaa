// The report builder (ReportBuilder.__call__ in backend/src/services/report/report.py) up to the rows
// it hands to the CSV/XLSX writers: the group card, the group's file ids and metadata, their order by
// name, the stage directory and its JSON results indexed by normalised stem, the selected fields and
// the rows. Any exception escaping the builder is a 500.
module ReportBuilder {
  import opened Wrappers
  import opened Text
  import opened Paths
  import opened JsonValues
  import opened LocalStorage
  import opened Common
  import opened Records
  import opened ReportEntities
  import GroupsUtils
  import FilesUtils
  import ResultSeq

  // ---- 1) the group card ----

  /** str(grp.get(k) or "") for the three archive fields. */
  datatype Card = Card(fond: string, opis: string, delo: string)

  function CardOf(grp: map<string, Json>, show: Json -> string): Card
  {
    Card(PyStr(FirstOr(grp, ["fond"]), show), PyStr(FirstOr(grp, ["opis"]), show), PyStr(FirstOr(grp, ["delo"]), show))
  }

  /** Reading the card; a missing card ends the request with `missing`. */
  function LoadCard(base: Path, st: StoreState, gid: string, show: Json -> string, missing: int): Result<Card, int>
  {
    match ExistsSpec(base, st, GroupKey(gid))
    case Err(_) => Err(ServerError)
    case Ok(present) =>
      if !present then Err(missing)
      else
        match ReadSpec(base, st, GroupKey(gid))
        case Err(_) => Err(ServerError)
        case Ok(grp) => if grp.JObj? then Ok(CardOf(grp.fields, show)) else Err(ServerError)
  }

  /**
   * As written: the missing-group branch evaluates http.HTTP_404_NOT_FOUND, which the standard http
   * module does not define, so the AttributeError it raises is what escapes: a 500.
   */
  function GroupCardAsWritten(base: Path, st: StoreState, gid: string, show: Json -> string): Result<Card, int>
  {
    LoadCard(base, st, gid, show, ServerError)
  }

  /** As intended: a missing group is a 404; the rest of the model uses this one. */
  function GroupCard(base: Path, st: StoreState, gid: string, show: Json -> string): (r: Result<Card, int>)
    ensures r == Err(NotFoundStatus) <==> ExistsSpec(base, st, GroupKey(gid)) == Ok(false)
    ensures r.Ok? <==> ReadSpec(base, st, GroupKey(gid)).Ok? && ReadSpec(base, st, GroupKey(gid)).value.JObj?
    ensures r.Ok? ==> r.value == CardOf(ReadSpec(base, st, GroupKey(gid)).value.fields, show)
  {
    LoadCard(base, st, gid, show, NotFoundStatus)
  }

  /** The two differ exactly on a missing group, which the code as written answers with a 500 instead of a 404. */
  lemma MissingGroupIsServerError(base: Path, st: StoreState, gid: string, show: Json -> string)
    ensures ExistsSpec(base, st, GroupKey(gid)) == Ok(false) ==>
              GroupCardAsWritten(base, st, gid, show) == Err(ServerError) && GroupCard(base, st, gid, show) == Err(NotFoundStatus)
    ensures ExistsSpec(base, st, GroupKey(gid)) != Ok(false) ==>
              GroupCardAsWritten(base, st, gid, show) == GroupCard(base, st, gid, show)
  {
  }

  // ---- 2) the group's file ids ----

  /** list(v) for a list or a string; other values are not iterable (TypeError), objects are not modelled. */
  function ListOf(v: Json): (r: Result<seq<Json>, int>)
    ensures v.JArr? ==> r == Ok(v.items)
    ensures v.JStr? ==> r.Ok? && |r.value| == |v.s|
  {
    match v
    case JArr(items) => Ok(items)
    case JStr(s) => Ok(seq(|s|, i requires 0 <= i < |s| => JStr([s[i]])))
    case JObj(m) => if m == map[] then Ok([]) else Err(ServerError)
    case _ => Err(ServerError)
  }

  /** list(idx.get("files", [])) */
  function IndexedIds(idx: Json): Result<seq<Json>, int>
  {
    if idx.JObj? then ListOf(GetOr(idx.fields, "files", JArr([]))) else Err(ServerError)
  }

  /** A listed record that belongs to the group. */
  predicate InGroup(base: Path, st: StoreState, gid: string, key: string)
  {
    var rec := ReadSpec(base, st, key);
    rec.Ok? && rec.value.JObj? && Get(rec.value.fields, "group_uuid") == JStr(gid)
  }

  /** The fallback scan of every listed file record: rec["file_uuid"] of each one in the group, in listing order. */
  function FallbackIds(base: Path, st: StoreState, gid: string, keys: seq<string>): Result<seq<Json>, int>
  {
    if keys == [] then Ok([])
    else
      match FallbackIds(base, st, gid, keys[..|keys| - 1])
      case Err(c) => Err(c)
      case Ok(acc) =>
        var rec := ReadSpec(base, st, keys[|keys| - 1]);
        if rec.Err? || !rec.value.JObj? then Err(ServerError)
        else if Get(rec.value.fields, "group_uuid") != JStr(gid) then Ok(acc)
        else if "file_uuid" !in rec.value.fields then Err(ServerError)
        else Ok(acc + [rec.value.fields["file_uuid"]])
  }

  /** The listed record at key gives id: it belongs to the group and its file_uuid is id. */
  predicate Contributes(base: Path, st: StoreState, gid: string, key: string, id: Json)
  {
    InGroup(base, st, gid, key) && Get(ReadSpec(base, st, key).value.fields, "file_uuid") == id
      && "file_uuid" in ReadSpec(base, st, key).value.fields
  }

  /** Every id the fallback finds comes from a listed record of the group. */
  lemma {:induction false} FallbackIdsSound(base: Path, st: StoreState, gid: string, keys: seq<string>)
    requires FallbackIds(base, st, gid, keys).Ok?
    ensures forall id :: id in FallbackIds(base, st, gid, keys).value ==> exists k :: k in keys && Contributes(base, st, gid, k, id)
  {
    if keys != [] {
      var init := keys[..|keys| - 1];
      FallbackIdsSound(base, st, gid, init);
      forall id | id in FallbackIds(base, st, gid, keys).value ensures exists k :: k in keys && Contributes(base, st, gid, k, id) {
        if id in FallbackIds(base, st, gid, init).value {
          var k :| k in init && Contributes(base, st, gid, k, id);
          assert k in keys;
        } else {
          assert Contributes(base, st, gid, keys[|keys| - 1], id);
        }
      }
    }
  }

  /** Every listed record of the group has a file_uuid, and the fallback finds it. */
  lemma {:induction false} FallbackIdsComplete(base: Path, st: StoreState, gid: string, keys: seq<string>)
    requires FallbackIds(base, st, gid, keys).Ok?
    ensures forall k :: k in keys && InGroup(base, st, gid, k) ==>
              "file_uuid" in ReadSpec(base, st, k).value.fields
              && ReadSpec(base, st, k).value.fields["file_uuid"] in FallbackIds(base, st, gid, keys).value
  {
    if keys != [] {
      var init := keys[..|keys| - 1];
      FallbackIdsComplete(base, st, gid, init);
      forall k | k in keys && InGroup(base, st, gid, k)
        ensures "file_uuid" in ReadSpec(base, st, k).value.fields
                && ReadSpec(base, st, k).value.fields["file_uuid"] in FallbackIds(base, st, gid, keys).value {
        if k in init {
        } else {
          assert k == keys[|keys| - 1];
        }
      }
    }
  }

  /** Ids from the group index when there is one, else from scanning the listed file records. */
  function FileIdsSpec(base: Path, st: StoreState, gid: string, listing: seq<string>): Result<seq<Json>, int>
  {
    match ExistsSpec(base, st, IndexKey(gid))
    case Err(_) => Err(ServerError)
    case Ok(indexed) =>
      if indexed then
        match ReadSpec(base, st, IndexKey(gid))
        case Err(_) => Err(ServerError)
        case Ok(idx) => IndexedIds(idx)
      else if ListSpec(base, st, "files", true).Err? then Err(ServerError)
      else FallbackIds(base, st, gid, listing)
  }

  lemma {:induction false} FallbackErrSticks(base: Path, st: StoreState, gid: string, keys: seq<string>, n: nat)
    requires n <= |keys| && FallbackIds(base, st, gid, keys[..n]).Err?
    ensures FallbackIds(base, st, gid, keys) == FallbackIds(base, st, gid, keys[..n])
    decreases |keys| - n
  {
    if n < |keys| {
      assert keys[..n + 1][..n] == keys[..n];
      FallbackErrSticks(base, st, gid, keys, n + 1);
    } else {
      assert keys[..n] == keys;
    }
  }

  /** The fallback loop over store.list("files"). */
  method ScanFileRecords(base: Path, st: StoreState, gid: string, keys: seq<string>) returns (r: Result<seq<Json>, int>)
    ensures r == FallbackIds(base, st, gid, keys)
  {
    var ids: seq<Json> := [];
    var i := 0;
    while i < |keys|
      invariant 0 <= i <= |keys|
      invariant FallbackIds(base, st, gid, keys[..i]) == Ok(ids)
    {
      assert keys[..i + 1][..i] == keys[..i];
      var rec := ReadSpec(base, st, keys[i]);
      if rec.Err? || !rec.value.JObj? {
        FallbackErrSticks(base, st, gid, keys, i + 1);
        return Err(ServerError);
      }
      if Get(rec.value.fields, "group_uuid") == JStr(gid) {
        if "file_uuid" !in rec.value.fields {
          FallbackErrSticks(base, st, gid, keys, i + 1);
          return Err(ServerError);
        }
        ids := ids + [rec.value.fields["file_uuid"]];
      }
      i := i + 1;
    }
    assert keys[..|keys|] == keys;
    return Ok(ids);
  }

  // ---- the file metadata ----

  /** m.setdefault(k, v) */
  function SetDefault(m: map<string, Json>, k: string, v: Json): (r: map<string, Json>)
    ensures k in r && (k in m ==> r == m) && (k !in m ==> r[k] == v)
    ensures forall j :: j != k ==> (j in r <==> j in m) && (j in m ==> r[j] == m[j])
  {
    if k in m then m else m[k := v]
  }

  /** The record of each id, with file_uuid defaulting to the id. */
  function MetasSpec(base: Path, st: StoreState, ids: seq<Json>, show: Json -> string): (r: Result<seq<map<string, Json>>, int>)
    ensures r.Ok? ==> |r.value| == |ids| && forall k :: 0 <= k < |ids| ==> "file_uuid" in r.value[k]
  {
    if ids == [] then Ok([])
    else
      match MetasSpec(base, st, ids[..|ids| - 1], show)
      case Err(c) => Err(c)
      case Ok(acc) =>
        var fid := ids[|ids| - 1];
        var m := ReadSpec(base, st, FileKey(PyStr(fid, show)));
        if m.Err? || !m.value.JObj? then Err(ServerError)
        else Ok(acc + [SetDefault(m.value.fields, "file_uuid", fid)])
  }

  lemma {:induction false} MetasErrSticks(base: Path, st: StoreState, ids: seq<Json>, show: Json -> string, n: nat)
    requires n <= |ids| && MetasSpec(base, st, ids[..n], show).Err?
    ensures MetasSpec(base, st, ids, show) == MetasSpec(base, st, ids[..n], show)
    decreases |ids| - n
  {
    if n < |ids| {
      assert ids[..n + 1][..n] == ids[..n];
      MetasErrSticks(base, st, ids, show, n + 1);
    } else {
      assert ids[..n] == ids;
    }
  }

  /** The loop reading each file record. */
  method LoadMetas(base: Path, st: StoreState, ids: seq<Json>, show: Json -> string) returns (r: Result<seq<map<string, Json>>, int>)
    ensures r == MetasSpec(base, st, ids, show)
  {
    var metas: seq<map<string, Json>> := [];
    var i := 0;
    while i < |ids|
      invariant 0 <= i <= |ids|
      invariant MetasSpec(base, st, ids[..i], show) == Ok(metas)
    {
      assert ids[..i + 1][..i] == ids[..i];
      var m := ReadSpec(base, st, FileKey(PyStr(ids[i], show)));
      if m.Err? || !m.value.JObj? {
        MetasErrSticks(base, st, ids, show, i + 1);
        return Err(ServerError);
      }
      metas := metas + [SetDefault(m.value.fields, "file_uuid", ids[i])];
      i := i + 1;
    }
    assert ids[..|ids|] == ids;
    return Ok(metas);
  }

  // ---- the order of the files ----

  /** A file record with its name (`filename or original_name or ""`) and sort key (that name lower-cased). */
  datatype Keyed = Keyed(key: string, name: string, meta: map<string, Json>)

  /** The sort key; .lower() on a name that is not a string raises. */
  function KeyOf(m: map<string, Json>): (r: Result<Keyed, int>)
    ensures r.Ok? ==> r.value.meta == m && r.value.key == Lower(r.value.name)
  {
    var v := FirstOr(m, ["filename", "original_name"]);
    if v.JStr? then Ok(Keyed(Lower(v.s), v.s, m)) else Err(ServerError)
  }

  function KeyAll(metas: seq<map<string, Json>>): (r: Result<seq<Keyed>, int>)
    ensures r.Ok? ==> |r.value| == |metas| && forall k :: 0 <= k < |metas| ==> r.value[k].meta == metas[k]
  {
    if metas == [] then Ok([])
    else
      match KeyAll(metas[..|metas| - 1])
      case Err(c) => Err(c)
      case Ok(acc) =>
        match KeyOf(metas[|metas| - 1])
        case Err(c) => Err(c)
        case Ok(k) => Ok(acc + [k])
  }

  predicate SortedByKey(s: seq<Keyed>)
  {
    forall i, j :: 0 <= i < j < |s| ==> !GroupsUtils.StrLt(s[j].key, s[i].key)
  }

  /** Insertion after every entry whose key is not greater, so equal keys keep their arrival order. */
  function Insert(x: Keyed, s: seq<Keyed>): seq<Keyed>
  {
    if s == [] then [x]
    else if GroupsUtils.StrLt(x.key, s[0].key) then [x] + s
    else [s[0]] + Insert(x, s[1..])
  }

  /** metas.sort(key=...): a stable sort by key. */
  function SortByKey(xs: seq<Keyed>): seq<Keyed>
  {
    if xs == [] then [] else Insert(xs[|xs| - 1], SortByKey(xs[..|xs| - 1]))
  }

  lemma {:induction false} InsertSorted(x: Keyed, s: seq<Keyed>)
    requires SortedByKey(s)
    ensures SortedByKey(Insert(x, s))
    ensures multiset(Insert(x, s)) == multiset(s) + multiset{x}
    ensures forall y :: y in Insert(x, s) ==> y == x || y in s
  {
    if s != [] && !GroupsUtils.StrLt(x.key, s[0].key) {
      InsertSorted(x, s[1..]);
      var t := Insert(x, s[1..]);
      assert s == [s[0]] + s[1..];
      forall y | y in t ensures !GroupsUtils.StrLt(y.key, s[0].key) {
        if y == x {
          GroupsUtils.StrLtTotal(x.key, s[0].key);
        }
      }
    } else if s != [] {
      BelowAll(x, s);
    }
  }

  /** A key below the first key of a sorted sequence is below every key in it. */
  lemma BelowAll(x: Keyed, s: seq<Keyed>)
    requires SortedByKey(s) && s != [] && GroupsUtils.StrLt(x.key, s[0].key)
    ensures forall j :: 0 <= j < |s| ==> !GroupsUtils.StrLt(s[j].key, x.key)
  {
    forall j | 0 <= j < |s| ensures !GroupsUtils.StrLt(s[j].key, x.key) {
      if GroupsUtils.StrLt(s[j].key, x.key) {
        GroupsUtils.StrLtTransitive(s[j].key, x.key, s[0].key);
        GroupsUtils.StrLtIrreflexive(s[0].key);
      }
    }
  }

  /** The files come out ordered by key, and as a permutation of the input. */
  lemma {:induction false} SortByKeySorted(xs: seq<Keyed>)
    ensures SortedByKey(SortByKey(xs))
    ensures multiset(SortByKey(xs)) == multiset(xs)
  {
    if xs != [] {
      var init := xs[..|xs| - 1];
      SortByKeySorted(init);
      InsertSorted(xs[|xs| - 1], SortByKey(init));
      assert xs == init + [xs[|xs| - 1]];
    }
  }

  /** The entries of s with key k, in order. */
  function WithKey(s: seq<Keyed>, k: string): seq<Keyed>
  {
    if s == [] then [] else WithKey(s[..|s| - 1], k) + (if s[|s| - 1].key == k then [s[|s| - 1]] else [])
  }

  lemma {:induction false} WithKeyCons(y: Keyed, s: seq<Keyed>, k: string)
    ensures WithKey([y] + s, k) == (if y.key == k then [y] else []) + WithKey(s, k)
    decreases |s|
  {
    if s != [] {
      var init := s[..|s| - 1];
      assert ([y] + s)[..|s|] == [y] + init;
      WithKeyCons(y, init, k);
    } else {
      assert ([y] + s)[..0] == [];
    }
  }

  /** Inserting x appends it to the entries of its own key and leaves the other keys alone. */
  lemma {:induction false} InsertWithKey(x: Keyed, s: seq<Keyed>, k: string)
    requires SortedByKey(s)
    ensures WithKey(Insert(x, s), k) == WithKey(s, k) + (if x.key == k then [x] else [])
  {
    if s == [] {
      assert WithKey([x], k) == WithKey([], k) + (if x.key == k then [x] else []);
    } else if GroupsUtils.StrLt(x.key, s[0].key) {
      WithKeyCons(x, s, k);
      if x.key == k {
        assert WithKey(s, k) == [] by {
          WithKeySortedAbove(s, x.key);
        }
      }
    } else {
      InsertWithKey(x, s[1..], k);
      WithKeyCons(s[0], Insert(x, s[1..]), k);
      WithKeyCons(s[0], s[1..], k);
      assert [s[0]] + s[1..] == s;
    }
  }

  /** In a sorted sequence starting above k there is no entry with key k. */
  lemma WithKeySortedAbove(s: seq<Keyed>, k: string)
    requires SortedByKey(s) && s != [] && GroupsUtils.StrLt(k, s[0].key)
    ensures WithKey(s, k) == []
  {
    forall j | 0 <= j < |s| ensures s[j].key != k {
      GroupsUtils.StrLtIrreflexive(k);
    }
    WithKeyNone(s, k);
  }

  lemma {:induction false} WithKeyNone(s: seq<Keyed>, k: string)
    requires forall j :: 0 <= j < |s| ==> s[j].key != k
    ensures WithKey(s, k) == []
  {
    if s != [] {
      WithKeyNone(s[..|s| - 1], k);
    }
  }

  /** The sort is stable: the files sharing a key keep their relative order. */
  lemma {:induction false} SortByKeyStable(xs: seq<Keyed>, k: string)
    ensures WithKey(SortByKey(xs), k) == WithKey(xs, k)
  {
    if xs != [] {
      var init := xs[..|xs| - 1];
      SortByKeyStable(init, k);
      SortByKeySorted(init);
      InsertWithKey(xs[|xs| - 1], SortByKey(init), k);
    }
  }

  /** The files in report order: keyed, then sorted. */
  function SortedMetas(metas: seq<map<string, Json>>): Result<seq<Keyed>, int>
  {
    match KeyAll(metas)
    case Err(c) => Err(c)
    case Ok(ks) => Ok(SortByKey(ks))
  }

  // ---- 3) the stage directory, 4) its results by stem ----

  /** _process_dir: the final directory for stage "done", the process directory for every other stage. */
  function ReportStageDir(data: Path, gid: string, stage: string): (r: Path)
    ensures r == FinalDir(data, gid) <==> stage == "done"
    ensures r == ProcessDir(data, gid) <==> stage != "done"
  {
    assert FinalDir(data, gid)[|GroupRoot(data, gid)|] != ProcessDir(data, gid)[|GroupRoot(data, gid)|];
    if stage == "done" then FinalDir(data, gid) else ProcessDir(data, gid)
  }

  /** The report's _stem_norm: the normalised stem, case-folded. */
  function ReportKey(name: string): string
  {
    Lower(FilesUtils.StemNorm(name))
  }

  /** A source file and the OCR results written for it (`{stem}_{i:03d}_result.json`) share their key. */
  lemma ReportKeyMatchesOutput(s: string, ext: string, i: nat)
    requires s != [] && '/' !in s && FilesUtils.NormalStem(s) && Extension(ext)
    ensures ReportKey(s + ext) == ReportKey(s + "_" + Pad3(i) + "_result.json")
  {
    FilesUtils.StemNormPlainName(s, ext);
    FilesUtils.StemNormOutputName(s, i);
  }

  /** An entry that stage_dir.glob("*.json") yields and is_file() accepts. */
  predicate Globbed(dir: Path, files: map<Path, FileData>, name: string)
  {
    EndsWith(name, ".json") && dir + [name] in files
  }

  /** json_by_stem after the loop over the directory entries `names`, in enumeration order, keyed by `key` (the report's _stem_norm). */
  function StemIndex(dir: Path, files: map<Path, FileData>, names: seq<string>, key: string -> string): map<string, Path>
  {
    if names == [] then map[]
    else
      var m := StemIndex(dir, files, names[..|names| - 1], key);
      var n := names[|names| - 1];
      if Globbed(dir, files, n) then m[key(n) := dir + [n]] else m
  }

  /** The index holds a key exactly when some result file has it, and then points at a result file with that key. */
  lemma {:induction false} StemIndexDomain(dir: Path, files: map<Path, FileData>, names: seq<string>, key: string -> string)
    ensures forall s :: s in StemIndex(dir, files, names, key) <==>
              exists k :: 0 <= k < |names| && Globbed(dir, files, names[k]) && key(names[k]) == s
    ensures forall s :: s in StemIndex(dir, files, names, key) ==>
              exists k :: 0 <= k < |names| && Globbed(dir, files, names[k]) && key(names[k]) == s
                && StemIndex(dir, files, names, key)[s] == dir + [names[k]]
  {
    if names != [] {
      var init := names[..|names| - 1];
      StemIndexDomain(dir, files, init, key);
      forall s | exists k :: 0 <= k < |names| && Globbed(dir, files, names[k]) && key(names[k]) == s
        ensures s in StemIndex(dir, files, names, key) {
        var k :| 0 <= k < |names| && Globbed(dir, files, names[k]) && key(names[k]) == s;
        if k < |init| {
          assert init[k] == names[k];
        }
      }
      forall s | s in StemIndex(dir, files, names, key)
        ensures exists k :: 0 <= k < |names| && Globbed(dir, files, names[k]) && key(names[k]) == s
                  && StemIndex(dir, files, names, key)[s] == dir + [names[k]] {
        var n := names[|names| - 1];
        if !(Globbed(dir, files, n) && key(n) == s) {
          var k :| 0 <= k < |init| && Globbed(dir, files, init[k]) && key(init[k]) == s
                   && StemIndex(dir, files, init, key)[s] == dir + [init[k]];
          assert names[k] == init[k];
        }
      }
    }
  }

  /** The last result file with a key wins: later entries with the same key replace earlier ones. */
  lemma {:induction false} StemIndexLastWins(dir: Path, files: map<Path, FileData>, names: seq<string>, key: string -> string, k: nat)
    requires k < |names| && Globbed(dir, files, names[k])
    requires forall j :: k < j < |names| && Globbed(dir, files, names[j]) ==> key(names[j]) != key(names[k])
    ensures key(names[k]) in StemIndex(dir, files, names, key)
    ensures StemIndex(dir, files, names, key)[key(names[k])] == dir + [names[k]]
  {
    var init := names[..|names| - 1];
    if k < |names| - 1 {
      assert init[k] == names[k];
      StemIndexLastWins(dir, files, init, key, k);
    }
  }

  /** The glob loop over the stage directory. */
  method IndexByStem(dir: Path, files: map<Path, FileData>, names: seq<string>, key: string -> string) returns (index: map<string, Path>)
    ensures index == StemIndex(dir, files, names, key)
  {
    index := map[];
    var i := 0;
    while i < |names|
      invariant 0 <= i <= |names|
      invariant index == StemIndex(dir, files, names[..i], key)
    {
      assert names[..i + 1][..i] == names[..i];
      var n := names[i];
      if EndsWith(n, ".json") && dir + [n] in files {
        index := index[key(n) := dir + [n]];
      }
      i := i + 1;
    }
    assert names[..|names|] == names;
  }

  // ---- 5) the fields ----

  const DefaultFields: seq<string> := ["scan_no", "fond", "opis", "delo", "text", "entity_type", "entity_value", "extra"]

  /** FIELD_LABELS: the column heading of each known field. */
  const FieldLabels: map<string, string> := map[
    "scan_no" := "№ скана", "fond" := "Фонд", "opis" := "Опись", "delo" := "Дело",
    "text" := "Расшифрованный текст", "entity_type" := "Тип предопределенный атрибут",
    "entity_value" := "Предопределенный атрибут", "extra" := "Дополнительная информация"]

  /** The known fields of fs, in order. */
  function KnownFields(fs: seq<string>): (r: seq<string>)
    ensures |r| <= |fs|
    ensures forall f :: f in r <==> f in fs && f in FieldLabels
  {
    Labelled(fs, FieldLabels)
  }

  /** The entries of fs that have a label, in order. */
  function Labelled(fs: seq<string>, labels: map<string, string>): (r: seq<string>)
    ensures |r| <= |fs|
    ensures forall f :: f in r <==> f in fs && f in labels
  {
    if fs == [] then []
    else Labelled(fs[..|fs| - 1], labels) + (if fs[|fs| - 1] in labels then [fs[|fs| - 1]] else [])
  }

  /** `fields or default_fields`, typos dropped; an absent or empty list (both []) means every field. */
  function SelectFields(fields: seq<string>): (r: seq<string>)
    ensures forall f :: f in r ==> f in FieldLabels
    ensures fields != [] ==> forall f :: f in r <==> f in fields && f in FieldLabels
  {
    KnownFields(if fields != [] then fields else DefaultFields)
  }

  /** A list of known fields is kept whole. */
  lemma KnownFieldsAll(fs: seq<string>)
    requires forall f :: f in fs ==> f in FieldLabels
    ensures KnownFields(fs) == fs
  {
    LabelledAll(fs, FieldLabels);
  }

  lemma {:induction false} LabelledAll(fs: seq<string>, labels: map<string, string>)
    requires forall f :: f in fs ==> f in labels
    ensures Labelled(fs, labels) == fs
  {
    if fs != [] {
      var init, last := fs[..|fs| - 1], fs[|fs| - 1];
      assert forall f :: f in init ==> f in fs;
      LabelledAll(init, labels);
      assert init + [last] == fs;
    }
  }

  /** With no choice every field is selected, in the default order. */
  lemma SelectFieldsDefault()
    ensures SelectFields([]) == DefaultFields
  {
    KnownFieldsAll(DefaultFields);
  }

  /** The header row: the label of each selected field. */
  function Header(selected: seq<string>): (r: seq<string>)
    requires forall f :: f in selected ==> f in FieldLabels
    ensures |r| == |selected| && forall c :: 0 <= c < |selected| ==> r[c] == FieldLabels[selected[c]]
  {
    seq(|selected|, c requires 0 <= c < |selected| => FieldLabels[selected[c]])
  }

  // ---- 6) the rows ----

  /** row_map: the value of every field for one row. */
  function RowMap(scanNo: nat, card: Card, text: string, etype: string, value: string): map<string, string>
  {
    map["scan_no" := NatToStr(scanNo), "fond" := card.fond, "opis" := card.opis, "delo" := card.delo,
        "text" := text, "entity_type" := etype, "entity_value" := value, "extra" := ""]
  }

  /** [row_map.get(f, "") for f in selected_fields] */
  function Row(m: map<string, string>, selected: seq<string>): (r: seq<string>)
    ensures |r| == |selected|
    ensures forall c :: 0 <= c < |selected| ==> r[c] == (if selected[c] in m then m[selected[c]] else "")
  {
    seq(|selected|, c requires 0 <= c < |selected| => if selected[c] in m then m[selected[c]] else "")
  }

  /** The rows of one (text, ents) pair: one without entities when nothing is grouped, else one per type with its values joined. */
  function PairRows(scanNo: nat, card: Card, text: string, grouped: seq<Group>, selected: seq<string>, joiner: string): seq<seq<string>>
  {
    if grouped == [] then [Row(RowMap(scanNo, card, text, "", ""), selected)]
    else seq(|grouped|, k requires 0 <= k < |grouped| =>
               Row(RowMap(scanNo, card, text, grouped[k].etype, Join(grouped[k].values, joiner)), selected))
  }

  /** The grouping of one entities value, as _group_entities with the request's order and dedup. */
  function Grouping(order: seq<string>, dedup: bool, show: Json -> string): Json -> Result<seq<Group>, string>
  {
    ents => GroupEntitiesSpec(ents, order, dedup, show)
  }

  /** The (text, ents) pairs of a payload, as _iter_text_and_ents. */
  function PairsOf(show: Json -> string): Json -> Result<seq<TextEnts>, string>
  {
    data => IterTextAndEnts(data, show)
  }

  /** The rows of the pairs of one payload, in order; `group` is the entity grouping. */
  function PairsRows(scanNo: nat, card: Card, pairs: seq<TextEnts>, selected: seq<string>, joiner: string,
                     group: Json -> Result<seq<Group>, string>): Result<seq<seq<string>>, int>
  {
    if pairs == [] then Ok([])
    else
      match PairsRows(scanNo, card, pairs[..|pairs| - 1], selected, joiner, group)
      case Err(c) => Err(c)
      case Ok(acc) =>
        var p := pairs[|pairs| - 1];
        match group(p.ents)
        case Err(_) => Err(ServerError)
        case Ok(grouped) => Ok(acc + PairRows(scanNo, card, p.text, grouped, selected, joiner))
  }

  /** The payload behind a result path: the parsed JSON of the file. */
  function Payload(files: map<Path, FileData>, p: Path): Result<Json, int>
  {
    if p in files && files[p].JsonFile? then Ok(files[p].value) else Err(ServerError)
  }

  /**
   * The rows of the file at 1-based position scanNo: one empty row when no result has its key, else the
   * rows of the pairs of its result; `key` is the report's _stem_norm and `pairsOf` _iter_text_and_ents.
   */
  function FileRows(scanNo: nat, card: Card, f: Keyed, index: map<string, Path>, files: map<Path, FileData>,
                    selected: seq<string>, joiner: string, group: Json -> Result<seq<Group>, string>,
                    key: string -> string, pairsOf: Json -> Result<seq<TextEnts>, string>): Result<seq<seq<string>>, int>
  {
    var stem := key(Strip(f.name));
    if stem !in index then Ok([Row(RowMap(scanNo, card, "", "", ""), selected)])
    else
      match Payload(files, index[stem])
      case Err(c) => Err(c)
      case Ok(data) =>
        match pairsOf(data)
        case Err(_) => Err(ServerError)
        case Ok(pairs) => PairsRows(scanNo, card, pairs, selected, joiner, group)
  }

  /** FileRows as a function of the scan number and the file. */
  function RowsOf(card: Card, index: map<string, Path>, files: map<Path, FileData>,
                  selected: seq<string>, joiner: string, group: Json -> Result<seq<Group>, string>,
                  key: string -> string, pairsOf: Json -> Result<seq<TextEnts>, string>): (nat, Keyed) -> Result<seq<seq<string>>, int>
  {
    (scanNo: nat, f: Keyed) => FileRows(scanNo, card, f, index, files, selected, joiner, group, key, pairsOf)
  }

  /** The rows of every file, the first file numbered 1. */
  function AllRows(sorted: seq<Keyed>, card: Card, index: map<string, Path>, files: map<Path, FileData>,
                   selected: seq<string>, joiner: string, group: Json -> Result<seq<Group>, string>,
                   key: string -> string, pairsOf: Json -> Result<seq<TextEnts>, string>): Result<seq<seq<string>>, int>
  {
    ResultSeq.ConcatNumbered(sorted, RowsOf(card, index, files, selected, joiner, group, key, pairsOf))
  }

  /**
   * The rows of a pair: one row when nothing is grouped, else one row per entity type in grouping order,
   * carrying that type and its values joined; every row carries the scan number and the text, and has a
   * cell for each selected field.
   */
  lemma PairRowsShape(scanNo: nat, card: Card, text: string, grouped: seq<Group>, selected: seq<string>, joiner: string, c: nat)
    requires c < |selected|
    ensures var rows := PairRows(scanNo, card, text, grouped, selected, joiner);
            && |rows| == (if grouped == [] then 1 else |grouped|)
            && (forall k :: 0 <= k < |rows| ==> |rows[k]| == |selected|)
            && (selected[c] == "scan_no" ==> forall k :: 0 <= k < |rows| ==> rows[k][c] == NatToStr(scanNo))
            && (selected[c] == "text" ==> forall k :: 0 <= k < |rows| ==> rows[k][c] == text)
            && (selected[c] == "entity_type" ==> forall k :: 0 <= k < |rows| ==> rows[k][c] == if grouped == [] then "" else grouped[k].etype)
            && (selected[c] == "entity_value" ==> forall k :: 0 <= k < |rows| ==> rows[k][c] == if grouped == [] then "" else Join(grouped[k].values, joiner))
  {
  }

  /** Every row of the rows of one pair has a cell per selected field and the scan number. */
  lemma PairRowsCells(scanNo: nat, card: Card, text: string, grouped: seq<Group>, selected: seq<string>, joiner: string)
    ensures var rows := PairRows(scanNo, card, text, grouped, selected, joiner);
            && |rows| >= 1
            && (forall k :: 0 <= k < |rows| ==> |rows[k]| == |selected|)
            && (forall k, c :: 0 <= k < |rows| && 0 <= c < |selected| && selected[c] == "scan_no" ==> rows[k][c] == NatToStr(scanNo))
  {
  }

  /** Every row of a payload's pairs has a cell per selected field and the scan number; there is at least one row per pair. */
  lemma {:induction false} PairsRowsShape(scanNo: nat, card: Card, pairs: seq<TextEnts>, selected: seq<string>, joiner: string,
                                         group: Json -> Result<seq<Group>, string>)
    requires PairsRows(scanNo, card, pairs, selected, joiner, group).Ok?
    ensures var rows := PairsRows(scanNo, card, pairs, selected, joiner, group).value;
            && |rows| >= |pairs|
            && (forall k :: 0 <= k < |rows| ==> |rows[k]| == |selected|)
            && (forall k, c :: 0 <= k < |rows| && 0 <= c < |selected| && selected[c] == "scan_no" ==> rows[k][c] == NatToStr(scanNo))
  {
    if pairs != [] {
      var p := pairs[|pairs| - 1];
      PairsRowsShape(scanNo, card, pairs[..|pairs| - 1], selected, joiner, group);
      PairRowsCells(scanNo, card, p.text, group(p.ents).value, selected, joiner);
    }
  }

  /**
   * The rows of one file: exactly one row with empty text and entity cells when it has no result; in
   * every case a cell per selected field and the file's scan number.
   */
  lemma FileRowsShape(scanNo: nat, card: Card, f: Keyed, index: map<string, Path>, files: map<Path, FileData>,
                      selected: seq<string>, joiner: string, group: Json -> Result<seq<Group>, string>,
                      key: string -> string, pairsOf: Json -> Result<seq<TextEnts>, string>)
    requires FileRows(scanNo, card, f, index, files, selected, joiner, group, key, pairsOf).Ok?
    ensures var rows := FileRows(scanNo, card, f, index, files, selected, joiner, group, key, pairsOf).value;
            && (forall k :: 0 <= k < |rows| ==> |rows[k]| == |selected|)
            && (forall k, c :: 0 <= k < |rows| && 0 <= c < |selected| && selected[c] == "scan_no" ==> rows[k][c] == NatToStr(scanNo))
            && (key(Strip(f.name)) !in index ==>
                  |rows| == 1 && forall c :: 0 <= c < |selected| && selected[c] in {"text", "entity_type", "entity_value", "extra"} ==> rows[0][c] == "")
  {
    var stem := key(Strip(f.name));
    if stem in index {
      var data := Payload(files, index[stem]).value;
      PairsRowsShape(scanNo, card, pairsOf(data).value, selected, joiner, group);
    }
  }

  /** Every row of the report has one cell per selected field, so it lines up with the header. */
  lemma {:induction false} AllRowsWidth(sorted: seq<Keyed>, card: Card, index: map<string, Path>, files: map<Path, FileData>,
                                        selected: seq<string>, joiner: string, group: Json -> Result<seq<Group>, string>,
                                        key: string -> string, pairsOf: Json -> Result<seq<TextEnts>, string>)
    requires AllRows(sorted, card, index, files, selected, joiner, group, key, pairsOf).Ok?
    ensures forall row :: row in AllRows(sorted, card, index, files, selected, joiner, group, key, pairsOf).value ==> |row| == |selected|
  {
    if sorted != [] {
      AllRowsWidth(sorted[..|sorted| - 1], card, index, files, selected, joiner, group, key, pairsOf);
      FileRowsShape(|sorted|, card, sorted[|sorted| - 1], index, files, selected, joiner, group, key, pairsOf);
    }
  }

  /** The rows of the files before position n come first: the report lists the files in sorted order. */
  lemma {:induction false} AllRowsPrefix(sorted: seq<Keyed>, n: nat, card: Card, index: map<string, Path>, files: map<Path, FileData>,
                                         selected: seq<string>, joiner: string, group: Json -> Result<seq<Group>, string>,
                                         key: string -> string, pairsOf: Json -> Result<seq<TextEnts>, string>)
    requires n <= |sorted| && AllRows(sorted, card, index, files, selected, joiner, group, key, pairsOf).Ok?
    ensures AllRows(sorted[..n], card, index, files, selected, joiner, group, key, pairsOf).Ok?
    ensures AllRows(sorted[..n], card, index, files, selected, joiner, group, key, pairsOf).value
              <= AllRows(sorted, card, index, files, selected, joiner, group, key, pairsOf).value
  {
    ResultSeq.ConcatNumberedPrefix(sorted, RowsOf(card, index, files, selected, joiner, group, key, pairsOf), n);
  }

  // ---- the row loops ----

  /** The loop over grouped.items() of one pair. */
  method AppendPairRows(rows0: seq<seq<string>>, scanNo: nat, card: Card, text: string, grouped: seq<Group>,
                        selected: seq<string>, joiner: string) returns (rows: seq<seq<string>>)
    ensures rows == rows0 + PairRows(scanNo, card, text, grouped, selected, joiner)
  {
    rows := rows0;
    if grouped == [] {
      rows := rows + [Row(RowMap(scanNo, card, text, "", ""), selected)];
      return;
    }
    var k := 0;
    while k < |grouped|
      invariant 0 <= k <= |grouped|
      invariant rows == rows0 + PairRows(scanNo, card, text, grouped, selected, joiner)[..k]
    {
      var block := Join(grouped[k].values, joiner);
      rows := rows + [Row(RowMap(scanNo, card, text, grouped[k].etype, block), selected)];
      k := k + 1;
    }
  }

  lemma {:induction false} PairsRowsErrSticks(scanNo: nat, card: Card, pairs: seq<TextEnts>, selected: seq<string>, joiner: string,
                                              group: Json -> Result<seq<Group>, string>, n: nat)
    requires n <= |pairs| && PairsRows(scanNo, card, pairs[..n], selected, joiner, group).Err?
    ensures PairsRows(scanNo, card, pairs, selected, joiner, group) == PairsRows(scanNo, card, pairs[..n], selected, joiner, group)
    decreases |pairs| - n
  {
    if n < |pairs| {
      assert pairs[..n + 1][..n] == pairs[..n];
      PairsRowsErrSticks(scanNo, card, pairs, selected, joiner, group, n + 1);
    } else {
      assert pairs[..n] == pairs;
    }
  }

  /** The loop over the (text, ents) pairs of one payload. */
  method PayloadRows(scanNo: nat, card: Card, pairs: seq<TextEnts>, selected: seq<string>, joiner: string,
                     order: seq<string>, dedup: bool, show: Json -> string) returns (r: Result<seq<seq<string>>, int>)
    ensures r == PairsRows(scanNo, card, pairs, selected, joiner, Grouping(order, dedup, show))
  {
    ghost var group := Grouping(order, dedup, show);
    var rows: seq<seq<string>> := [];
    var i := 0;
    while i < |pairs|
      invariant 0 <= i <= |pairs|
      invariant PairsRows(scanNo, card, pairs[..i], selected, joiner, group) == Ok(rows)
    {
      assert pairs[..i + 1][..i] == pairs[..i];
      var grouped := GroupEntities(pairs[i].ents, order, dedup, show);
      assert group(pairs[i].ents) == grouped;
      if grouped.Err? {
        PairsRowsErrSticks(scanNo, card, pairs, selected, joiner, group, i + 1);
        return Err(ServerError);
      }
      rows := AppendPairRows(rows, scanNo, card, pairs[i].text, grouped.value, selected, joiner);
      i := i + 1;
    }
    assert pairs[..|pairs|] == pairs;
    return Ok(rows);
  }

  /** The body of the loop over the files. */
  method RowsOfFile(scanNo: nat, card: Card, f: Keyed, index: map<string, Path>, files: map<Path, FileData>,
                    selected: seq<string>, joiner: string, order: seq<string>, dedup: bool, show: Json -> string)
    returns (r: Result<seq<seq<string>>, int>)
    ensures r == FileRows(scanNo, card, f, index, files, selected, joiner, Grouping(order, dedup, show), ReportKey, PairsOf(show))
  {
    var stem := ReportKey(Strip(f.name));
    if stem !in index {
      return Ok([Row(RowMap(scanNo, card, "", "", ""), selected)]);
    }
    var data := Payload(files, index[stem]);
    if data.Err? {
      return Err(data.error);
    }
    var pairs := IterTextAndEnts(data.value, show);
    assert PairsOf(show)(data.value) == pairs;
    if pairs.Err? {
      return Err(ServerError);
    }
    r := PayloadRows(scanNo, card, pairs.value, selected, joiner, order, dedup, show);
  }

  lemma AllRowsSnoc(sorted: seq<Keyed>, card: Card, index: map<string, Path>, files: map<Path, FileData>,
                    selected: seq<string>, joiner: string, group: Json -> Result<seq<Group>, string>,
                    key: string -> string, pairsOf: Json -> Result<seq<TextEnts>, string>,
                    i: nat, acc: seq<seq<string>>, rows: seq<seq<string>>)
    requires i < |sorted| && AllRows(sorted[..i], card, index, files, selected, joiner, group, key, pairsOf) == Ok(acc)
    requires FileRows(i + 1, card, sorted[i], index, files, selected, joiner, group, key, pairsOf) == Ok(rows)
    ensures AllRows(sorted[..i + 1], card, index, files, selected, joiner, group, key, pairsOf) == Ok(acc + rows)
  {
    ResultSeq.ConcatNumberedSnoc(sorted, RowsOf(card, index, files, selected, joiner, group, key, pairsOf), i, acc, rows);
  }

  lemma AllRowsFailsAt(sorted: seq<Keyed>, card: Card, index: map<string, Path>, files: map<Path, FileData>,
                       selected: seq<string>, joiner: string, group: Json -> Result<seq<Group>, string>,
                       key: string -> string, pairsOf: Json -> Result<seq<TextEnts>, string>,
                       i: nat, acc: seq<seq<string>>)
    requires i < |sorted| && AllRows(sorted[..i], card, index, files, selected, joiner, group, key, pairsOf) == Ok(acc)
    requires FileRows(i + 1, card, sorted[i], index, files, selected, joiner, group, key, pairsOf).Err?
    ensures AllRows(sorted, card, index, files, selected, joiner, group, key, pairsOf)
              == Err(FileRows(i + 1, card, sorted[i], index, files, selected, joiner, group, key, pairsOf).error)
  {
    ResultSeq.ConcatNumberedFailsAt(sorted, RowsOf(card, index, files, selected, joiner, group, key, pairsOf), i, acc);
  }

  /** `for idx, meta in enumerate(metas, start=1)`: the rows of every file in turn. */
  method BuildRows(sorted: seq<Keyed>, card: Card, index: map<string, Path>, files: map<Path, FileData>,
                   selected: seq<string>, joiner: string, order: seq<string>, dedup: bool, show: Json -> string)
    returns (r: Result<seq<seq<string>>, int>)
    ensures r == AllRows(sorted, card, index, files, selected, joiner, Grouping(order, dedup, show), ReportKey, PairsOf(show))
  {
    var rows: seq<seq<string>> := [];
    for i := 0 to |sorted|
      invariant AllRows(sorted[..i], card, index, files, selected, joiner, Grouping(order, dedup, show), ReportKey, PairsOf(show)) == Ok(rows)
    {
      var fr := RowsOfNextFile(sorted, i, rows, card, index, files, selected, joiner, order, dedup, show);
      if fr.Err? {
        return Err(fr.error);
      }
      rows := rows + fr.value;
    }
    assert sorted[..|sorted|] == sorted;
    return Ok(rows);
  }

  /** One turn of the loop over the files: file i is numbered i + 1 and its rows follow the earlier ones. */
  method RowsOfNextFile(sorted: seq<Keyed>, i: nat, rows: seq<seq<string>>, card: Card, index: map<string, Path>,
                        files: map<Path, FileData>, selected: seq<string>, joiner: string, order: seq<string>,
                        dedup: bool, show: Json -> string)
    returns (fr: Result<seq<seq<string>>, int>)
    requires i < |sorted|
    requires AllRows(sorted[..i], card, index, files, selected, joiner, Grouping(order, dedup, show), ReportKey, PairsOf(show)) == Ok(rows)
    ensures fr.Err? ==>
      AllRows(sorted, card, index, files, selected, joiner, Grouping(order, dedup, show), ReportKey, PairsOf(show)) == Err(fr.error)
    ensures fr.Ok? ==>
      AllRows(sorted[..i + 1], card, index, files, selected, joiner, Grouping(order, dedup, show), ReportKey, PairsOf(show))
        == Ok(rows + fr.value)
  {
    fr := RowsOfFile(i + 1, card, sorted[i], index, files, selected, joiner, order, dedup, show);
    if fr.Err? {
      AllRowsFailsAt(sorted, card, index, files, selected, joiner, Grouping(order, dedup, show), ReportKey, PairsOf(show), i, rows);
    } else {
      AllRowsSnoc(sorted, card, index, files, selected, joiner, Grouping(order, dedup, show), ReportKey, PairsOf(show), i, rows, fr.value);
    }
  }

  // ---- the whole builder ----

  /** The header and the rows handed to the CSV/XLSX writers. */
  datatype Report = Report(header: seq<string>, rows: seq<seq<string>>)

  /** Steps 1 and 2: the card and the group's files in report order. */
  function FilesInOrder(base: Path, st: StoreState, gid: string, listing: seq<string>, show: Json -> string): Result<(Card, seq<Keyed>), int>
  {
    match GroupCard(base, st, gid, show)
    case Err(c) => Err(c)
    case Ok(card) =>
      match FileIdsSpec(base, st, gid, listing)
      case Err(c) => Err(c)
      case Ok(ids) =>
        match MetasSpec(base, st, ids, show)
        case Err(c) => Err(c)
        case Ok(metas) =>
          match SortedMetas(metas)
          case Err(c) => Err(c)
          case Ok(sorted) => Ok((card, sorted))
  }

  /** ReportBuilder.__call__ up to the rendering, given the files under the data directory and the stage directory's entries. */
  function ReportSpec(base: Path, st: StoreState, files: map<Path, FileData>, data: Path, gid: string, stage: string,
                      fields: seq<string>, order: seq<string>, joiner: string, dedup: bool, show: Json -> string,
                      listing: seq<string>, names: seq<string>): Result<Report, int>
  {
    match FilesInOrder(base, st, gid, listing, show)
    case Err(c) => Err(c)
    case Ok(cs) => ReportOf(cs.0, cs.1, files, ReportStageDir(data, gid, stage), fields, order, joiner, dedup, show, names)
  }

  /** Steps 4 to 6 once the card and the sorted files are known: the header and every file's rows. */
  function ReportOf(card: Card, sorted: seq<Keyed>, files: map<Path, FileData>, dir: Path, fields: seq<string>,
                    order: seq<string>, joiner: string, dedup: bool, show: Json -> string, names: seq<string>): Result<Report, int>
  {
    var index := StemIndex(dir, files, names, ReportKey);
    var selected := SelectFields(fields);
    match AllRows(sorted, card, index, files, selected, joiner, Grouping(order, dedup, show), ReportKey, PairsOf(show))
    case Err(c) => Err(c)
    case Ok(rows) => Ok(Report(Header(selected), rows))
  }

  /** The ids step: the index's list, or the fallback loop over the listed file records. */
  method CollectFileIds(base: Path, st: StoreState, gid: string, listing: seq<string>) returns (r: Result<seq<Json>, int>)
    ensures r == FileIdsSpec(base, st, gid, listing)
  {
    var indexed := ExistsSpec(base, st, IndexKey(gid));
    if indexed.Err? {
      return Err(ServerError);
    }
    if indexed.value {
      var idx := ReadSpec(base, st, IndexKey(gid));
      if idx.Err? {
        return Err(ServerError);
      }
      return IndexedIds(idx.value);
    }
    if ListSpec(base, st, "files", true).Err? {
      return Err(ServerError);
    }
    r := ScanFileRecords(base, st, gid, listing);
  }

  /** Steps 1 and 2 as the builder runs them. */
  method LoadFiles(base: Path, st: StoreState, gid: string, listing: seq<string>, show: Json -> string) returns (r: Result<(Card, seq<Keyed>), int>)
    ensures r == FilesInOrder(base, st, gid, listing, show)
  {
    var card := GroupCard(base, st, gid, show);
    if card.Err? {
      return Err(card.error);
    }
    var ids := CollectFileIds(base, st, gid, listing);
    if ids.Err? {
      return Err(ids.error);
    }
    var metas := LoadMetas(base, st, ids.value, show);
    if metas.Err? {
      return Err(metas.error);
    }
    var sorted := SortedMetas(metas.value);
    if sorted.Err? {
      return Err(sorted.error);
    }
    return Ok((card.value, sorted.value));
  }

  /**
   * ReportBuilder.__call__: `listing` is the order in which store.list("files") enumerates the file
   * records and `names` the order in which the stage directory's entries are globbed. Once the files
   * are loaded and sorted, a missing stage directory is created with its parents; nothing else changes.
   */
  method BuildReport(base: Path, st: StoreState, fs: FileSystem, data: Path, gid: string, stage: string,
                     fields: seq<string>, order: seq<string>, joiner: string, dedup: bool, show: Json -> string,
                     listing: seq<string>, names: seq<string>) returns (r: Result<Report, int>)
    requires ListSpec(base, st, "files", true).Ok? ==> (set k | k in listing) == ListSpec(base, st, "files", true).value
    requires forall n :: ReportStageDir(data, gid, stage) + [n] in fs.files ==> n in names
    modifies fs
    ensures fs.files == old(fs.files)
    ensures fs.dirs == if FilesInOrder(base, st, gid, listing, show).Ok? && !old(fs.Exists(ReportStageDir(data, gid, stage)))
                       then old(fs.dirs) + Prefixes(ReportStageDir(data, gid, stage)) else old(fs.dirs)
    ensures r == ReportSpec(base, st, fs.files, data, gid, stage, fields, order, joiner, dedup, show, listing, names)
  {
    var loaded := LoadFiles(base, st, gid, listing, show);
    if loaded.Err? {
      return Err(loaded.error);
    }
    var card := loaded.value.0;
    var sorted := loaded.value.1;
    var dir := ReportStageDir(data, gid, stage);
    fs.EnsureDir(dir);
    r := AssembleReport(card, sorted, fs.files, dir, fields, order, joiner, dedup, show, names);
  }

  /** Steps 4 to 6 as the builder runs them, over the files of the stage directory. */
  method AssembleReport(card: Card, sorted: seq<Keyed>, files: map<Path, FileData>, dir: Path, fields: seq<string>,
                        order: seq<string>, joiner: string, dedup: bool, show: Json -> string, names: seq<string>)
    returns (r: Result<Report, int>)
    ensures r == ReportOf(card, sorted, files, dir, fields, order, joiner, dedup, show, names)
  {
    var index := IndexByStem(dir, files, names, ReportKey);
    var selected := SelectFields(fields);
    var rows := BuildRows(sorted, card, index, files, selected, joiner, order, dedup, show);
    if rows.Err? {
      return Err(rows.error);
    }
    return Ok(Report(Header(selected), rows.value));
  }

  /** A report's header has a cell per selected field, and so has every row. */
  lemma ReportAligned(base: Path, st: StoreState, files: map<Path, FileData>, data: Path, gid: string, stage: string,
                      fields: seq<string>, order: seq<string>, joiner: string, dedup: bool, show: Json -> string,
                      listing: seq<string>, names: seq<string>)
    requires ReportSpec(base, st, files, data, gid, stage, fields, order, joiner, dedup, show, listing, names).Ok?
    ensures var rep := ReportSpec(base, st, files, data, gid, stage, fields, order, joiner, dedup, show, listing, names).value;
            |rep.header| == |SelectFields(fields)| && forall row :: row in rep.rows ==> |row| == |rep.header|
  {
    var cs := FilesInOrder(base, st, gid, listing, show).value;
    var index := StemIndex(ReportStageDir(data, gid, stage), files, names, ReportKey);
    AllRowsWidth(cs.1, cs.0, index, files, SelectFields(fields), joiner, Grouping(order, dedup, show), ReportKey, PairsOf(show));
  }

  /** A report for a group without a card is refused with 404. */
  lemma MissingGroupNotFound(base: Path, st: StoreState, files: map<Path, FileData>, data: Path, gid: string, stage: string,
                             fields: seq<string>, order: seq<string>, joiner: string, dedup: bool, show: Json -> string,
                             listing: seq<string>, names: seq<string>)
    requires ExistsSpec(base, st, GroupKey(gid)) == Ok(false)
    ensures ReportSpec(base, st, files, data, gid, stage, fields, order, joiner, dedup, show, listing, names) == Err(NotFoundStatus)
  {
  }
}
