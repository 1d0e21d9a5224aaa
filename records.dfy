// The records the backend endpoints exchange (backend/src/api/v1/schemas/file_schemas.py,
// group_schemas.py), the state they act on (the document store and the group directories),
// and the keys and file paths under which a file's record and its copies live.
module Records {
  import opened Wrappers
  import opened Text
  import opened Paths
  import opened JsonValues
  import opened LocalStorage
  import opened Common

  /** FileStatus: the three workflow states of an uploaded file. */
  datatype FileStatus = Progress | Upgrading | Done

  function StatusName(s: FileStatus): string
  {
    match s
    case Progress => "progress"
    case Upgrading => "upgrading"
    case Done => "done"
  }

  /** FileStatus(value): accepts exactly the three names; anything else fails validation. */
  function ParseStatus(j: Json): (r: Option<FileStatus>)
    ensures r.Some? <==> j == JStr("progress") || j == JStr("upgrading") || j == JStr("done")
  {
    if j == JStr("progress") then Some(Progress)
    else if j == JStr("upgrading") then Some(Upgrading)
    else if j == JStr("done") then Some(Done)
    else None
  }

  /** Parsing a status name gives the status back, and a value that parses is the name of its status. */
  lemma StatusNameRoundTrip(s: FileStatus, j: Json)
    ensures ParseStatus(JStr(StatusName(s))) == Some(s)
    ensures ParseStatus(j).Some? ==> j == JStr(StatusName(ParseStatus(j).value))
  {
  }

  /** FileOut, the response body describing one file. */
  datatype FileOut = FileOut(fileUuid: string, groupUuid: string, filename: string, status: FileStatus)

  /** GroupOut, the response body describing one group. */
  datatype GroupOut = GroupOut(groupUuid: string, fond: Option<string>, opis: Option<string>, delo: Option<string>)

  // HTTP status codes of the error responses; an exception escaping a handler is a 500.
  const NoContent: int := 204
  const BadRequest: int := 400
  const NotFoundStatus: int := 404
  const Unprocessable: int := 422
  const ServerError: int := 500

  /** Everything the endpoints read and write: the store's documents and the files under the data directory. */
  datatype World = World(st: StoreState, files: map<Path, FileData>, dirs: set<Path>)

  function FileKey(fid: string): string { "files/" + fid }
  function GroupKey(gid: string): string { "groups/" + gid }
  function IndexKey(gid: string): string { "group_index/" + gid }

  /** For ids without a separator or a dot (UUIDs), each kind of key is a document in its own folder. */
  lemma FileKeyPath(base: Path, id: string)
    requires base != [] && Clean(base) && PlainName(id)
    ensures KeyToPath(base, FileKey(id)) == Ok(base + ["files", id + ".json"])
  {
    assert FileKey(id) == "files" + "/" + id;
    PlainKey(base, "files", id);
  }

  lemma GroupKeyPath(base: Path, id: string)
    requires base != [] && Clean(base) && PlainName(id)
    ensures KeyToPath(base, GroupKey(id)) == Ok(base + ["groups", id + ".json"])
  {
    assert GroupKey(id) == "groups" + "/" + id;
    PlainKey(base, "groups", id);
  }

  lemma IndexKeyPath(base: Path, id: string)
    requires base != [] && Clean(base) && PlainName(id)
    ensures KeyToPath(base, IndexKey(id)) == Ok(base + ["group_index", id + ".json"])
  {
    assert IndexKey(id) == "group_index" + "/" + id;
    PlainKey(base, "group_index", id);
  }

  /** group_dir_status(gid) / f"{fid}.json": the mirror of a file's record. */
  function MirrorPath(data: Path, gid: string, fid: string): Path
  {
    Resolve(StatusDir(data, gid), fid + ".json")
  }

  /** stage_dir(gid, stage) / f"{fid}.json": the recognised content of a file at a stage. */
  function ContentPath(data: Path, gid: string, stage: string, fid: string): Path
  {
    Resolve(StageDir(data, gid, stage), fid + ".json")
  }

  /** With a clean data directory, the group directories are clean. */
  lemma GroupDirsClean(data: Path, gid: string)
    requires Clean(data)
    ensures Clean(GroupRoot(data, gid))
    ensures Clean(StatusDir(data, gid)) && Clean(ProcessDir(data, gid)) && Clean(FinalDir(data, gid))
  {
    assert Clean(GroupsDir(data));
    ResolveClean(GroupsDir(data), gid);
  }

  /**
   * For a file id without a separator (a path parameter cannot hold one), the mirror and the content
   * files are direct children of their directories, and the mirror is never a content file.
   */
  lemma FilePathsLayout(data: Path, gid: string, fid: string, stage: string)
    requires Clean(data) && '/' !in fid
    ensures MirrorPath(data, gid, fid) == StatusDir(data, gid) + [fid + ".json"]
    ensures ContentPath(data, gid, stage, fid) == StageDir(data, gid, stage) + [fid + ".json"]
    ensures MirrorPath(data, gid, fid) != ContentPath(data, gid, stage, fid)
  {
    GroupDirsClean(data, gid);
    var c := fid + ".json";
    assert CleanComponent(c) by { assert |c| >= 5 && c[|c| - 1] == 'n'; }
    ResolveComponent(StatusDir(data, gid), c);
    ResolveComponent(StageDir(data, gid, stage), c);
    var n := |GroupRoot(data, gid)|;
    assert MirrorPath(data, gid, fid)[n] == "statuses";
    assert ContentPath(data, gid, stage, fid)[n] != "statuses";
  }

  /** Path.exists(): a file or a directory. */
  predicate PathExists(w: World, p: Path) { p in w.files || p in w.dirs }

  /** obj[k] = v on a decoded document: only a dict accepts it (anything else raises TypeError). */
  function SetField(obj: Json, k: string, v: Json): (r: Result<Json, int>)
    ensures obj.JObj? <==> r.Ok?
    ensures r.Ok? ==> r.value.JObj? && r.value.fields == obj.fields[k := v]
  {
    if obj.JObj? then Ok(JObj(obj.fields[k := v])) else Err(ServerError)
  }

  /** Setting a field to the value it already holds changes nothing. */
  lemma SetFieldIdempotent(obj: Json, k: string, v: Json)
    requires SetField(obj, k, v).Ok?
    ensures SetField(SetField(obj, k, v).value, k, v) == SetField(obj, k, v)
  {
    var m := obj.fields[k := v];
    assert m[k := v] == m;
  }

  /** obj[k] on a decoded document: a missing key (or a non-dict) raises. */
  function Field(obj: Json, k: string): (r: Result<Json, int>)
    ensures r.Ok? <==> obj.JObj? && k in obj.fields
    ensures r.Ok? ==> r.value == obj.fields[k]
  {
    if obj.JObj? && k in obj.fields then Ok(obj.fields[k]) else Err(ServerError)
  }

  /** A string-typed response field: validation refuses anything but a string. */
  function AsText(j: Json): (r: Result<string, int>)
    ensures r.Ok? <==> j.JStr?
    ensures r.Ok? ==> r.value == j.s
  {
    if j.JStr? then Ok(j.s) else Err(ServerError)
  }

  /** FileOut(...) built from decoded values: the filename must be a string and the status one of the three names. */
  function MakeFileOut(fid: string, gid: string, filename: Json, status: Json): (r: Result<FileOut, int>)
    ensures r.Ok? <==> filename.JStr? && ParseStatus(status).Some?
    ensures r.Ok? ==> r.value == FileOut(fid, gid, filename.s, ParseStatus(status).value)
  {
    match ParseStatus(status)
    case None => Err(ServerError)
    case Some(s) => if filename.JStr? then Ok(FileOut(fid, gid, filename.s, s)) else Err(ServerError)
  }

  // ---- the store and the file system, seen from a handler: any exception becomes a 500 ----

  function StoreExists(base: Path, st: StoreState, key: string): Result<bool, int>
  {
    match ExistsSpec(base, st, key)
    case Ok(b) => Ok(b)
    case Err(_) => Err(ServerError)
  }

  function StoreRead(base: Path, st: StoreState, key: string): Result<Json, int>
  {
    match ReadSpec(base, st, key)
    case Ok(d) => Ok(d)
    case Err(_) => Err(ServerError)
  }

  /** store.replace(key, doc) without a version guard. */
  function StoreReplace(base: Path, w: World, key: string, doc: Json, diskOk: bool): (bool, World)
  {
    var (r, st') := ReplaceSpec(base, w.st, key, doc, None, diskOk);
    (r.Ok?, w.(st := st'))
  }

  /** store.create(key, doc, overwrite=True). */
  function StoreOverwrite(base: Path, w: World, key: string, doc: Json, diskOk: bool): (bool, World)
  {
    var (r, st') := CreateSpec(base, w.st, key, doc, true, diskOk);
    (r.Ok?, w.(st := st'))
  }

  /** store.delete(key, missing_ok=True). */
  function StoreDiscard(base: Path, w: World, key: string): (bool, World)
  {
    var (r, st') := DeleteSpec(base, w.st, key, true);
    (r.Ok?, w.(st := st'))
  }

  /** atomic_write_json(path, obj), as FileSystem.AtomicWriteJson performs it. */
  function WriteJson(w: World, path: Path, obj: Json, diskOk: bool): (bool, World)
  {
    var ok := diskOk && path != [];
    (ok, w.(files := if ok then w.files[path := JsonFile(obj)] else w.files, dirs := w.dirs + Prefixes(Parent(path))))
  }

  function WorldOf(store: LocalStorage.JsonStore, fs: FileSystem): World
    reads store, fs
  {
    World(store.State(), fs.files, fs.dirs)
  }

  /** The documents of a store state, without their versions. */
  function Docs(st: StoreState): map<Path, Json>
  {
    map p | p in st.docs :: st.docs[p].doc
  }
}
