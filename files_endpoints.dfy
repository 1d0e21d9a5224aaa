// The file endpoints of the backend (backend/src/api/v1/endpoints/files.py): the administrative
// status patch and the recognised content of a file at the process or final stage.
module FilesEndpoints {
  import opened Wrappers
  import opened Paths
  import opened JsonValues
  import opened LocalStorage
  import opened Common
  import opened Records

  /** The stage query parameter must match ^(process|final)$; anything else is refused with 422. */
  predicate ValidStage(stage: string) { stage == "process" || stage == "final" }

  /** The group a file record belongs to: rec["group_uuid"], which must be a string to build a path. */
  function GroupOf(rec: Json): (r: Result<string, int>)
    ensures r.Ok? <==> rec.JObj? && "group_uuid" in rec.fields && rec.fields["group_uuid"].JStr?
    ensures r.Ok? ==> r.value == rec.fields["group_uuid"].s
  {
    match Field(rec, "group_uuid")
    case Err(c) => Err(c)
    case Ok(g) => AsText(g)
  }

  /** The filename of a response: original_name when truthy, else filename (absent counts as ""). */
  function ResponseName(rec: map<string, Json>): Json
  {
    Or(Get(rec, "original_name"), GetOr(rec, "filename", JStr("")))
  }

  /** FileOut built from a record after its status was set. */
  function RecordOut(rec: Json): Result<FileOut, int>
  {
    match Field(rec, "file_uuid")
    case Err(c) => Err(c)
    case Ok(f) =>
      match AsText(f)
      case Err(c) => Err(c)
      case Ok(fid) =>
        match GroupOf(rec)
        case Err(c) => Err(c)
        case Ok(gid) => MakeFileOut(fid, gid, ResponseName(rec.fields), Get(rec.fields, "status"))
  }

  /** The record of a file, when it exists: 404 when it does not, 500 when the key is refused. */
  function LoadRecord(base: Path, st: StoreState, fid: string): Result<Json, int>
  {
    match StoreExists(base, st, FileKey(fid))
    case Err(c) => Err(c)
    case Ok(present) => if !present then Err(NotFoundStatus) else StoreRead(base, st, FileKey(fid))
  }

  /** PATCH /files/{fid}: the status is set in the record, written to the mirror first and then to the store. */
  function PatchFileSpec(base: Path, data: Path, w: World, fid: string, s: FileStatus, mirrorOk: bool, storeOk: bool)
    : (Result<FileOut, int>, World)
  {
    match LoadRecord(base, w.st, fid)
    case Err(c) => (Err(c), w)
    case Ok(rec) =>
      match SetField(rec, "status", JStr(StatusName(s)))
      case Err(c) => (Err(c), w)
      case Ok(rec') =>
        match GroupOf(rec')
        case Err(c) => (Err(c), w)
        case Ok(gid) =>
          var (mirrored, w1) := WriteJson(w, MirrorPath(data, gid, fid), rec', mirrorOk);
          if !mirrored then (Err(ServerError), w1)
          else
            var (stored, w2) := StoreReplace(base, w1, FileKey(fid), rec', storeOk);
            if !stored then (Err(ServerError), w2)
            else (RecordOut(rec'), w2)
  }

  /** GET /files/{fid}/content?stage=...: the JSON stored for that stage. */
  function GetContentSpec(base: Path, data: Path, w: World, fid: string, stage: string): Result<Json, int>
  {
    if !ValidStage(stage) then Err(Unprocessable)
    else
      match LoadRecord(base, w.st, fid)
      case Err(c) => Err(c)
      case Ok(meta) =>
        match GroupOf(meta)
        case Err(c) => Err(c)
        case Ok(gid) =>
          var p := ContentPath(data, gid, stage, fid);
          if !PathExists(w, p) then Err(NotFoundStatus)
          else if p in w.files && w.files[p].JsonFile? then Ok(w.files[p].value)
          else Err(ServerError)
  }

  /**
   * PUT /files/{fid}/content?stage=...: the payload is written for the stage; for "process" the record
   * then becomes "done", in the store and then in the mirror.
   */
  function PutContentSpec(base: Path, data: Path, w: World, fid: string, stage: string, payload: Json,
                          contentOk: bool, storeOk: bool, mirrorOk: bool): (Result<Json, int>, World)
  {
    if !ValidStage(stage) then (Err(Unprocessable), w)
    else
      match LoadRecord(base, w.st, fid)
      case Err(c) => (Err(c), w)
      case Ok(meta) =>
        match GroupOf(meta)
        case Err(c) => (Err(c), w)
        case Ok(gid) =>
          var (written, w1) := WriteJson(w, ContentPath(data, gid, stage, fid), payload, contentOk);
          if !written then (Err(ServerError), w1)
          else if stage != "process" then (Ok(payload), w1)
          else
            var meta' := JObj(meta.fields["status" := JStr("done")]);
            var (stored, w2) := StoreReplace(base, w1, FileKey(fid), meta', storeOk);
            if !stored then (Err(ServerError), w2)
            else
              var (mirrored, w3) := WriteJson(w2, MirrorPath(data, gid, fid), meta', mirrorOk);
              if !mirrored then (Err(ServerError), w3)
              else (Ok(payload), w3)
  }

  /** DELETE /files/{fid}/content?stage=...: 204 whether or not there was anything to remove. */
  function DeleteContentSpec(base: Path, data: Path, w: World, fid: string, stage: string): (int, World)
  {
    if !ValidStage(stage) then (Unprocessable, w)
    else
      match StoreExists(base, w.st, FileKey(fid))
      case Err(c) => (c, w)
      case Ok(present) =>
        if !present then (NoContent, w)
        else
          match StoreRead(base, w.st, FileKey(fid))
          case Err(c) => (c, w)
          case Ok(meta) =>
            match GroupOf(meta)
            case Err(c) => (c, w)
            case Ok(gid) =>
              var p := ContentPath(data, gid, stage, fid);
              if !PathExists(w, p) then (NoContent, w)
              else if p in w.dirs then (ServerError, w)
              else (NoContent, w.(files := w.files - {p}))
  }

  // ---- the handlers ----

  method LoadRecordOf(store: LocalStorage.JsonStore, fid: string) returns (r: Result<Json, int>)
    ensures r == LoadRecord(store.base, store.State(), fid)
  {
    var present := store.Exists(FileKey(fid));
    if present.Err? {
      return Err(ServerError);
    }
    if !present.value {
      return Err(NotFoundStatus);
    }
    var rec := store.Read(FileKey(fid));
    if rec.Err? {
      return Err(ServerError);
    }
    r := Ok(rec.value);
  }

  method PatchFile(store: LocalStorage.JsonStore, fs: FileSystem, data: Path, fid: string, s: FileStatus, mirrorOk: bool, storeOk: bool)
    returns (r: Result<FileOut, int>)
    requires store.Valid()
    modifies store, fs
    ensures store.Valid()
    ensures (r, WorldOf(store, fs)) == PatchFileSpec(store.base, data, old(WorldOf(store, fs)), fid, s, mirrorOk, storeOk)
  {
    var rec := LoadRecordOf(store, fid);
    if rec.Err? {
      return Err(rec.error);
    }
    if !rec.value.JObj? {
      return Err(ServerError);
    }
    var rec' := JObj(rec.value.fields["status" := JStr(StatusName(s))]);
    var gid := GroupOf(rec');
    if gid.Err? {
      return Err(gid.error);
    }
    var mirrored := fs.AtomicWriteJson(MirrorPath(data, gid.value, fid), rec', mirrorOk);
    if !mirrored {
      return Err(ServerError);
    }
    var stored := store.Replace(FileKey(fid), rec', None, storeOk);
    if stored.Err? {
      return Err(ServerError);
    }
    r := RecordOut(rec');
  }

  method GetFileContent(store: LocalStorage.JsonStore, fs: FileSystem, data: Path, fid: string, stage: string)
    returns (r: Result<Json, int>)
    ensures r == GetContentSpec(store.base, data, WorldOf(store, fs), fid, stage)
  {
    if !ValidStage(stage) {
      return Err(Unprocessable);
    }
    var meta := LoadRecordOf(store, fid);
    if meta.Err? {
      return Err(meta.error);
    }
    var gid := GroupOf(meta.value);
    if gid.Err? {
      return Err(gid.error);
    }
    var p := ContentPath(data, gid.value, stage, fid);
    if !(p in fs.files || p in fs.dirs) {
      return Err(NotFoundStatus);
    }
    if p in fs.files && fs.files[p].JsonFile? {
      r := Ok(fs.files[p].value);
    } else {
      r := Err(ServerError);
    }
  }

  method PutFileContent(store: LocalStorage.JsonStore, fs: FileSystem, data: Path, fid: string, stage: string, payload: Json,
                        contentOk: bool, storeOk: bool, mirrorOk: bool)
    returns (r: Result<Json, int>)
    requires store.Valid()
    modifies store, fs
    ensures store.Valid()
    ensures (r, WorldOf(store, fs)) == PutContentSpec(store.base, data, old(WorldOf(store, fs)), fid, stage, payload, contentOk, storeOk, mirrorOk)
  {
    if !ValidStage(stage) {
      return Err(Unprocessable);
    }
    var meta := LoadRecordOf(store, fid);
    if meta.Err? {
      return Err(meta.error);
    }
    var gid := GroupOf(meta.value);
    if gid.Err? {
      return Err(gid.error);
    }
    var written := fs.AtomicWriteJson(ContentPath(data, gid.value, stage, fid), payload, contentOk);
    if !written {
      return Err(ServerError);
    }
    if stage == "process" {
      var meta' := JObj(meta.value.fields["status" := JStr("done")]);
      var stored := store.Replace(FileKey(fid), meta', None, storeOk);
      if stored.Err? {
        return Err(ServerError);
      }
      var mirrored := fs.AtomicWriteJson(MirrorPath(data, gid.value, fid), meta', mirrorOk);
      if !mirrored {
        return Err(ServerError);
      }
    }
    r := Ok(payload);
  }

  method DeleteFileContent(store: LocalStorage.JsonStore, fs: FileSystem, data: Path, fid: string, stage: string)
    returns (code: int)
    modifies fs
    ensures (code, WorldOf(store, fs)) == DeleteContentSpec(store.base, data, old(WorldOf(store, fs)), fid, stage)
  {
    if !ValidStage(stage) {
      return Unprocessable;
    }
    var present := store.Exists(FileKey(fid));
    if present.Err? {
      return ServerError;
    }
    if !present.value {
      return NoContent;
    }
    var meta := store.Read(FileKey(fid));
    if meta.Err? {
      return ServerError;
    }
    var gid := GroupOf(meta.value);
    if gid.Err? {
      return gid.error;
    }
    var p := ContentPath(data, gid.value, stage, fid);
    if !(p in fs.files || p in fs.dirs) {
      return NoContent;
    }
    var removed := fs.Unlink(p);
    code := if removed then NoContent else ServerError;
  }

  // ---- properties of the file endpoints ----

  /** A stage other than process or final is refused with 422 by every content endpoint, before anything else. */
  lemma StageValidated(base: Path, data: Path, w: World, fid: string, stage: string, payload: Json, ok1: bool, ok2: bool, ok3: bool)
    requires !ValidStage(stage)
    ensures GetContentSpec(base, data, w, fid, stage) == Err(Unprocessable)
    ensures PutContentSpec(base, data, w, fid, stage, payload, ok1, ok2, ok3) == (Err(Unprocessable), w)
    ensures DeleteContentSpec(base, data, w, fid, stage) == (Unprocessable, w)
  {
  }

  /** Without a record, patch and the content reads answer 404 and write nothing; delete still answers 204. */
  lemma MissingRecord(base: Path, data: Path, w: World, fid: string, s: FileStatus, stage: string, ok1: bool, ok2: bool)
    requires ExistsSpec(base, w.st, FileKey(fid)) == Ok(false) && ValidStage(stage)
    ensures PatchFileSpec(base, data, w, fid, s, ok1, ok2) == (Err(NotFoundStatus), w)
    ensures GetContentSpec(base, data, w, fid, stage) == Err(NotFoundStatus)
    ensures DeleteContentSpec(base, data, w, fid, stage) == (NoContent, w)
  {
  }

  /**
   * The mirror is written before the store: when the store write fails after the mirror write succeeded,
   * the mirror already holds the new status while the store still holds the old record.
   */
  lemma PatchMirrorFirst(base: Path, data: Path, w: World, fid: string, s: FileStatus)
    requires LoadRecord(base, w.st, fid).Ok? && LoadRecord(base, w.st, fid).value.JObj?
    requires GroupOf(LoadRecord(base, w.st, fid).value).Ok?
    requires MirrorPath(data, GroupOf(LoadRecord(base, w.st, fid).value).value, fid) != []
    ensures var rec := LoadRecord(base, w.st, fid).value;
            var rec' := JObj(rec.fields["status" := JStr(StatusName(s))]);
            var gid := GroupOf(rec).value;
            var (r, w') := PatchFileSpec(base, data, w, fid, s, true, false);
            r == Err(ServerError) && w'.st == w.st && w'.files[MirrorPath(data, gid, fid)] == JsonFile(rec')
  {
    var rec := LoadRecord(base, w.st, fid).value;
    var rec' := JObj(rec.fields["status" := JStr(StatusName(s))]);
    assert GroupOf(rec') == GroupOf(rec);
  }

  /** A successful patch leaves the new status in the store record and in the mirror, and reports it. */
  lemma PatchSetsStatus(base: Path, data: Path, w: World, fid: string, s: FileStatus, mirrorOk: bool, storeOk: bool)
    requires PatchFileSpec(base, data, w, fid, s, mirrorOk, storeOk).0.Ok?
    ensures LoadRecord(base, w.st, fid).Ok? && LoadRecord(base, w.st, fid).value.JObj?
    ensures var rec' := JObj(LoadRecord(base, w.st, fid).value.fields["status" := JStr(StatusName(s))]);
            var (r, w') := PatchFileSpec(base, data, w, fid, s, mirrorOk, storeOk);
            ReadSpec(base, w'.st, FileKey(fid)) == Ok(rec')
            && w'.files[MirrorPath(data, GroupOf(rec').value, fid)] == JsonFile(rec')
            && r.value.status == s
  {
    var rec' := JObj(LoadRecord(base, w.st, fid).value.fields["status" := JStr(StatusName(s))]);
    var gid := GroupOf(rec').value;
    var w1 := WriteJson(w, MirrorPath(data, gid, fid), rec', mirrorOk).1;
    ReadAfterReplace(base, w1.st, FileKey(fid), rec', None, storeOk);
    StatusNameRoundTrip(s, JStr(StatusName(s)));
  }

  /** The response filename is original_name when truthy, else filename, else "". */
  lemma ResponseNameRule(rec: map<string, Json>)
    ensures Truthy(Get(rec, "original_name")) ==> ResponseName(rec) == rec["original_name"]
    ensures !Truthy(Get(rec, "original_name")) && "filename" in rec ==> ResponseName(rec) == rec["filename"]
    ensures !Truthy(Get(rec, "original_name")) && "filename" !in rec ==> ResponseName(rec) == JStr("")
  {
  }

  /**
   * What PUT stored for a stage is what GET returns for it afterwards (for a file id without a separator,
   * as every path parameter is).
   */
  lemma PutThenGet(base: Path, data: Path, w: World, fid: string, stage: string, payload: Json, storeOk: bool, mirrorOk: bool)
    requires Clean(data) && '/' !in fid
    requires PutContentSpec(base, data, w, fid, stage, payload, true, storeOk, mirrorOk).0.Ok?
    ensures GetContentSpec(base, data, PutContentSpec(base, data, w, fid, stage, payload, true, storeOk, mirrorOk).1, fid, stage) == Ok(payload)
  {
    var meta := LoadRecord(base, w.st, fid).value;
    var gid := GroupOf(meta).value;
    var p := ContentPath(data, gid, stage, fid);
    FilePathsLayout(data, gid, fid, stage);
    var w' := PutContentSpec(base, data, w, fid, stage, payload, true, storeOk, mirrorOk).1;
    if stage == "process" {
      var meta' := JObj(meta.fields["status" := JStr("done")]);
      var w1 := WriteJson(w, p, payload, true).1;
      ReadAfterReplace(base, w1.st, FileKey(fid), meta', None, storeOk);
      assert ReadSpec(base, w'.st, FileKey(fid)) == Ok(meta');
      assert GroupOf(meta') == Ok(gid);
    }
    assert LoadRecord(base, w'.st, fid) == Ok(if stage == "process" then JObj(meta.fields["status" := JStr("done")]) else meta);
    assert w'.files[p] == JsonFile(payload);
  }

  /** A content PUT to process marks the file done in the store and the mirror; a PUT to final leaves the store alone. */
  lemma PutProcessMarksDone(base: Path, data: Path, w: World, fid: string, stage: string, payload: Json, contentOk: bool, storeOk: bool, mirrorOk: bool)
    requires PutContentSpec(base, data, w, fid, stage, payload, contentOk, storeOk, mirrorOk).0.Ok?
    ensures LoadRecord(base, w.st, fid).Ok? && LoadRecord(base, w.st, fid).value.JObj?
    ensures var meta' := JObj(LoadRecord(base, w.st, fid).value.fields["status" := JStr("done")]);
            var w' := PutContentSpec(base, data, w, fid, stage, payload, contentOk, storeOk, mirrorOk).1;
            stage == "process" ==> ReadSpec(base, w'.st, FileKey(fid)) == Ok(meta') && GroupOf(meta').Ok?
                                   && MirrorPath(data, GroupOf(meta').value, fid) in w'.files
                                   && w'.files[MirrorPath(data, GroupOf(meta').value, fid)] == JsonFile(meta')
    ensures stage == "final" ==> PutContentSpec(base, data, w, fid, stage, payload, contentOk, storeOk, mirrorOk).1.st == w.st
  {
    var meta := LoadRecord(base, w.st, fid).value;
    if stage == "process" {
      var meta' := JObj(meta.fields["status" := JStr("done")]);
      var gid := GroupOf(meta).value;
      var w1 := WriteJson(w, ContentPath(data, gid, stage, fid), payload, contentOk).1;
      var w2 := StoreReplace(base, w1, FileKey(fid), meta', storeOk).1;
      ReadAfterReplace(base, w1.st, FileKey(fid), meta', None, storeOk);
      assert GroupOf(meta') == Ok(gid);
      var w3 := WriteJson(w2, MirrorPath(data, gid, fid), meta', mirrorOk).1;
      assert PutContentSpec(base, data, w, fid, stage, payload, contentOk, storeOk, mirrorOk).1 == w3;
    }
  }

  /** After deleting content that existed as a file, reading it answers 404. */
  lemma DeleteThenGet(base: Path, data: Path, w: World, fid: string, stage: string)
    requires DeleteContentSpec(base, data, w, fid, stage).0 == NoContent && ValidStage(stage)
    ensures GetContentSpec(base, data, DeleteContentSpec(base, data, w, fid, stage).1, fid, stage).Err?
    ensures LoadRecord(base, w.st, fid).Ok? && GroupOf(LoadRecord(base, w.st, fid).value).Ok? ==>
              GetContentSpec(base, data, DeleteContentSpec(base, data, w, fid, stage).1, fid, stage) == Err(NotFoundStatus)
  {
  }
}
