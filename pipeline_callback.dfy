// The two status callbacks of the processing pipeline and the postprocessing trigger
// (backend/src/api/v1/endpoints/pipeline_callback.py).
module PipelineCallback {
  import opened Wrappers
  import opened Paths
  import opened JsonValues
  import opened LocalStorage
  import opened Common
  import opened Records

  /** The callback body as decoded JSON: the identifiers when present as strings, and the status as sent. */
  datatype CallbackPayload = CallbackPayload(groupUuid: Option<string>, filename: Option<string>, fileUuid: Option<string>, status: Json)

  /** Python truthiness of an optional string: present and non-empty. */
  predicate Given(o: Option<string>) { o.Some? && o.value != "" }

  /** The GET that trigger_postprocessing sends: the service, and the query parameters before URL encoding. */
  datatype PostprocRequest = PostprocRequest(url: string, port: nat, source: string, dst: string, callback: string)

  const PostprocessingUrl: string := "http://postprocessing"
  const PostprocessingPort: nat := 8000
  const PostprocessingCallbackUrl: string := "http://backend:8000/api/v1/pipeline/callback_postprocessing"

  /** The directory of a group stage as the pipeline containers see it. */
  function ContainerStageDir(gid: string, stage: string): string
  {
    "/out/var/data/groups/" + gid + "/" + stage + "/"
  }

  /** trigger_postprocessing(url, port, source, dst, gid, callback): the one request it sends. */
  function PostprocessingRequest(url: string, port: nat, source: string, dst: string, gid: string, callback: string): (r: PostprocRequest)
    ensures r.url == url && r.port == port && r.callback == callback
    ensures r.source == ContainerStageDir(gid, source) && r.dst == ContainerStageDir(gid, dst)
  {
    PostprocRequest(url, port, ContainerStageDir(gid, source), ContainerStageDir(gid, dst), callback)
  }

  /**
   * trigger_postprocessing: exactly one GET is sent; whatever its outcome (getOk), nothing is raised
   * and nothing is retried.
   */
  method TriggerPostprocessing(url: string, port: nat, source: string, dst: string, gid: string, callback: string, getOk: bool)
    returns (sent: seq<PostprocRequest>)
    ensures sent == [PostprocessingRequest(url, port, source, dst, gid, callback)]
  {
    var req := PostprocessingRequest(url, port, source, dst, gid, callback);
    sent := [req];
    if !getOk {
      // the error is printed and swallowed
    }
  }

  /**
   * Both callback handlers up to their response: the ids are checked, the file id is resolved,
   * the record's status is overwritten in the store and then in the status mirror of the payload's group.
   * resolve stands for _resolve_fid_by_filename; storeOk and mirrorOk say whether the two writes succeed.
   */
  function CallbackSpec(base: Path, data: Path, w: World, p: CallbackPayload, resolve: (string, string) -> Option<string>,
                        storeOk: bool, mirrorOk: bool): (Result<FileOut, int>, World)
  {
    if !Given(p.groupUuid) || !Given(p.filename) then (Err(BadRequest), w)
    else
      var gid := p.groupUuid.value;
      var fid := if Given(p.fileUuid) then p.fileUuid else resolve(gid, p.filename.value);
      if !Given(fid) then (Err(NotFoundStatus), w)
      else RecordStatus(base, data, w, gid, fid.value, p.status, storeOk, mirrorOk)
  }

  /** meta = store.read(files/fid); meta["status"] = status; store.replace; atomic_write_json(mirror); FileOut. */
  function RecordStatus(base: Path, data: Path, w: World, gid: string, fid: string, status: Json,
                        storeOk: bool, mirrorOk: bool): (Result<FileOut, int>, World)
  {
    var key := FileKey(fid);
    match StoreExists(base, w.st, key)
    case Err(c) => (Err(c), w)
    case Ok(present) =>
      if !present then (Err(NotFoundStatus), w)
      else
        match StoreRead(base, w.st, key)
        case Err(c) => (Err(c), w)
        case Ok(meta) =>
          match SetField(meta, "status", status)
          case Err(c) => (Err(c), w)
          case Ok(meta') =>
            var (stored, w1) := StoreReplace(base, w, key, meta', storeOk);
            if !stored then (Err(ServerError), w1)
            else
              var (mirrored, w2) := WriteJson(w1, MirrorPath(data, gid, fid), meta', mirrorOk);
              if !mirrored then (Err(ServerError), w2)
              else (MakeFileOut(fid, gid, Or(Get(meta'.fields, "filename"), JStr("")), status), w2)
  }

  /** The OCR handler schedules postprocessing of process/ into final/ exactly when it answered for status "upgrading". */
  function OcrFollowUp(p: CallbackPayload, r: Result<FileOut, int>): Option<PostprocRequest>
  {
    match p.groupUuid
    case Some(gid) =>
      if r.Ok? && p.status == JStr("upgrading")
      then Some(PostprocessingRequest(PostprocessingUrl, PostprocessingPort, "process", "final", gid, PostprocessingCallbackUrl))
      else None
    case None => None
  }

  /** POST /pipeline/callback_postprocessing. */
  method PostprocessingCallback(store: LocalStorage.JsonStore, fs: FileSystem, data: Path, p: CallbackPayload,
                                resolve: (string, string) -> Option<string>, storeOk: bool, mirrorOk: bool)
    returns (r: Result<FileOut, int>)
    requires store.Valid()
    modifies store, fs
    ensures store.Valid()
    ensures (r, WorldOf(store, fs)) == CallbackSpec(store.base, data, old(WorldOf(store, fs)), p, resolve, storeOk, mirrorOk)
  {
    r := HandleCallback(store, fs, data, p, resolve, storeOk, mirrorOk);
  }

  /** POST /pipeline/callback_ocr: the same update, then possibly a background postprocessing request. */
  method OcrCallback(store: LocalStorage.JsonStore, fs: FileSystem, data: Path, p: CallbackPayload,
                     resolve: (string, string) -> Option<string>, storeOk: bool, mirrorOk: bool)
    returns (r: Result<FileOut, int>, scheduled: Option<PostprocRequest>)
    requires store.Valid()
    modifies store, fs
    ensures store.Valid()
    ensures (r, WorldOf(store, fs)) == CallbackSpec(store.base, data, old(WorldOf(store, fs)), p, resolve, storeOk, mirrorOk)
    ensures scheduled == OcrFollowUp(p, r)
  {
    r := HandleCallback(store, fs, data, p, resolve, storeOk, mirrorOk);
    scheduled := None;
    if r.Ok? && p.status == JStr("upgrading") && p.groupUuid.Some? {
      var req := PostprocessingRequest(PostprocessingUrl, PostprocessingPort, "process", "final", p.groupUuid.value, PostprocessingCallbackUrl);
      scheduled := Some(req);
    }
  }

  method HandleCallback(store: LocalStorage.JsonStore, fs: FileSystem, data: Path, p: CallbackPayload,
                        resolve: (string, string) -> Option<string>, storeOk: bool, mirrorOk: bool)
    returns (r: Result<FileOut, int>)
    requires store.Valid()
    modifies store, fs
    ensures store.Valid()
    ensures (r, WorldOf(store, fs)) == CallbackSpec(store.base, data, old(WorldOf(store, fs)), p, resolve, storeOk, mirrorOk)
  {
    if !Given(p.groupUuid) || !Given(p.filename) {
      return Err(BadRequest);
    }
    var gid := p.groupUuid.value;
    var fid := p.fileUuid;
    if !Given(fid) {
      fid := resolve(gid, p.filename.value);
      if !Given(fid) {
        return Err(NotFoundStatus);
      }
    }
    var key := FileKey(fid.value);
    var present := store.Exists(key);
    if present.Err? {
      return Err(ServerError);
    }
    if !present.value {
      return Err(NotFoundStatus);
    }
    var meta := store.Read(key);
    if meta.Err? {
      return Err(ServerError);
    }
    if !meta.value.JObj? {
      return Err(ServerError);
    }
    var meta' := JObj(meta.value.fields["status" := p.status]);
    var stored := store.Replace(key, meta', None, storeOk);
    if stored.Err? {
      return Err(ServerError);
    }
    var mirrored := fs.AtomicWriteJson(MirrorPath(data, gid, fid.value), meta', mirrorOk);
    if !mirrored {
      return Err(ServerError);
    }
    r := MakeFileOut(fid.value, gid, Or(Get(meta'.fields, "filename"), JStr("")), p.status);
  }

  // ---- properties of the callbacks ----

  /** A missing or empty group_uuid or filename is refused with 400 before any lookup or write. */
  lemma MissingIdsRejected(base: Path, data: Path, w: World, p: CallbackPayload, resolve: (string, string) -> Option<string>,
                           storeOk: bool, mirrorOk: bool)
    requires !Given(p.groupUuid) || !Given(p.filename)
    ensures CallbackSpec(base, data, w, p, resolve, storeOk, mirrorOk) == (Err(BadRequest), w)
  {
  }

  /** Without a file_uuid the id comes from the resolver; an unresolved filename is a 404 and nothing is written. */
  lemma UnresolvedIsNotFound(base: Path, data: Path, w: World, p: CallbackPayload, resolve: (string, string) -> Option<string>,
                             storeOk: bool, mirrorOk: bool)
    requires Given(p.groupUuid) && Given(p.filename) && !Given(p.fileUuid)
    requires !Given(resolve(p.groupUuid.value, p.filename.value))
    ensures CallbackSpec(base, data, w, p, resolve, storeOk, mirrorOk) == (Err(NotFoundStatus), w)
  {
  }

  /** A file id without a record is a 404 and nothing is written. */
  lemma MissingRecordIsNotFound(base: Path, data: Path, w: World, gid: string, fid: string, status: Json, storeOk: bool, mirrorOk: bool)
    requires ExistsSpec(base, w.st, FileKey(fid)) == Ok(false)
    ensures RecordStatus(base, data, w, gid, fid, status, storeOk, mirrorOk) == (Err(NotFoundStatus), w)
  {
  }

  /**
   * A successful callback leaves the payload's status in the record, every other field as it was,
   * the same record in the status mirror, and every other document of the store unchanged.
   */
  lemma CallbackSetsStatus(base: Path, data: Path, w: World, gid: string, fid: string, status: Json, storeOk: bool, mirrorOk: bool)
    requires RecordStatus(base, data, w, gid, fid, status, storeOk, mirrorOk).0.Ok?
    ensures ReadSpec(base, w.st, FileKey(fid)).Ok? && ReadSpec(base, w.st, FileKey(fid)).value.JObj?
    ensures var meta' := JObj(ReadSpec(base, w.st, FileKey(fid)).value.fields["status" := status]);
            var w' := RecordStatus(base, data, w, gid, fid, status, storeOk, mirrorOk).1;
            ReadSpec(base, w'.st, FileKey(fid)) == Ok(meta')
            && w'.files == w.files[MirrorPath(data, gid, fid) := JsonFile(meta')]
    ensures var w' := RecordStatus(base, data, w, gid, fid, status, storeOk, mirrorOk).1;
            forall other :: KeyToPath(base, other) != KeyToPath(base, FileKey(fid)) ==> ReadSpec(base, w'.st, other) == ReadSpec(base, w.st, other)
  {
    var meta := ReadSpec(base, w.st, FileKey(fid)).value;
    var meta' := JObj(meta.fields["status" := status]);
    ReadAfterReplace(base, w.st, FileKey(fid), meta', None, storeOk);
    forall other | KeyToPath(base, other) != KeyToPath(base, FileKey(fid))
      ensures ReadSpec(base, ReplaceSpec(base, w.st, FileKey(fid), meta', None, storeOk).1, other) == ReadSpec(base, w.st, other)
    {
      ReplaceLeavesOthers(base, w.st, FileKey(fid), other, meta', None, storeOk);
    }
  }

  /** A record that reads as a dict, with both writes succeeding: the whole effect of the status update. */
  lemma RecordStatusOnRecord(base: Path, data: Path, w: World, gid: string, fid: string, status: Json, m: Json)
    requires ReadSpec(base, w.st, FileKey(fid)) == Ok(m) && m.JObj? && MirrorPath(data, gid, fid) != []
    ensures var m' := JObj(m.fields["status" := status]);
            RecordStatus(base, data, w, gid, fid, status, true, true)
              == (MakeFileOut(fid, gid, Or(Get(m'.fields, "filename"), JStr("")), status),
                  World(ReplaceSpec(base, w.st, FileKey(fid), m', None, true).1,
                        w.files[MirrorPath(data, gid, fid) := JsonFile(m')],
                        w.dirs + Prefixes(Parent(MirrorPath(data, gid, fid)))))
  {
    assert ExistsSpec(base, w.st, FileKey(fid)) == Ok(true);
  }

  /** A successful update found a dict record and a mirror path other than the root. */
  lemma AnsweredRecordStatus(base: Path, data: Path, w: World, gid: string, fid: string, status: Json, storeOk: bool, mirrorOk: bool)
    requires RecordStatus(base, data, w, gid, fid, status, storeOk, mirrorOk).0.Ok?
    ensures ReadSpec(base, w.st, FileKey(fid)).Ok? && ReadSpec(base, w.st, FileKey(fid)).value.JObj?
    ensures MirrorPath(data, gid, fid) != [] && storeOk && mirrorOk
  {
  }

  /**
   * The status write is an unconditional overwrite: delivering the same callback again answers the same
   * and leaves the same documents and files (only the store's version stamps move on).
   */
  lemma RedeliveryChangesNothing(base: Path, data: Path, w: World, gid: string, fid: string, status: Json)
    requires RecordStatus(base, data, w, gid, fid, status, true, true).0.Ok?
    ensures var (r1, w1) := RecordStatus(base, data, w, gid, fid, status, true, true);
            var (r2, w2) := RecordStatus(base, data, w1, gid, fid, status, true, true);
            r2 == r1 && Docs(w2.st) == Docs(w1.st) && w2.files == w1.files && w2.dirs == w1.dirs
  {
    var key := FileKey(fid);
    AnsweredRecordStatus(base, data, w, gid, fid, status, true, true);
    var m := ReadSpec(base, w.st, key).value;
    var m' := JObj(m.fields["status" := status]);
    RecordStatusOnRecord(base, data, w, gid, fid, status, m);
    var w1 := RecordStatus(base, data, w, gid, fid, status, true, true).1;
    ReadAfterReplace(base, w.st, key, m', None, true);
    assert ReadSpec(base, w1.st, key) == Ok(m');
    RecordStatusOnRecord(base, data, w1, gid, fid, status, m');
    assert m'.fields["status" := status] == m'.fields;
    RewriteKeepsDocs(base, w1.st, key, m');
  }

  /** Writing a document over an identical one leaves the documents (not the versions) as they were. */
  lemma RewriteKeepsDocs(base: Path, st: StoreState, key: string, d: Json)
    requires ReadSpec(base, st, key) == Ok(d)
    ensures Docs(ReplaceSpec(base, st, key, d, None, true).1) == Docs(st)
  {
    var p := KeyToPath(base, key).value;
    var st2 := ReplaceSpec(base, st, key, d, None, true).1;
    assert st2 == StoreState(st.docs[p := Stored(d, st.clock + 1)], st.clock + 1);
    DocsRewrite(st, p, d, st.clock + 1);
  }

  lemma DocsRewrite(st: StoreState, p: Path, d: Json, v: nat)
    requires p in st.docs && st.docs[p].doc == d
    ensures Docs(StoreState(st.docs[p := Stored(d, v)], v)) == Docs(st)
  {
    var a := Docs(StoreState(st.docs[p := Stored(d, v)], v));
    var b := Docs(st);
    assert a.Keys == b.Keys;
    forall q | q in a.Keys ensures a[q] == b[q] {}
  }

  /** Only an answered callback can have had both identifiers. */
  lemma AnsweredMeansIdsGiven(base: Path, data: Path, w: World, p: CallbackPayload, resolve: (string, string) -> Option<string>,
                              storeOk: bool, mirrorOk: bool)
    requires CallbackSpec(base, data, w, p, resolve, storeOk, mirrorOk).0.Ok?
    ensures Given(p.groupUuid) && Given(p.filename)
  {
  }

  /** Only the OCR callback, and only after answering for status "upgrading", schedules postprocessing of process/ into final/. */
  lemma FollowUpOnlyForUpgrading(p: CallbackPayload, r: Result<FileOut, int>)
    requires r.Ok? ==> Given(p.groupUuid)
    ensures OcrFollowUp(p, r).Some? <==> r.Ok? && p.status == JStr("upgrading")
    ensures OcrFollowUp(p, r).Some? ==>
              OcrFollowUp(p, r).value.source == "/out/var/data/groups/" + p.groupUuid.value + "/process/"
              && OcrFollowUp(p, r).value.dst == "/out/var/data/groups/" + p.groupUuid.value + "/final/"
  {
  }
}
