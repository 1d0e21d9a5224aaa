// The group endpoints of the backend (backend/src/api/v1/endpoints/groups.py): uploading an archive
// as a new group, listing a group's files, patching and deleting a group.
module GroupsEndpoints {
  import opened Wrappers
  import opened Paths
  import opened JsonValues
  import opened LocalStorage
  import opened Common
  import opened Records
  import opened GroupsUtils
  import opened PipelineCallback

  /** Optional[str] as stored in a document: None becomes null. */
  function OptText(o: Option<string>): (r: Json)
    ensures o.Some? ==> r == JStr(o.value)
    ensures o.None? ==> r == JNull
  {
    match o
    case None => JNull
    case Some(s) => JStr(s)
  }

  /** The group card stored at groups/{gid}. */
  function GroupDoc(gid: string, fond: Option<string>, opis: Option<string>, delo: Option<string>, createdAt: string): Json
  {
    JObj(map["group_uuid" := JStr(gid), "fond" := OptText(fond), "opis" := OptText(opis), "delo" := OptText(delo),
             "created_at" := JStr(createdAt)])
  }

  /** Path.name: the last component ("" for the root). */
  function PathName(p: Path): string { if p == [] then "" else p[|p| - 1] }

  /** The status record of a freshly registered file, written to the mirror and the store. */
  function StatusDoc(fid: string, gid: string, src: Path, createdAt: string): Json
  {
    JObj(map["file_uuid" := JStr(fid), "group_uuid" := JStr(gid), "original_name" := JStr(PathName(src)),
             "raw_path" := JStr(Render(src)), "status" := JStr(StatusName(Progress)), "created_at" := JStr(createdAt)])
  }

  /** The GET sent to the OCR pipeline for each registered file (query parameters before URL encoding). */
  datatype OcrRequest = OcrRequest(url: string, source: string, dst: string)

  const MlPipelineUrl: string := "http://ml-pipeline:8080/"

  function OcrTrigger(gid: string): (r: OcrRequest)
    ensures r.url == MlPipelineUrl
    ensures r.source == ContainerStageDir(gid, "raw_data") && r.dst == ContainerStageDir(gid, "process")
  {
    OcrRequest(MlPipelineUrl, ContainerStageDir(gid, "raw_data"), ContainerStageDir(gid, "process"))
  }

  /** src.is_file(): a regular file, not a directory. */
  predicate IsFile(w: World, p: Path) { p in w.files && p !in w.dirs }

  /** A file registered by the upload: its new id and where it was extracted. */
  datatype Registration = Registration(fid: string, src: Path)

  function Ids(regs: seq<Registration>): (r: seq<string>)
    ensures |r| == |regs| && forall k :: 0 <= k < |regs| ==> r[k] == regs[k].fid
  {
    if regs == [] then [] else Ids(regs[..|regs| - 1]) + [regs[|regs| - 1].fid]
  }

  /**
   * Whether each disk write of an upload succeeds: the group card, the mirror file and the store record
   * of the k-th registered file, and the index.
   */
  datatype UploadDisk = UploadDisk(card: bool, mirror: nat -> bool, record: nat -> bool, index: bool)

  /** The mirror and record writes of the first n registrations succeed. */
  predicate RegistrationsSucceed(disk: UploadDisk, n: nat)
  {
    forall k :: 0 <= k < n ==> disk.mirror(k) && disk.record(k)
  }

  /**
   * The registration loop of upload_zip over the extracted targets: every regular file gets the next id
   * (newId(k) for the k-th one) and the creation time now(k + 1); its record goes to the mirror and
   * then, after the OCR trigger, to the store. The first failing write ends the request with 500.
   */
  function RegisterSpec(base: Path, data: Path, w: World, gid: string, srcs: seq<Path>,
                        newId: nat -> string, now: nat -> string, disk: UploadDisk): (Result<seq<Registration>, int>, World)
  {
    if srcs == [] then (Ok([]), w)
    else
      var (r, w1) := RegisterSpec(base, data, w, gid, srcs[..|srcs| - 1], newId, now, disk);
      if r.Err? then (r, w1)
      else
        var src := srcs[|srcs| - 1];
        if !IsFile(w1, src) then (r, w1)
        else RegisterOne(base, data, w1, gid, src, r.value, newId, now, disk)
  }

  /** One iteration of the registration loop for a regular file, after the registrations regs. */
  function RegisterOne(base: Path, data: Path, w: World, gid: string, src: Path, regs: seq<Registration>,
                       newId: nat -> string, now: nat -> string, disk: UploadDisk): (Result<seq<Registration>, int>, World)
  {
    var fid := newId(|regs|);
    var doc := StatusDoc(fid, gid, src, now(|regs| + 1));
    var (mirrored, w1) := WriteJson(w, MirrorPath(data, gid, fid), doc, disk.mirror(|regs|));
    if !mirrored then (Err(ServerError), w1)
    else
      var (stored, w2) := StoreOverwrite(base, w1, FileKey(fid), doc, disk.record(|regs|));
      if !stored then (Err(ServerError), w2)
      else (Ok(regs + [Registration(fid, src)]), w2)
  }

  /** The world after ensure_group_dirs and the group card, and whether the card was stored. */
  function UploadStart(base: Path, data: Path, w: World, gid: string, fond: Option<string>, opis: Option<string>,
                       delo: Option<string>, now: nat -> string, cardOk: bool): (bool, World)
  {
    var w1 := w.(dirs := w.dirs + AllPrefixes(GroupDirs(data, gid)));
    StoreOverwrite(base, w1, GroupKey(gid), GroupDoc(gid, fond, opis, delo, now(0)), cardOk)
  }

  /** The world after extract_zip_filtered into raw_data. */
  function Extracted(w: World, entries: seq<ZipEntry>, outDir: Path): World
  {
    var written := ExtractedTargets(entries, outDir);
    w.(files := ExtractedFiles(w.files, entries, outDir), dirs := w.dirs + Prefixes(outDir) + AllPrefixes(Parents(written)))
  }

  /**
   * upload_zip with the archive's members given as entries, the new group id gid, the file ids newId,
   * the clock now and the outcome of each disk write disk. A failed write raises: the request ends
   * with 500 and what was written before it stays.
   */
  function UploadSpec(base: Path, data: Path, w: World, entries: seq<ZipEntry>, fond: Option<string>, opis: Option<string>,
                      delo: Option<string>, gid: string, newId: nat -> string, now: nat -> string, disk: UploadDisk)
    : (Result<GroupOut, int>, World)
  {
    var (started, w1) := UploadStart(base, data, w, gid, fond, opis, delo, now, disk.card);
    if !started then (Err(ServerError), w1)
    else
      var raw := RawDir(data, gid);
      var w2 := Extracted(w1, entries, raw);
      var (r, w3) := RegisterSpec(base, data, w2, gid, ExtractedTargets(entries, raw), newId, now, disk);
      if r.Err? then (Err(r.error), w3)
      else
        var (indexed, w4) := StoreOverwrite(base, w3, IndexKey(gid), IndexDoc(Ids(r.value)), disk.index);
        if !indexed then (Err(ServerError), w4)
        else (Ok(GroupOut(gid, fond, opis, delo)), w4)
  }

  /** The registrations of an upload: the loop over the extracted targets, after the card and the extraction. */
  function UploadRegistered(base: Path, data: Path, w: World, entries: seq<ZipEntry>, fond: Option<string>, opis: Option<string>,
                            delo: Option<string>, gid: string, newId: nat -> string, now: nat -> string,
                            disk: UploadDisk): Result<seq<Registration>, int>
  {
    var w1 := UploadStart(base, data, w, gid, fond, opis, delo, now, disk.card).1;
    var raw := RawDir(data, gid);
    RegisterSpec(base, data, Extracted(w1, entries, raw), gid, ExtractedTargets(entries, raw), newId, now, disk).0
  }

  method UploadZip(store: JsonStore, fs: FileSystem, data: Path, entries: seq<ZipEntry>, fond: Option<string>,
                   opis: Option<string>, delo: Option<string>, gid: string, newId: nat -> string, now: nat -> string,
                   disk: UploadDisk)
    returns (r: Result<GroupOut, int>, sent: seq<OcrRequest>)
    requires store.Valid()
    modifies store, fs
    ensures store.Valid()
    ensures (r, WorldOf(store, fs)) == UploadSpec(store.base, data, old(WorldOf(store, fs)), entries, fond, opis, delo, gid, newId, now, disk)
    ensures forall q :: q in sent ==> q == OcrTrigger(gid)
    ensures r.Ok? ==> var regs := UploadRegistered(store.base, data, old(WorldOf(store, fs)), entries, fond, opis, delo, gid, newId, now, disk);
                      regs.Ok? && sent == Triggers(gid, |regs.value|)
  {
    sent := [];
    ghost var w0 := WorldOf(store, fs);
    fs.EnsureGroupDirs(data, gid);
    var card := store.Create(GroupKey(gid), GroupDoc(gid, fond, opis, delo, now(0)), true, disk.card);
    assert (card.Ok?, WorldOf(store, fs)) == UploadStart(store.base, data, w0, gid, fond, opis, delo, now, disk.card);
    if card.Err? {
      return Err(ServerError), sent;
    }
    var raw := RawDir(data, gid);
    ghost var w1 := WorldOf(store, fs);
    var files := fs.ExtractZipFiltered(entries, raw);
    assert WorldOf(store, fs) == Extracted(w1, entries, raw);
    var regs;
    regs, sent := RegisterFiles(store, fs, data, gid, files, newId, now, disk);
    if regs.Err? {
      return Err(regs.error), sent;
    }
    var indexed := store.Create(IndexKey(gid), IndexDoc(Ids(regs.value)), true, disk.index);
    if indexed.Err? {
      return Err(ServerError), sent;
    }
    r := Ok(GroupOut(gid, fond, opis, delo));
  }

  /** n OCR triggers for the group. */
  function Triggers(gid: string, n: nat): (t: seq<OcrRequest>)
    ensures |t| == n && forall q :: q in t ==> q == OcrTrigger(gid)
  {
    seq(n, _ => OcrTrigger(gid))
  }

  lemma TriggersSnoc(gid: string, n: nat)
    ensures Triggers(gid, n) + [OcrTrigger(gid)] == Triggers(gid, n + 1)
  {
  }

  /**
   * The registration loop of upload_zip: one OCR trigger per registered file, sent once its mirror is
   * written (also for a file whose record then fails to be stored).
   */
  method RegisterFiles(store: JsonStore, fs: FileSystem, data: Path, gid: string, files: seq<Path>,
                       newId: nat -> string, now: nat -> string, disk: UploadDisk)
    returns (r: Result<seq<Registration>, int>, sent: seq<OcrRequest>)
    requires store.Valid()
    modifies store, fs
    ensures store.Valid()
    ensures (r, WorldOf(store, fs)) == RegisterSpec(store.base, data, old(WorldOf(store, fs)), gid, files, newId, now, disk)
    ensures r.Ok? ==> sent == Triggers(gid, |r.value|)
    ensures r.Err? ==> exists n :: sent == Triggers(gid, n)
  {
    sent := [];
    ghost var w0 := WorldOf(store, fs);
    var regs: seq<Registration> := [];
    for i := 0 to |files|
      invariant store.Valid()
      invariant (Ok(regs), WorldOf(store, fs)) == RegisterSpec(store.base, data, w0, gid, files[..i], newId, now, disk)
      invariant sent == Triggers(gid, |regs|)
    {
      var one;
      one, sent := RegisterAt(store, fs, data, gid, files, i, regs, newId, now, disk, sent, w0);
      if one.Err? {
        RegisterErrSticks(store.base, data, w0, gid, files, i + 1, newId, now, disk);
        return one, sent;
      }
      regs := one.value;
      assert (Ok(regs), WorldOf(store, fs)) == RegisterSpec(store.base, data, w0, gid, files[..i + 1], newId, now, disk);
    }
    assert files[..|files|] == files;
    r := Ok(regs);
  }

  /** One iteration of the registration loop: a regular file is registered, anything else skipped. */
  method RegisterAt(store: JsonStore, fs: FileSystem, data: Path, gid: string, files: seq<Path>, i: nat,
                    regs: seq<Registration>, newId: nat -> string, now: nat -> string, disk: UploadDisk,
                    sent0: seq<OcrRequest>, ghost w0: World)
    returns (r: Result<seq<Registration>, int>, sent: seq<OcrRequest>)
    requires store.Valid() && i < |files|
    requires (Ok(regs), WorldOf(store, fs)) == RegisterSpec(store.base, data, w0, gid, files[..i], newId, now, disk)
    requires sent0 == Triggers(gid, |regs|)
    modifies store, fs
    ensures store.Valid()
    ensures (r, WorldOf(store, fs)) == RegisterSpec(store.base, data, w0, gid, files[..i + 1], newId, now, disk)
    ensures r.Ok? ==> sent == Triggers(gid, |r.value|)
    ensures r.Err? ==> exists n :: sent == Triggers(gid, n)
  {
    var src := files[i];
    if src in fs.files && src !in fs.dirs {
      ghost var wi := WorldOf(store, fs);
      r, sent := RegisterFile(store, fs, data, gid, src, regs, newId, now, disk, sent0);
      RegisterStepFile(store.base, data, w0, gid, files, i, newId, now, disk, regs, wi);
      TriggersSnoc(gid, |regs|);
      assert sent == Triggers(gid, |sent|);
    } else {
      RegisterStepSkip(store.base, data, w0, gid, files, i, newId, now, disk, regs, WorldOf(store, fs));
      r, sent := Ok(regs), sent0;
    }
  }

  /** A failed registration ends the request: later targets change nothing. */
  lemma {:induction false} RegisterErrSticks(base: Path, data: Path, w: World, gid: string, files: seq<Path>, j: nat,
                                             newId: nat -> string, now: nat -> string, disk: UploadDisk)
    requires j <= |files| && RegisterSpec(base, data, w, gid, files[..j], newId, now, disk).0.Err?
    ensures RegisterSpec(base, data, w, gid, files, newId, now, disk) == RegisterSpec(base, data, w, gid, files[..j], newId, now, disk)
    decreases |files|
  {
    if j == |files| {
      assert files[..j] == files;
    } else {
      var init := files[..|files| - 1];
      assert init[..j] == files[..j];
      RegisterErrSticks(base, data, w, gid, init, j, newId, now, disk);
    }
  }

  lemma RegisterStep(base: Path, data: Path, w: World, gid: string, files: seq<Path>, i: nat, newId: nat -> string, now: nat -> string,
                     disk: UploadDisk)
    requires i < |files|
    ensures var (r, w1) := RegisterSpec(base, data, w, gid, files[..i], newId, now, disk);
            RegisterSpec(base, data, w, gid, files[..i + 1], newId, now, disk) ==
              if r.Err? || !IsFile(w1, files[i]) then (r, w1) else RegisterOne(base, data, w1, gid, files[i], r.value, newId, now, disk)
  {
    assert files[..i + 1][..i] == files[..i];
  }

  /** A regular file after successful registrations: the next registration is RegisterOne. */
  lemma RegisterStepFile(base: Path, data: Path, w: World, gid: string, files: seq<Path>, i: nat, newId: nat -> string,
                         now: nat -> string, disk: UploadDisk, regs: seq<Registration>, wi: World)
    requires i < |files| && RegisterSpec(base, data, w, gid, files[..i], newId, now, disk) == (Ok(regs), wi)
    requires IsFile(wi, files[i])
    ensures RegisterSpec(base, data, w, gid, files[..i + 1], newId, now, disk) == RegisterOne(base, data, wi, gid, files[i], regs, newId, now, disk)
  {
    RegisterStep(base, data, w, gid, files, i, newId, now, disk);
  }

  /** Anything but a regular file is skipped. */
  lemma RegisterStepSkip(base: Path, data: Path, w: World, gid: string, files: seq<Path>, i: nat, newId: nat -> string,
                         now: nat -> string, disk: UploadDisk, regs: seq<Registration>, wi: World)
    requires i < |files| && RegisterSpec(base, data, w, gid, files[..i], newId, now, disk) == (Ok(regs), wi)
    requires !IsFile(wi, files[i])
    ensures RegisterSpec(base, data, w, gid, files[..i + 1], newId, now, disk) == (Ok(regs), wi)
  {
    RegisterStep(base, data, w, gid, files, i, newId, now, disk);
  }

  /** The body of the registration loop for one regular file. */
  method RegisterFile(store: JsonStore, fs: FileSystem, data: Path, gid: string, src: Path, regs: seq<Registration>,
                      newId: nat -> string, now: nat -> string, disk: UploadDisk, sent0: seq<OcrRequest>)
    returns (r: Result<seq<Registration>, int>, sent: seq<OcrRequest>)
    requires store.Valid()
    modifies store, fs
    ensures store.Valid()
    ensures (r, WorldOf(store, fs)) == RegisterOne(store.base, data, old(WorldOf(store, fs)), gid, src, regs, newId, now, disk)
    ensures sent == sent0 + if disk.mirror(|regs|) && MirrorPath(data, gid, newId(|regs|)) != [] then [OcrTrigger(gid)] else []
    ensures r.Ok? ==> disk.mirror(|regs|) && MirrorPath(data, gid, newId(|regs|)) != []
  {
    sent := sent0;
    var fid := newId(|regs|);
    var doc := StatusDoc(fid, gid, src, now(|regs| + 1));
    var mirrored := fs.AtomicWriteJson(MirrorPath(data, gid, fid), doc, disk.mirror(|regs|));
    if !mirrored {
      return Err(ServerError), sent;
    }
    // the GET's outcome is printed and otherwise ignored
    sent := sent + [OcrTrigger(gid)];
    var stored := store.Create(FileKey(fid), doc, true, disk.record(|regs|));
    if stored.Err? {
      return Err(ServerError), sent;
    }
    r := Ok(regs + [Registration(fid, src)]);
  }

  /** Distinct ids without a separator or a dot (fresh UUIDs) for the first n registrations. */
  predicate FreshIds(newId: nat -> string, n: nat)
  {
    (forall k :: 0 <= k < n ==> PlainName(newId(k))) &&
    (forall k, l :: 0 <= k < l < n ==> newId(k) != newId(l))
  }

  /** Where the store keeps the record files/{fid} of a file id without a separator or a dot. */
  function RecordPath(base: Path, fid: string): Path { base + ["files", fid + ".json"] }

  /** A document path directly in the store's files folder. */
  predicate InFilesFolder(base: Path, p: Path)
  {
    |p| == |base| + 2 && p[..|base| + 1] == base + ["files"]
  }

  /** A registered file: its record in the store and, identical, in its mirror file. */
  predicate Recorded(base: Path, data: Path, w: World, gid: string, reg: Registration, createdAt: string)
  {
    var doc := StatusDoc(reg.fid, gid, reg.src, createdAt);
    var mirror := MirrorPath(data, gid, reg.fid);
    RecordPath(base, reg.fid) in w.st.docs && w.st.docs[RecordPath(base, reg.fid)].doc == doc &&
    mirror in w.files && w.files[mirror] == JsonFile(doc)
  }

  lemma JsonNameInjective(a: string, b: string)
    requires a + ".json" == b + ".json"
    ensures a == b
  {
    assert |a| == |b|;
    assert a == (a + ".json")[..|a|];
    assert b == (b + ".json")[..|b|];
  }

  /**
   * The two writes of one registration, the mirror file and then the record, and nothing else: it
   * succeeds exactly when both writes do, and a failed mirror write leaves the store untouched.
   */
  lemma RegisterOneEffect(base: Path, data: Path, w: World, gid: string, src: Path, regs: seq<Registration>,
                          newId: nat -> string, now: nat -> string, disk: UploadDisk)
    requires base != [] && Clean(base) && Clean(data) && PlainName(newId(|regs|))
    ensures RegisterOne(base, data, w, gid, src, regs, newId, now, disk).0 ==
              if disk.mirror(|regs|) && disk.record(|regs|) then Ok(regs + [Registration(newId(|regs|), src)])
              else Err(ServerError)
    ensures RegisterOne(base, data, w, gid, src, regs, newId, now, disk).1.st ==
              WriteSpec(w.st, RecordPath(base, newId(|regs|)), StatusDoc(newId(|regs|), gid, src, now(|regs| + 1)),
                        disk.mirror(|regs|) && disk.record(|regs|)).1
    ensures RegisterOne(base, data, w, gid, src, regs, newId, now, disk).1.files ==
              if disk.mirror(|regs|)
              then w.files[MirrorPath(data, gid, newId(|regs|)) := JsonFile(StatusDoc(newId(|regs|), gid, src, now(|regs| + 1)))]
              else w.files
  {
    var fid := newId(|regs|);
    FileKeyPath(base, fid);
    FilePathsLayout(data, gid, fid, "process");
  }

  /** Writing one file's record and mirror keeps the records of other files and every document outside the files folder. */
  lemma RecordWriteKeeps(base: Path, data: Path, w: World, w': World, gid: string, fid: string, doc: Json,
                         reg: Registration, createdAt: string)
    requires Clean(data) && '/' !in fid && '/' !in reg.fid && reg.fid != fid
    requires w'.st == WriteSpec(w.st, RecordPath(base, fid), doc, true).1
    requires w'.files == w.files[MirrorPath(data, gid, fid) := JsonFile(doc)]
    requires Recorded(base, data, w, gid, reg, createdAt)
    ensures Recorded(base, data, w', gid, reg, createdAt)
    ensures forall p :: p in w.st.docs && !InFilesFolder(base, p) ==> p in w'.st.docs && w'.st.docs[p] == w.st.docs[p]
  {
    assert RecordPath(base, fid)[..|base| + 1] == base + ["files"];
    if reg.fid + ".json" == fid + ".json" {
      JsonNameInjective(reg.fid, fid);
    }
    assert RecordPath(base, reg.fid)[|base| + 1] == reg.fid + ".json";
    assert RecordPath(base, fid)[|base| + 1] == fid + ".json";
    FilePathsLayout(data, gid, reg.fid, "process");
    FilePathsLayout(data, gid, fid, "process");
    var sd := StatusDir(data, gid);
    assert (sd + [reg.fid + ".json"])[|sd|] == reg.fid + ".json";
    assert (sd + [fid + ".json"])[|sd|] == fid + ".json";
  }

  /**
   * With fresh ids and working disks no write of the registration loop fails, and the k-th registered
   * file has id newId(k) and is one of the extracted targets.
   */
  lemma {:induction false} RegisterIds(base: Path, data: Path, w: World, gid: string, srcs: seq<Path>,
                                       newId: nat -> string, now: nat -> string, disk: UploadDisk)
    requires base != [] && Clean(base) && Clean(data) && FreshIds(newId, |srcs|) && RegistrationsSucceed(disk, |srcs|)
    ensures var r := RegisterSpec(base, data, w, gid, srcs, newId, now, disk).0;
            && r.Ok? && |r.value| <= |srcs|
            && forall k :: 0 <= k < |r.value| ==> r.value[k].fid == newId(k) && r.value[k].src in srcs
    decreases |srcs|
  {
    if srcs != [] {
      var init := srcs[..|srcs| - 1];
      RegisterIds(base, data, w, gid, init, newId, now, disk);
      var rw := RegisterSpec(base, data, w, gid, init, newId, now, disk);
      RegisterIdsStep(base, data, w, gid, srcs, newId, now, disk, rw.0.value, rw.1);
      IdsSnoc(rw.0.value, RegisterSpec(base, data, w, gid, srcs, newId, now, disk).0.value, srcs, newId);
    }
  }

  lemma IdsSnoc(r: seq<Registration>, r2: seq<Registration>, srcs: seq<Path>, newId: nat -> string)
    requires srcs != [] && forall k :: 0 <= k < |r| ==> r[k].fid == newId(k) && r[k].src in srcs[..|srcs| - 1]
    requires r2 == r || r2 == r + [Registration(newId(|r|), srcs[|srcs| - 1])]
    ensures forall k :: 0 <= k < |r2| ==> r2[k].fid == newId(k) && r2[k].src in srcs
  {
    forall k | 0 <= k < |r2| ensures r2[k].fid == newId(k) && r2[k].src in srcs {
      if k < |r| {
        assert r2[k] == r[k] && r[k].src in srcs[..|srcs| - 1];
      }
    }
  }

  /** One more source: a regular file appends its registration with the next id, anything else changes nothing. */
  lemma RegisterIdsStep(base: Path, data: Path, w: World, gid: string, srcs: seq<Path>,
                        newId: nat -> string, now: nat -> string, disk: UploadDisk, r: seq<Registration>, w1: World)
    requires srcs != [] && base != [] && Clean(base) && Clean(data) && PlainName(newId(|r|))
    requires disk.mirror(|r|) && disk.record(|r|)
    requires RegisterSpec(base, data, w, gid, srcs[..|srcs| - 1], newId, now, disk) == (Ok(r), w1)
    ensures RegisterSpec(base, data, w, gid, srcs, newId, now, disk).0
      == Ok(if IsFile(w1, srcs[|srcs| - 1]) then r + [Registration(newId(|r|), srcs[|srcs| - 1])] else r)
  {
    if IsFile(w1, srcs[|srcs| - 1]) {
      RegisterOneEffect(base, data, w1, gid, srcs[|srcs| - 1], r, newId, now, disk);
    }
  }

  /** The first registrations have ids newId(0), newId(1), ... and their records in w'. */
  predicate RecordsIn(base: Path, data: Path, w': World, gid: string, regs: seq<Registration>,
                      newId: nat -> string, now: nat -> string)
  {
    forall k :: 0 <= k < |regs| ==> regs[k].fid == newId(k) && Recorded(base, data, w', gid, regs[k], now(k + 1))
  }

  /** Documents of w outside the files folder are still in w', unchanged. */
  predicate KeepsOutside(base: Path, w: World, w': World)
  {
    forall p :: p in w.st.docs && !InFilesFolder(base, p) ==> p in w'.st.docs && w'.st.docs[p] == w.st.docs[p]
  }

  /**
   * With working disks every registration of the loop leaves the file's record in the store and in its
   * mirror, and documents outside the files folder are untouched.
   */
  lemma {:induction false} RegisterRecords(base: Path, data: Path, w: World, gid: string, srcs: seq<Path>,
                                           newId: nat -> string, now: nat -> string, disk: UploadDisk)
    requires base != [] && Clean(base) && Clean(data) && FreshIds(newId, |srcs|) && RegistrationsSucceed(disk, |srcs|)
    ensures var (r, w') := RegisterSpec(base, data, w, gid, srcs, newId, now, disk);
            && r.Ok? && |r.value| <= |srcs|
            && RecordsIn(base, data, w', gid, r.value, newId, now)
            && KeepsOutside(base, w, w')
    decreases |srcs|
  {
    if srcs != [] {
      var init := srcs[..|srcs| - 1];
      RegisterRecords(base, data, w, gid, init, newId, now, disk);
      var (r, w1) := RegisterSpec(base, data, w, gid, init, newId, now, disk);
      RegisterRecordsStep(base, data, w, gid, srcs, newId, now, disk, r.value, w1);
    }
  }

  /** One more source keeps the records so far and, for a regular file, adds its own. */
  lemma RegisterRecordsStep(base: Path, data: Path, w: World, gid: string, srcs: seq<Path>,
                            newId: nat -> string, now: nat -> string, disk: UploadDisk, r: seq<Registration>, w1: World)
    requires srcs != [] && base != [] && Clean(base) && Clean(data) && FreshIds(newId, |srcs|)
    requires RegistrationsSucceed(disk, |srcs|)
    requires RegisterSpec(base, data, w, gid, srcs[..|srcs| - 1], newId, now, disk) == (Ok(r), w1)
    requires |r| <= |srcs| - 1 && RecordsIn(base, data, w1, gid, r, newId, now) && KeepsOutside(base, w, w1)
    ensures var (r', w') := RegisterSpec(base, data, w, gid, srcs, newId, now, disk);
            && r'.Ok? && |r'.value| <= |srcs|
            && RecordsIn(base, data, w', gid, r'.value, newId, now)
            && KeepsOutside(base, w, w')
  {
    var src := srcs[|srcs| - 1];
    if IsFile(w1, src) {
      assert PlainName(newId(|r|));
      assert disk.mirror(|r|) && disk.record(|r|);
      RegisterOneEffect(base, data, w1, gid, src, r, newId, now, disk);
      var res := RegisterOne(base, data, w1, gid, src, r, newId, now, disk);
      assert RegisterSpec(base, data, w, gid, srcs, newId, now, disk) == res;
      RecordWriteStep(base, data, w1, res.1, gid, r, src, newId, now);
      KeepsOutsideTrans(base, w, w1, res.1);
    } else {
      assert RegisterSpec(base, data, w, gid, srcs, newId, now, disk) == (Ok(r), w1);
    }
  }

  lemma KeepsOutsideTrans(base: Path, w: World, w1: World, w2: World)
    requires KeepsOutside(base, w, w1) && KeepsOutside(base, w1, w2)
    ensures KeepsOutside(base, w, w2)
  {
  }

  /** The records of the loop so far survive the next registration, which adds its own. */
  lemma RecordWriteStep(base: Path, data: Path, w: World, w': World, gid: string, regs: seq<Registration>, src: Path,
                        newId: nat -> string, now: nat -> string)
    requires Clean(data) && FreshIds(newId, |regs| + 1)
    requires RecordsIn(base, data, w, gid, regs, newId, now)
    requires var fid := newId(|regs|);
             var doc := StatusDoc(fid, gid, src, now(|regs| + 1));
             w'.st == WriteSpec(w.st, RecordPath(base, fid), doc, true).1 &&
             w'.files == w.files[MirrorPath(data, gid, fid) := JsonFile(doc)]
    ensures RecordsIn(base, data, w', gid, regs + [Registration(newId(|regs|), src)], newId, now)
    ensures KeepsOutside(base, w, w')
  {
    var n := |regs|;
    var fid := newId(n);
    var doc := StatusDoc(fid, gid, src, now(n + 1));
    var regs' := regs + [Registration(fid, src)];
    forall k | 0 <= k < n + 1
      ensures Recorded(base, data, w', gid, regs'[k], now(k + 1))
    {
      if k < n {
        assert regs'[k] == regs[k];
        RecordWriteKeeps(base, data, w, w', gid, fid, doc, regs[k], now(k + 1));
      }
    }
    assert RecordPath(base, fid)[..|base| + 1] == base + ["files"];
  }

  /**
   * A registered file as the listing sees it: the record at files/{fid} (see FileKeyPath) belongs to
   * this group, has status progress, and its mirror holds the same document.
   */
  predicate InProgress(base: Path, data: Path, w: World, gid: string, fid: string)
  {
    RecordPath(base, fid) in w.st.docs &&
    var doc := w.st.docs[RecordPath(base, fid)].doc;
    doc.JObj? && "status" in doc.fields && doc.fields["status"] == JStr("progress") &&
    "group_uuid" in doc.fields && doc.fields["group_uuid"] == JStr(gid) &&
    "file_uuid" in doc.fields && doc.fields["file_uuid"] == JStr(fid) &&
    MirrorPath(data, gid, fid) in w.files && w.files[MirrorPath(data, gid, fid)] == JsonFile(doc)
  }

  /** A record written by the registration, read back through its key and its mirror path. */
  lemma RecordedInProgress(base: Path, data: Path, w: World, gid: string, reg: Registration, createdAt: string)
    requires Recorded(base, data, w, gid, reg, createdAt)
    ensures InProgress(base, data, w, gid, reg.fid)
  {
    var doc := StatusDoc(reg.fid, gid, reg.src, createdAt);
    assert doc.fields["status"] == JStr("progress");
    assert "group_uuid" != "created_at" by { assert "group_uuid"[0] != "created_at"[0]; }
    assert doc.fields["group_uuid"] == JStr(gid);
    assert doc.fields["file_uuid"] == JStr(reg.fid);
  }

  /**
   * ensure_group_dirs and the group card: the card goes to groups/{gid}, and the start succeeds exactly
   * when that write does.
   */
  lemma UploadStartEffect(base: Path, data: Path, w: World, gid: string, fond: Option<string>, opis: Option<string>,
                          delo: Option<string>, now: nat -> string, cardOk: bool)
    requires base != [] && Clean(base) && PlainName(gid)
    ensures UploadStart(base, data, w, gid, fond, opis, delo, now, cardOk).0 == cardOk
    ensures UploadStart(base, data, w, gid, fond, opis, delo, now, cardOk).1.st ==
              WriteSpec(w.st, base + ["groups", gid + ".json"], GroupDoc(gid, fond, opis, delo, now(0)), cardOk).1
    ensures UploadStart(base, data, w, gid, fond, opis, delo, now, cardOk).1.files == w.files
  {
    GroupKeyPath(base, gid);
  }

  /**
   * A failed card write ends the upload with 500 before anything is extracted: the store and the files
   * are as they were, and only the group's folders exist.
   */
  lemma UploadCardLost(base: Path, data: Path, w: World, entries: seq<ZipEntry>, fond: Option<string>, opis: Option<string>,
                       delo: Option<string>, gid: string, newId: nat -> string, now: nat -> string, disk: UploadDisk)
    requires base != [] && Clean(base) && PlainName(gid) && !disk.card
    ensures UploadSpec(base, data, w, entries, fond, opis, delo, gid, newId, now, disk) ==
              (Err(ServerError), w.(dirs := w.dirs + AllPrefixes(GroupDirs(data, gid))))
  {
    UploadStartEffect(base, data, w, gid, fond, opis, delo, now, false);
  }

  /** The index write at the end of the upload: it goes to group_index/{gid} and succeeds exactly when the disk does. */
  lemma IndexWriteEffect(base: Path, w: World, gid: string, doc: Json, indexOk: bool)
    requires base != [] && Clean(base) && PlainName(gid)
    ensures StoreOverwrite(base, w, IndexKey(gid), doc, indexOk) ==
              (indexOk, w.(st := WriteSpec(w.st, base + ["group_index", gid + ".json"], doc, indexOk).1))
  {
    IndexKeyPath(base, gid);
  }

  /** What the listing and the group endpoints read after the index write that ends an upload, whether or not it succeeded. */
  lemma UploadReads(base: Path, data: Path, w: World, w': World, gid: string, card: Json, index: Json, indexOk: bool,
                    regs: seq<Registration>, newId: nat -> string, now: nat -> string)
    requires base != [] && Clean(base) && Clean(data) && PlainName(gid)
    requires w'.st == WriteSpec(w.st, base + ["group_index", gid + ".json"], index, indexOk).1 && w'.files == w.files
    requires base + ["groups", gid + ".json"] in w.st.docs && w.st.docs[base + ["groups", gid + ".json"]].doc == card
    requires FreshIds(newId, |regs|)
    requires forall k :: 0 <= k < |regs| ==> regs[k].fid == newId(k) && Recorded(base, data, w, gid, regs[k], now(k + 1))
    ensures ReadSpec(base, w'.st, GroupKey(gid)) == Ok(card)
    ensures indexOk ==> ReadSpec(base, w'.st, IndexKey(gid)) == Ok(index)
    ensures forall k :: 0 <= k < |regs| ==> InProgress(base, data, w', gid, regs[k].fid)
  {
    GroupKeyPath(base, gid);
    IndexKeyPath(base, gid);
    var cardPath := base + ["groups", gid + ".json"];
    var indexPath := base + ["group_index", gid + ".json"];
    assert cardPath != indexPath by { assert cardPath[|base|] != indexPath[|base|]; }
    forall k | 0 <= k < |regs|
      ensures InProgress(base, data, w', gid, regs[k].fid)
    {
      assert PlainName(newId(k));
      var fp := RecordPath(base, regs[k].fid);
      assert fp[|base|] != indexPath[|base|];
      RecordedInProgress(base, data, w', gid, regs[k], now(k + 1));
    }
  }

  /**
   * The upload as its three phases when the card and every registration are written: card, extraction
   * and registration, index; the answer is the group's fields exactly when the index write succeeds.
   */
  lemma UploadPhases(base: Path, data: Path, w: World, entries: seq<ZipEntry>, fond: Option<string>, opis: Option<string>,
                     delo: Option<string>, gid: string, newId: nat -> string, now: nat -> string, disk: UploadDisk)
    requires base != [] && Clean(base) && Clean(data) && PlainName(gid)
    requires FreshIds(newId, |ExtractedTargets(entries, RawDir(data, gid))|)
    requires disk.card && RegistrationsSucceed(disk, |ExtractedTargets(entries, RawDir(data, gid))|)
    ensures var w2 := Extracted(UploadStart(base, data, w, gid, fond, opis, delo, now, disk.card).1, entries, RawDir(data, gid));
            var (r, w3) := RegisterSpec(base, data, w2, gid, ExtractedTargets(entries, RawDir(data, gid)), newId, now, disk);
            && r.Ok?
            && UploadSpec(base, data, w, entries, fond, opis, delo, gid, newId, now, disk) ==
                 (if disk.index then Ok(GroupOut(gid, fond, opis, delo)) else Err(ServerError),
                  w3.(st := WriteSpec(w3.st, base + ["group_index", gid + ".json"], IndexDoc(Ids(r.value)), disk.index).1))
  {
    UploadStartEffect(base, data, w, gid, fond, opis, delo, now, disk.card);
    var w1 := UploadStart(base, data, w, gid, fond, opis, delo, now, disk.card).1;
    var raw := RawDir(data, gid);
    var w2 := Extracted(w1, entries, raw);
    var srcs := ExtractedTargets(entries, raw);
    RegisterIds(base, data, w2, gid, srcs, newId, now, disk);
    var (r, w3) := RegisterSpec(base, data, w2, gid, srcs, newId, now, disk);
    IndexWriteEffect(base, w3, gid, IndexDoc(Ids(r.value)), disk.index);
  }

  /** Registration and the index write, after the card: what the store and the mirrors then hold. */
  lemma UploadTail(base: Path, data: Path, w: World, gid: string, srcs: seq<Path>, newId: nat -> string, now: nat -> string,
                   disk: UploadDisk, card: Json, index: Json, indexOk: bool)
    requires base != [] && Clean(base) && Clean(data) && PlainName(gid) && FreshIds(newId, |srcs|)
    requires RegistrationsSucceed(disk, |srcs|)
    requires base + ["groups", gid + ".json"] in w.st.docs && w.st.docs[base + ["groups", gid + ".json"]].doc == card
    ensures RegisterSpec(base, data, w, gid, srcs, newId, now, disk).0.Ok?
    ensures var (r, w3) := RegisterSpec(base, data, w, gid, srcs, newId, now, disk);
            var w4 := w3.(st := WriteSpec(w3.st, base + ["group_index", gid + ".json"], index, indexOk).1);
            && ReadSpec(base, w4.st, GroupKey(gid)) == Ok(card)
            && (indexOk ==> ReadSpec(base, w4.st, IndexKey(gid)) == Ok(index))
            && |r.value| <= |srcs|
            && forall k :: 0 <= k < |r.value| ==> r.value[k].fid == newId(k) && InProgress(base, data, w4, gid, r.value[k].fid)
  {
    var cardPath := base + ["groups", gid + ".json"];
    assert !InFilesFolder(base, cardPath) by { assert cardPath[..|base| + 1][|base|] == "groups"; }
    RegisterRecords(base, data, w, gid, srcs, newId, now, disk);
    var (r, w3) := RegisterSpec(base, data, w, gid, srcs, newId, now, disk);
    var w4 := w3.(st := WriteSpec(w3.st, base + ["group_index", gid + ".json"], index, indexOk).1);
    UploadReads(base, data, w3, w4, gid, card, index, indexOk, r.value, newId, now);
  }

  /**
   * A successful upload with fresh ids and working disks: the group card holds the given fields, and the
   * index, written last, lists newId(0), newId(1), ... for the registered files, each of which has a
   * progress record.
   */
  lemma UploadRecords(base: Path, data: Path, w: World, entries: seq<ZipEntry>, fond: Option<string>, opis: Option<string>,
                      delo: Option<string>, gid: string, newId: nat -> string, now: nat -> string, disk: UploadDisk)
    requires base != [] && Clean(base) && Clean(data) && PlainName(gid)
    requires FreshIds(newId, |ExtractedTargets(entries, RawDir(data, gid))|)
    requires disk.card && disk.index && RegistrationsSucceed(disk, |ExtractedTargets(entries, RawDir(data, gid))|)
    ensures var (r, w') := UploadSpec(base, data, w, entries, fond, opis, delo, gid, newId, now, disk);
            && r == Ok(GroupOut(gid, fond, opis, delo))
            && ReadSpec(base, w'.st, GroupKey(gid)) == Ok(GroupDoc(gid, fond, opis, delo, now(0)))
            && ReadSpec(base, w'.st, IndexKey(gid)).Ok?
            && IndexIds(ReadSpec(base, w'.st, IndexKey(gid)).value).Ok?
            && var ids := IndexIds(ReadSpec(base, w'.st, IndexKey(gid)).value).value;
               |ids| <= |ExtractedTargets(entries, RawDir(data, gid))| &&
               forall k :: 0 <= k < |ids| ==> ids[k] == newId(k) && InProgress(base, data, w', gid, ids[k])
  {
    UploadStartEffect(base, data, w, gid, fond, opis, delo, now, disk.card);
    UploadPhases(base, data, w, entries, fond, opis, delo, gid, newId, now, disk);
    var w2 := Extracted(UploadStart(base, data, w, gid, fond, opis, delo, now, disk.card).1, entries, RawDir(data, gid));
    var srcs := ExtractedTargets(entries, RawDir(data, gid));
    var regs := RegisterSpec(base, data, w2, gid, srcs, newId, now, disk).0.value;
    UploadTail(base, data, w2, gid, srcs, newId, now, disk, GroupDoc(gid, fond, opis, delo, now(0)), IndexDoc(Ids(regs)), true);
    IndexRoundTrip(Ids(regs));
  }

  /**
   * A failed index write after working registrations: the upload answers 500, yet the group is partly
   * written, its card readable and every registered file recorded in progress.
   */
  lemma UploadIndexLost(base: Path, data: Path, w: World, entries: seq<ZipEntry>, fond: Option<string>, opis: Option<string>,
                        delo: Option<string>, gid: string, newId: nat -> string, now: nat -> string, disk: UploadDisk)
    requires base != [] && Clean(base) && Clean(data) && PlainName(gid)
    requires FreshIds(newId, |ExtractedTargets(entries, RawDir(data, gid))|)
    requires disk.card && !disk.index && RegistrationsSucceed(disk, |ExtractedTargets(entries, RawDir(data, gid))|)
    ensures var (r, w') := UploadSpec(base, data, w, entries, fond, opis, delo, gid, newId, now, disk);
            var regs := UploadRegistered(base, data, w, entries, fond, opis, delo, gid, newId, now, disk);
            && r == Err(ServerError)
            && ReadSpec(base, w'.st, GroupKey(gid)) == Ok(GroupDoc(gid, fond, opis, delo, now(0)))
            && regs.Ok?
            && forall k :: 0 <= k < |regs.value| ==> InProgress(base, data, w', gid, regs.value[k].fid)
  {
    UploadStartEffect(base, data, w, gid, fond, opis, delo, now, disk.card);
    UploadPhases(base, data, w, entries, fond, opis, delo, gid, newId, now, disk);
    var w2 := Extracted(UploadStart(base, data, w, gid, fond, opis, delo, now, disk.card).1, entries, RawDir(data, gid));
    var srcs := ExtractedTargets(entries, RawDir(data, gid));
    var regs := RegisterSpec(base, data, w2, gid, srcs, newId, now, disk).0.value;
    UploadTail(base, data, w2, gid, srcs, newId, now, disk, GroupDoc(gid, fond, opis, delo, now(0)), IndexDoc(Ids(regs)), false);
  }

  // ---- list_files_in_group ----

  /**
   * One id of the index: skipped (None) when its mirror file is missing; otherwise the mirror must be
   * a JSON object whose original_name (default "") is a string and whose status (default "progress")
   * is one of the three names.
   */
  function ListEntry(data: Path, w: World, gid: string, fid: string): Result<Option<FileOut>, int>
  {
    var p := MirrorPath(data, gid, fid);
    if !PathExists(w, p) then Ok(None)
    else if p in w.dirs || !w.files[p].JsonFile? || !w.files[p].value.JObj? then Err(ServerError)
    else
      var doc := w.files[p].value.fields;
      match MakeFileOut(fid, gid, GetOr(doc, "original_name", JStr("")), GetOr(doc, "status", JStr(StatusName(Progress))))
      case Err(c) => Err(c)
      case Ok(o) => Ok(Some(o))
  }

  function ListEntries(data: Path, w: World, gid: string, ids: seq<string>): Result<seq<FileOut>, int>
  {
    if ids == [] then Ok([])
    else
      match ListEntries(data, w, gid, ids[..|ids| - 1])
      case Err(c) => Err(c)
      case Ok(out) =>
        match ListEntry(data, w, gid, ids[|ids| - 1])
        case Err(c) => Err(c)
        case Ok(e) => Ok(if e.Some? then out + [e.value] else out)
  }

  /** GET /groups/{gid}/files: 404 without an index, else one entry per indexed id whose mirror exists. */
  function ListFilesSpec(base: Path, data: Path, w: World, gid: string): Result<seq<FileOut>, int>
  {
    match StoreExists(base, w.st, IndexKey(gid))
    case Err(c) => Err(c)
    case Ok(present) =>
      if !present then Err(NotFoundStatus)
      else
        match StoreRead(base, w.st, IndexKey(gid))
        case Err(c) => Err(c)
        case Ok(idx) =>
          match IndexIds(idx)
          case Err(c) => Err(c)
          case Ok(ids) => ListEntries(data, w, gid, ids)
  }

  method ListFilesInGroup(store: JsonStore, fs: FileSystem, data: Path, gid: string) returns (r: Result<seq<FileOut>, int>)
    ensures r == ListFilesSpec(store.base, data, WorldOf(store, fs), gid)
  {
    var present := store.Exists(IndexKey(gid));
    if present.Err? {
      return Err(ServerError);
    }
    if !present.value {
      return Err(NotFoundStatus);
    }
    var idx := store.Read(IndexKey(gid));
    if idx.Err? {
      return Err(ServerError);
    }
    var ids := IndexIds(idx.value);
    if ids.Err? {
      return Err(ids.error);
    }
    ghost var w := WorldOf(store, fs);
    var out: seq<FileOut> := [];
    for i := 0 to |ids.value|
      invariant ListEntries(data, w, gid, ids.value[..i]) == Ok(out)
    {
      var e := ListEntryOf(fs, data, gid, ids.value[i], w);
      if e.Err? {
        ListFailsAt(data, w, gid, ids.value, i, out);
        return Err(e.error);
      }
      ListSnoc(data, w, gid, ids.value, i, out, e.value);
      if e.value.Some? {
        out := out + [e.value.value];
      }
    }
    assert ids.value[..|ids.value|] == ids.value;
    r := Ok(out);
  }

  /** Reads the mirror file of one indexed id. */
  method ListEntryOf(fs: FileSystem, data: Path, gid: string, fid: string, ghost w: World) returns (e: Result<Option<FileOut>, int>)
    requires w.files == fs.files && w.dirs == fs.dirs
    ensures e == ListEntry(data, w, gid, fid)
  {
    var p := MirrorPath(data, gid, fid);
    if !(p in fs.files || p in fs.dirs) {
      return Ok(None);
    }
    if p in fs.dirs || !fs.files[p].JsonFile? || !fs.files[p].value.JObj? {
      return Err(ServerError);
    }
    var doc := fs.files[p].value.fields;
    var o := MakeFileOut(fid, gid, GetOr(doc, "original_name", JStr("")), GetOr(doc, "status", JStr(StatusName(Progress))));
    if o.Err? {
      return Err(o.error);
    }
    return Ok(Some(o.value));
  }

  /** One more listed id extends the listing by its entry. */
  lemma ListSnoc(data: Path, w: World, gid: string, ids: seq<string>, i: nat, out: seq<FileOut>, e: Option<FileOut>)
    requires i < |ids| && ListEntries(data, w, gid, ids[..i]) == Ok(out)
    requires ListEntry(data, w, gid, ids[i]) == Ok(e)
    ensures ListEntries(data, w, gid, ids[..i + 1]) == Ok(if e.Some? then out + [e.value] else out)
  {
    assert ids[..i + 1][..i] == ids[..i];
  }

  /** The first failing entry decides the response. */
  lemma ListFailsAt(data: Path, w: World, gid: string, ids: seq<string>, i: nat, out: seq<FileOut>)
    requires i < |ids| && ListEntries(data, w, gid, ids[..i]) == Ok(out)
    requires ListEntry(data, w, gid, ids[i]).Err?
    ensures ListEntries(data, w, gid, ids) == Err(ListEntry(data, w, gid, ids[i]).error)
  {
    assert ids[..i + 1][..i] == ids[..i];
    ListErrSticks(data, w, gid, ids, i + 1);
  }

  /** The first failing entry decides the response. */
  lemma {:induction false} ListErrSticks(data: Path, w: World, gid: string, ids: seq<string>, j: nat)
    requires j <= |ids| && ListEntries(data, w, gid, ids[..j]).Err?
    ensures ListEntries(data, w, gid, ids) == ListEntries(data, w, gid, ids[..j])
    decreases |ids|
  {
    if j == |ids| {
      assert ids[..j] == ids;
    } else {
      var init := ids[..|ids| - 1];
      assert init[..j] == ids[..j];
      ListErrSticks(data, w, gid, init, j);
    }
  }

  /** Listing a group that has no index answers 404. */
  lemma ListWithoutIndex(base: Path, data: Path, w: World, gid: string)
    requires ExistsSpec(base, w.st, IndexKey(gid)) == Ok(false)
    ensures ListFilesSpec(base, data, w, gid) == Err(NotFoundStatus)
  {
  }

  /**
   * A successful listing has, in index order, exactly the indexed ids whose mirror exists: every entry
   * belongs to the group and to an indexed id with a mirror, and no indexed id with a mirror is missing.
   */
  lemma {:induction false} ListedAreIndexedWithMirror(data: Path, w: World, gid: string, ids: seq<string>)
    requires ListEntries(data, w, gid, ids).Ok?
    ensures var out := ListEntries(data, w, gid, ids).value;
            (forall o :: o in out ==> o.groupUuid == gid && o.fileUuid in ids && PathExists(w, MirrorPath(data, gid, o.fileUuid)))
            && (forall fid :: fid in ids && PathExists(w, MirrorPath(data, gid, fid)) ==> exists o :: o in out && o.fileUuid == fid)
            && |out| <= |ids|
  {
    if ids != [] {
      var init := ids[..|ids| - 1];
      ListedAreIndexedWithMirror(data, w, gid, init);
      var out0 := ListEntries(data, w, gid, init).value;
      var last := ids[|ids| - 1];
      assert ids == init + [last];
      var e := ListEntry(data, w, gid, last).value;
      if e.Some? {
        assert e.value.fileUuid == last && e.value.groupUuid == gid;
      }
    }
  }

  /** A mirror without a status field is listed as progress; its filename defaults to "". */
  lemma ListDefaults(data: Path, w: World, gid: string, fid: string)
    requires var p := MirrorPath(data, gid, fid);
             p in w.files && p !in w.dirs && w.files[p].JsonFile? && w.files[p].value.JObj?
    requires var doc := w.files[MirrorPath(data, gid, fid)].value.fields;
             "status" !in doc && "original_name" !in doc
    ensures ListEntry(data, w, gid, fid) == Ok(Some(FileOut(fid, gid, "", Progress)))
  {
  }

  // ---- patch_group ----

  /** The body of PATCH /groups/{gid}: each of fond, opis, delo when given. */
  datatype GroupPatch = GroupPatch(fond: Option<string>, opis: Option<string>, delo: Option<string>)

  function PatchPairs(p: GroupPatch): seq<(string, Option<string>)>
  {
    [("fond", p.fond), ("opis", p.opis), ("delo", p.delo)]
  }

  /** rec[f] = val for every given field, in order; assigning into a non-dict raises. */
  function ApplyPatch(rec: Json, pairs: seq<(string, Option<string>)>): Result<Json, int>
  {
    if pairs == [] then Ok(rec)
    else
      match ApplyPatch(rec, pairs[..|pairs| - 1])
      case Err(c) => Err(c)
      case Ok(r) =>
        var (f, v) := pairs[|pairs| - 1];
        if v.None? then Ok(r) else SetField(r, f, JStr(v.value))
  }

  /** An Optional[str] response field read with rec.get(f): null or a string. */
  function OptField(m: map<string, Json>, f: string): Result<Option<string>, int>
  {
    match Get(m, f)
    case JNull => Ok(None)
    case JStr(s) => Ok(Some(s))
    case _ => Err(ServerError)
  }

  function GroupOutOf(gid: string, rec: Json): Result<GroupOut, int>
  {
    if !rec.JObj? then Err(ServerError)
    else
      match OptField(rec.fields, "fond")
      case Err(c) => Err(c)
      case Ok(fond) =>
        match OptField(rec.fields, "opis")
        case Err(c) => Err(c)
        case Ok(opis) =>
          match OptField(rec.fields, "delo")
          case Err(c) => Err(c)
          case Ok(delo) => Ok(GroupOut(gid, fond, opis, delo))
  }

  /** PATCH /groups/{gid}: 404 without the group card; otherwise the given fields are overwritten and stored. */
  function PatchGroupSpec(base: Path, st: StoreState, gid: string, patch: GroupPatch, diskOk: bool): (Result<GroupOut, int>, StoreState)
  {
    var key := GroupKey(gid);
    match StoreExists(base, st, key)
    case Err(c) => (Err(c), st)
    case Ok(present) =>
      if !present then (Err(NotFoundStatus), st)
      else
        match StoreRead(base, st, key)
        case Err(c) => (Err(c), st)
        case Ok(rec) =>
          match ApplyPatch(rec, PatchPairs(patch))
          case Err(c) => (Err(c), st)
          case Ok(rec') =>
            var (w, st') := ReplaceSpec(base, st, key, rec', None, diskOk);
            if w.Err? then (Err(ServerError), st')
            else (GroupOutOf(gid, rec'), st')
  }

  method PatchGroup(store: JsonStore, gid: string, patch: GroupPatch, diskOk: bool) returns (r: Result<GroupOut, int>)
    requires store.Valid()
    modifies store
    ensures store.Valid()
    ensures (r, store.State()) == PatchGroupSpec(store.base, old(store.State()), gid, patch, diskOk)
  {
    var key := GroupKey(gid);
    var present := store.Exists(key);
    if present.Err? {
      return Err(ServerError);
    }
    if !present.value {
      return Err(NotFoundStatus);
    }
    var read := store.Read(key);
    if read.Err? {
      return Err(ServerError);
    }
    var rec := read.value;
    var pairs := PatchPairs(patch);
    var i := 0;
    while i < 3
      invariant 0 <= i <= 3
      invariant ApplyPatch(read.value, pairs[..i]) == Ok(rec)
    {
      assert pairs[..i + 1][..i] == pairs[..i];
      var (f, v) := pairs[i];
      if v.Some? {
        if !rec.JObj? {
          PatchErrSticks(read.value, pairs, i + 1);
          return Err(ServerError);
        }
        rec := JObj(rec.fields[f := JStr(v.value)]);
      }
      i := i + 1;
    }
    assert pairs[..3] == pairs;
    var w := store.Replace(key, rec, None, diskOk);
    if w.Err? {
      return Err(ServerError);
    }
    r := GroupOutOf(gid, rec);
  }

  lemma {:induction false} PatchErrSticks(rec: Json, pairs: seq<(string, Option<string>)>, j: nat)
    requires j <= |pairs| && ApplyPatch(rec, pairs[..j]).Err?
    ensures ApplyPatch(rec, pairs) == ApplyPatch(rec, pairs[..j])
    decreases |pairs|
  {
    if j == |pairs| {
      assert pairs[..j] == pairs;
    } else {
      var init := pairs[..|pairs| - 1];
      assert init[..j] == pairs[..j];
      PatchErrSticks(rec, init, j);
    }
  }

  /** Patching a group without a card answers 404 and writes nothing. */
  lemma PatchGroupAbsent(base: Path, st: StoreState, gid: string, patch: GroupPatch, diskOk: bool)
    requires ExistsSpec(base, st, GroupKey(gid)) == Ok(false)
    ensures PatchGroupSpec(base, st, gid, patch, diskOk) == (Err(NotFoundStatus), st)
  {
  }

  /** The patched value of one field: the given value, else what the card held. */
  function PatchedField(old_: map<string, Json>, f: string, v: Option<string>): Json
  {
    if v.Some? then JStr(v.value) else Get(old_, f)
  }

  /**
   * On a dict card the patch overwrites exactly the given fields: fond, opis and delo become the given
   * values where given and keep their old values otherwise, and every other field is unchanged.
   */
  lemma PatchOnlyGiven(rec: map<string, Json>, patch: GroupPatch)
    ensures ApplyPatch(JObj(rec), PatchPairs(patch)).Ok?
    ensures var m := ApplyPatch(JObj(rec), PatchPairs(patch)).value;
            m.JObj?
            && Get(m.fields, "fond") == PatchedField(rec, "fond", patch.fond)
            && Get(m.fields, "opis") == PatchedField(rec, "opis", patch.opis)
            && Get(m.fields, "delo") == PatchedField(rec, "delo", patch.delo)
            && (forall k :: k != "fond" && k != "opis" && k != "delo" ==> (k in m.fields <==> k in rec) && Get(m.fields, k) == Get(rec, k))
  {
    var pairs := PatchPairs(patch);
    assert "fond" != "opis" && "fond" != "delo" && "opis" != "delo" by {
      assert "fond"[0] != "opis"[0] && "fond"[0] != "delo"[0] && "opis"[0] != "delo"[0];
    }
    var m1 := if patch.fond.Some? then rec["fond" := JStr(patch.fond.value)] else rec;
    var m2 := if patch.opis.Some? then m1["opis" := JStr(patch.opis.value)] else m1;
    var m3 := if patch.delo.Some? then m2["delo" := JStr(patch.delo.value)] else m2;
    assert pairs[..1][..0] == [];
    assert ApplyPatch(JObj(rec), pairs[..1]) == Ok(JObj(m1));
    assert pairs[..2][..1] == pairs[..1];
    assert ApplyPatch(JObj(rec), pairs[..2]) == Ok(JObj(m2));
    assert pairs[..3][..2] == pairs[..2] && pairs[..3] == pairs;
    assert ApplyPatch(JObj(rec), pairs) == Ok(JObj(m3));
  }

  /** A successful patch stores the patched card and answers with the values it stored. */
  lemma PatchGroupStores(base: Path, st: StoreState, gid: string, patch: GroupPatch, diskOk: bool)
    requires PatchGroupSpec(base, st, gid, patch, diskOk).0.Ok?
    ensures ReadSpec(base, st, GroupKey(gid)).Ok? && ApplyPatch(ReadSpec(base, st, GroupKey(gid)).value, PatchPairs(patch)).Ok?
    ensures var rec' := ApplyPatch(ReadSpec(base, st, GroupKey(gid)).value, PatchPairs(patch)).value;
            var (r, st') := PatchGroupSpec(base, st, gid, patch, diskOk);
            ReadSpec(base, st', GroupKey(gid)) == Ok(rec') && r == GroupOutOf(gid, rec')
  {
    var rec' := ApplyPatch(ReadSpec(base, st, GroupKey(gid)).value, PatchPairs(patch)).value;
    ReadAfterReplace(base, st, GroupKey(gid), rec', None, diskOk);
  }

  // ---- delete_group ----

  /** shutil.rmtree(root) on the world: root and everything below it disappear. */
  function RemovedTree(w: World, root: Path): World
  {
    w.(files := map p | p in w.files && !IsPrefixPath(root, p) :: w.files[p], dirs := set p | p in w.dirs && !IsPrefixPath(root, p))
  }

  /** The record keys files/{fid} of the ids, in order. */
  function FileKeys(ids: seq<string>): seq<string>
  {
    if ids == [] then [] else FileKeys(ids[..|ids| - 1]) + [FileKey(ids[|ids| - 1])]
  }

  lemma {:induction false} FileKeysOf(ids: seq<string>)
    ensures |FileKeys(ids)| == |ids| && forall i :: 0 <= i < |ids| ==> FileKeys(ids)[i] == FileKey(ids[i])
  {
    if ids != [] {
      FileKeysOf(ids[..|ids| - 1]);
    }
  }

  /** store.delete(key, missing_ok=True) for each key in turn; a refused key raises. */
  function DiscardAll(base: Path, st: StoreState, keys: seq<string>): (Result<(), int>, StoreState)
  {
    if keys == [] then (Ok(()), st)
    else
      var (r, st1) := DiscardAll(base, st, keys[..|keys| - 1]);
      if r.Err? then (r, st1)
      else
        var (d, st2) := DeleteSpec(base, st1, keys[|keys| - 1], true);
        (if d.Ok? then Ok(()) else Err(ServerError), st2)
  }

  /**
   * The store part of DELETE /groups/{gid}, for the card key and the index key: the card is deleted, then,
   * when the index exists, every record it lists and the index itself, each with missing_ok.
   */
  function CascadeSpec(base: Path, st: StoreState, card: string, index: string): (int, StoreState)
  {
    var (d, st1) := DeleteSpec(base, st, card, true);
    if d.Err? then (ServerError, st1)
    else
      match ExistsSpec(base, st1, index)
      case Err(_) => (ServerError, st1)
      case Ok(present) =>
        if !present then (NoContent, st1)
        else
          match ReadSpec(base, st1, index)
          case Err(_) => (ServerError, st1)
          case Ok(idx) =>
            match IndexIds(idx)
            case Err(c) => (c, st1)
            case Ok(ids) =>
              var (r, st2) := DiscardAll(base, st1, FileKeys(ids));
              if r.Err? then (ServerError, st2)
              else
                var (d2, st3) := DeleteSpec(base, st2, index, true);
                (if d2.Ok? then NoContent else ServerError, st3)
  }

  /**
   * DELETE /groups/{gid}: the group directory is removed when it exists, then the store records go.
   * rmtree of a regular file at the group's path raises NotADirectoryError, which is ignored, so the
   * file stays. 204, unless a store call raises.
   */
  function DeleteGroupSpec(base: Path, data: Path, w: World, gid: string): (int, World)
  {
    var root := GroupRoot(data, gid);
    var w1 := if root in w.dirs then RemovedTree(w, root) else w;
    var (code, st') := CascadeSpec(base, w1.st, GroupKey(gid), IndexKey(gid));
    (code, w1.(st := st'))
  }

  method DeleteGroup(store: JsonStore, fs: FileSystem, data: Path, gid: string) returns (code: int)
    requires store.Valid()
    modifies store, fs
    ensures store.Valid()
    ensures (code, WorldOf(store, fs)) == DeleteGroupSpec(store.base, data, old(WorldOf(store, fs)), gid)
  {
    var root := GroupRoot(data, gid);
    if root in fs.files || root in fs.dirs {
      // a failed rmtree is swallowed
      var removed := fs.RemoveTree(root);
    }
    code := Cascade(store, GroupKey(gid), IndexKey(gid));
  }

  method Cascade(store: JsonStore, card: string, index: string) returns (code: int)
    requires store.Valid()
    modifies store
    ensures store.Valid()
    ensures (code, store.State()) == CascadeSpec(store.base, old(store.State()), card, index)
  {
    var d := store.Delete(card, true);
    if d.Err? {
      return ServerError;
    }
    var present := store.Exists(index);
    if present.Err? {
      return ServerError;
    }
    if !present.value {
      return NoContent;
    }
    var idx := store.Read(index);
    if idx.Err? {
      return ServerError;
    }
    var ids := IndexIds(idx.value);
    if ids.Err? {
      return ids.error;
    }
    var r := DiscardRecords(store, FileKeys(ids.value));
    if r.Err? {
      return ServerError;
    }
    var d2 := store.Delete(index, true);
    code := if d2.Ok? then NoContent else ServerError;
  }

  /** The loop of delete_group over the record keys of the indexed ids. */
  method DiscardRecords(store: JsonStore, keys: seq<string>) returns (r: Result<(), int>)
    requires store.Valid()
    modifies store
    ensures store.Valid()
    ensures (r, store.State()) == DiscardAll(store.base, old(store.State()), keys)
  {
    ghost var st0 := store.State();
    var i := 0;
    while i < |keys|
      invariant 0 <= i <= |keys|
      invariant store.Valid()
      invariant (Ok(()), store.State()) == DiscardAll(store.base, st0, keys[..i])
    {
      ghost var before := store.State();
      var d := store.Delete(keys[i], true);
      DiscardStep(store.base, st0, keys, i, before);
      if d.Err? {
        DiscardErrSticks(store.base, st0, keys, i + 1);
        return Err(ServerError);
      }
      i := i + 1;
    }
    assert keys[..|keys|] == keys;
    r := Ok(());
  }

  /** One more key: the outcome and state of deleting it after the first i keys all succeeded. */
  lemma DiscardStep(base: Path, st0: StoreState, keys: seq<string>, i: nat, st: StoreState)
    requires i < |keys| && DiscardAll(base, st0, keys[..i]) == (Ok(()), st)
    ensures var (d, st') := DeleteSpec(base, st, keys[i], true);
      DiscardAll(base, st0, keys[..i + 1]) == (if d.Ok? then Ok(()) else Err(ServerError), st')
  {
    assert keys[..i + 1][..i] == keys[..i];
  }

  lemma {:induction false} DiscardErrSticks(base: Path, st: StoreState, keys: seq<string>, j: nat)
    requires j <= |keys| && DiscardAll(base, st, keys[..j]).0.Err?
    ensures DiscardAll(base, st, keys) == DiscardAll(base, st, keys[..j])
    decreases |keys|
  {
    if j == |keys| {
      assert keys[..j] == keys;
    } else {
      var init := keys[..|keys| - 1];
      assert init[..j] == keys[..j];
      DiscardErrSticks(base, st, init, j);
    }
  }

  /** A key whose path is not stored does not exist. */
  predicate Gone(base: Path, st: StoreState, key: string)
  {
    KeyToPath(base, key).Ok? && KeyToPath(base, key).value !in st.docs
  }

  /**
   * Deleting the records of ids removes each of them and adds nothing; with missing_ok it only fails on
   * a key the store refuses.
   */
  lemma {:induction false} DiscardAllRemoves(base: Path, st: StoreState, keys: seq<string>)
    ensures DiscardAll(base, st, keys).0.Ok? <==> forall k :: k in keys ==> KeyToPath(base, k).Ok?
    ensures var st' := DiscardAll(base, st, keys).1; st'.docs.Keys <= st.docs.Keys
    ensures DiscardAll(base, st, keys).0.Ok? ==> forall k :: k in keys ==> Gone(base, DiscardAll(base, st, keys).1, k)
  {
    if keys != [] {
      var init := keys[..|keys| - 1];
      var last := keys[|keys| - 1];
      assert keys == init + [last];
      DiscardAllRemoves(base, st, init);
    }
  }

  /**
   * After a successful cascade the card and the index are gone, every record the index listed is gone,
   * and nothing was added.
   */
  lemma CascadeRemovesAll(base: Path, st: StoreState, card: string, index: string)
    requires CascadeSpec(base, st, card, index).0 == NoContent
    requires KeyToPath(base, card) != KeyToPath(base, index)
    ensures var st' := CascadeSpec(base, st, card, index).1;
            Gone(base, st', card) && Gone(base, st', index) && st'.docs.Keys <= st.docs.Keys
    ensures var st' := CascadeSpec(base, st, card, index).1;
            ReadSpec(base, st, index).Ok? && IndexIds(ReadSpec(base, st, index).value).Ok? ==>
              forall id :: id in IndexIds(ReadSpec(base, st, index).value).value ==> Gone(base, st', FileKey(id))
  {
    var st1 := DeleteSpec(base, st, card, true).1;
    assert ReadSpec(base, st1, index) == ReadSpec(base, st, index);
    if ExistsSpec(base, st1, index) == Ok(true) {
      var ids := IndexIds(ReadSpec(base, st1, index).value).value;
      DiscardAllRemoves(base, st1, FileKeys(ids));
      FileKeysOf(ids);
      forall id | id in ids ensures FileKey(id) in FileKeys(ids) {
        var i :| 0 <= i < |ids| && ids[i] == id;
        assert FileKeys(ids)[i] == FileKey(id);
      }
    }
  }

  /** Deleting one key leaves what another key with a different path reads and whether it exists. */
  lemma DeleteKeepsOther(base: Path, st: StoreState, key: string, other: string)
    requires KeyToPath(base, key).Ok? && KeyToPath(base, other).Ok? && KeyToPath(base, key) != KeyToPath(base, other)
    ensures DeleteSpec(base, st, key, true).0.Ok?
    ensures ReadSpec(base, DeleteSpec(base, st, key, true).1, other) == ReadSpec(base, st, other)
    ensures ExistsSpec(base, DeleteSpec(base, st, key, true).1, other) == ExistsSpec(base, st, other)
  {
  }

  /** Missing entries are tolerated: with keys the store accepts and a well-formed index, the cascade answers 204. */
  lemma CascadeTolerant(base: Path, st: StoreState, card: string, index: string)
    requires KeyToPath(base, card).Ok? && KeyToPath(base, index).Ok? && KeyToPath(base, card) != KeyToPath(base, index)
    requires ReadSpec(base, st, index).Ok? ==> IndexIds(ReadSpec(base, st, index).value).Ok?
    requires ReadSpec(base, st, index).Ok? ==>
               forall k :: k in FileKeys(IndexIds(ReadSpec(base, st, index).value).value) ==> KeyToPath(base, k).Ok?
    ensures CascadeSpec(base, st, card, index).0 == NoContent
  {
    var st1 := DeleteSpec(base, st, card, true).1;
    DeleteKeepsOther(base, st, card, index);
    if ReadSpec(base, st1, index).Ok? {
      var ids := IndexIds(ReadSpec(base, st1, index).value).value;
      DiscardAllRemoves(base, st1, FileKeys(ids));
    }
  }

  /** The record keys of UUID ids are all accepted by a store with a proper base directory. */
  lemma PlainKeysValid(base: Path, ids: seq<string>)
    requires base != [] && Clean(base) && forall id :: id in ids ==> PlainName(id)
    ensures forall k :: k in FileKeys(ids) ==> KeyToPath(base, k).Ok?
  {
    FileKeysOf(ids);
    forall k | k in FileKeys(ids) ensures KeyToPath(base, k).Ok? {
      var i :| 0 <= i < |ids| && FileKeys(ids)[i] == k;
      FileKeyPath(base, ids[i]);
    }
  }

  /** After a group delete nothing is left below the group directory when it was a directory. */
  lemma DeleteGroupRemovesTree(base: Path, data: Path, w: World, gid: string)
    requires GroupRoot(data, gid) in w.dirs
    ensures var w' := DeleteGroupSpec(base, data, w, gid).1;
            forall p :: p in w'.files || p in w'.dirs ==> !IsPrefixPath(GroupRoot(data, gid), p)
  {
  }

  /** A regular file in place of the group directory survives the delete: rmtree's error is swallowed. */
  lemma DeleteGroupKeepsFile(base: Path, data: Path, w: World, gid: string)
    requires GroupRoot(data, gid) !in w.dirs
    ensures var w' := DeleteGroupSpec(base, data, w, gid).1;
            w'.files == w.files && w'.dirs == w.dirs
  {
  }

  /** For a UUID group id, deleting the group answers 204 and removes the card, the index and the listed records. */
  lemma DeleteGroupComplete(base: Path, data: Path, w: World, gid: string)
    requires base != [] && Clean(base) && PlainName(gid)
    requires ReadSpec(base, w.st, IndexKey(gid)).Ok? ==> IndexIds(ReadSpec(base, w.st, IndexKey(gid)).value).Ok?
    requires ReadSpec(base, w.st, IndexKey(gid)).Ok? ==>
               forall id :: id in IndexIds(ReadSpec(base, w.st, IndexKey(gid)).value).value ==> PlainName(id)
    ensures var (code, w') := DeleteGroupSpec(base, data, w, gid);
            code == NoContent && Gone(base, w'.st, GroupKey(gid)) && Gone(base, w'.st, IndexKey(gid))
    ensures var (code, w') := DeleteGroupSpec(base, data, w, gid);
            ReadSpec(base, w.st, IndexKey(gid)).Ok? ==>
              forall id :: id in IndexIds(ReadSpec(base, w.st, IndexKey(gid)).value).value ==> Gone(base, w'.st, FileKey(id))
  {
    GroupKeyPath(base, gid);
    IndexKeyPath(base, gid);
    var c := base + ["groups", gid + ".json"];
    var x := base + ["group_index", gid + ".json"];
    assert c != x by {
      assert c[|base|] == "groups" && x[|base|] == "group_index" && |"groups"| != |"group_index"|;
    }
    var root := GroupRoot(data, gid);
    var w1 := if root in w.dirs then RemovedTree(w, root) else w;
    assert w1.st == w.st;
    if ReadSpec(base, w.st, IndexKey(gid)).Ok? {
      PlainKeysValid(base, IndexIds(ReadSpec(base, w.st, IndexKey(gid)).value).value);
    }
    CascadeTolerant(base, w.st, GroupKey(gid), IndexKey(gid));
    CascadeRemovesAll(base, w.st, GroupKey(gid), IndexKey(gid));
  }
}
