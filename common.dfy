// Group directory layout, archive filtering and JSON file writes of the backend
// (backend/src/utils/common.py), over a model of the part of the file system outside the store.
module Common {
  import opened Wrappers
  import opened Text
  import opened Paths
  import opened JsonValues

  // ---- directory layout ----

  /** GROUPS_DIR: <data>/groups, where <data> is the configured data directory. */
  function GroupsDir(data: Path): Path { data + ["groups"] }

  /** group_root: (GROUPS_DIR / gid).resolve(). */
  function GroupRoot(data: Path, gid: string): Path { Resolve(GroupsDir(data), gid) }

  function RawDir(data: Path, gid: string): Path { GroupRoot(data, gid) + ["raw_data"] }
  function StatusDir(data: Path, gid: string): Path { GroupRoot(data, gid) + ["statuses"] }
  function ProcessDir(data: Path, gid: string): Path { GroupRoot(data, gid) + ["process"] }
  function FinalDir(data: Path, gid: string): Path { GroupRoot(data, gid) + ["final"] }

  /** The four working directories of a group. */
  function GroupDirs(data: Path, gid: string): seq<Path>
  {
    [RawDir(data, gid), StatusDir(data, gid), ProcessDir(data, gid), FinalDir(data, gid)]
  }

  /** The four directories are distinct children of the group root. */
  lemma GroupDirsLayout(data: Path, gid: string)
    ensures forall i :: 0 <= i < 4 ==> (GroupDirs(data, gid)[i][..|GroupRoot(data, gid)|] == GroupRoot(data, gid)
                                       && |GroupDirs(data, gid)[i]| == |GroupRoot(data, gid)| + 1)
    ensures forall i, j :: 0 <= i < j < 4 ==> GroupDirs(data, gid)[i] != GroupDirs(data, gid)[j]
  {
    var root := GroupRoot(data, gid);
    var ds := GroupDirs(data, gid);
    forall i, j | 0 <= i < j < 4 ensures ds[i] != ds[j] {
      assert ds[i][|root|] != ds[j][|root|];
    }
  }

  /** stage_dir: the final directory exactly for stage "final"; every other stage reads the process directory. */
  function StageDir(data: Path, gid: string, stage: string): (r: Path)
    ensures r == FinalDir(data, gid) <==> stage == "final"
    ensures r == ProcessDir(data, gid) <==> stage != "final"
  {
    assert FinalDir(data, gid)[|GroupRoot(data, gid)|] != ProcessDir(data, gid)[|GroupRoot(data, gid)|];
    if stage == "final" then FinalDir(data, gid) else ProcessDir(data, gid)
  }

  // ---- archive member filters ----

  /** name.rsplit("/", 1)[-1]: the text after the last slash. */
  function BaseName(name: string): (r: string)
    ensures '/' !in r && EndsWith(name, r)
    ensures '/' !in name ==> r == name
  {
    var i := LastIndexOf(name, '/');
    name[i + 1..]
  }

  /** _is_trash_member: macOS resource forks and Finder metadata. */
  predicate IsTrashMember(name: string)
  {
    StartsWith(name, "__MACOSX/") || StartsWith(BaseName(name), "._") || BaseName(name) == ".DS_Store"
  }

  const AllowedExts: set<string> := {".jpg", ".jpeg", ".png", ".pdf"}

  /** _is_allowed_ext(Path(name)): the lower-cased suffix of the last path component is an allowed one. */
  predicate IsAllowedExt(name: string)
  {
    Lower(Suffix(NameOf(name))) in AllowedExts
  }

  // ---- the file system ----

  datatype FileData = JsonFile(value: Json) | BlobFile(bytes: seq<bv8>) | TextFile(text: string)

  /** A member of an uploaded zip archive; names ending in "/" are directories. */
  datatype ZipEntry = ZipEntry(name: string, data: seq<bv8>)

  predicate IsDirEntry(e: ZipEntry) { e.name != [] && e.name[|e.name| - 1] == '/' }

  /** Every prefix of p, p included: what mkdir(parents=True) creates. */
  function Prefixes(p: Path): set<Path>
  {
    set k | 0 <= k <= |p| :: p[..k]
  }

  /** Path.parent: the root is its own parent. */
  function Parent(p: Path): Path { if p == [] then [] else p[..|p| - 1] }

  /** The parent of each path, in order. */
  function Parents(ts: seq<Path>): (r: seq<Path>)
    ensures |r| == |ts| && forall i :: 0 <= i < |ts| ==> r[i] == Parent(ts[i])
  {
    if ts == [] then [] else Parents(ts[..|ts| - 1]) + [Parent(ts[|ts| - 1])]
  }

  /** Union of Prefixes over a sequence of directories. */
  function AllPrefixes(ds: seq<Path>): set<Path>
  {
    if ds == [] then {} else AllPrefixes(ds[..|ds| - 1]) + Prefixes(ds[|ds| - 1])
  }

  /** The test of extract_zip_filtered: str(target) starts with str(out_dir) + "/". */
  predicate StrictlyUnder(dir: Path, p: Path)
  {
    StartsWith(Render(p), Render(dir) + "/")
  }

  lemma StrictlyUnderIff(dir: Path, p: Path)
    requires dir != [] && Clean(dir) && Clean(p)
    ensures StrictlyUnder(dir, p) <==> IsPrefixPath(dir, p) && |p| > |dir|
  {
    WithinBaseIffPrefix(dir, p);
    if p == dir {
      assert !StrictlyUnder(dir, p) by {
        assert |Render(dir) + "/"| > |Render(p)|;
      }
    }
  }

  /** Where an archive member would be written, if it passes every filter of extract_zip_filtered. */
  function ExtractTarget(e: ZipEntry, outDir: Path): Option<Path>
  {
    if IsDirEntry(e) || IsTrashMember(e.name) then None
    else if !IsAllowedExt(e.name) then None
    else
      var target := Resolve(outDir, e.name);
      if StrictlyUnder(outDir, target) then Some(target) else None
  }

  lemma ExtractTargetSome(e: ZipEntry, outDir: Path)
    requires ExtractTarget(e, outDir).Some?
    ensures ExtractTarget(e, outDir).value == Resolve(outDir, e.name)
    ensures !IsDirEntry(e) && !IsTrashMember(e.name)
    ensures IsAllowedExt(e.name) && StrictlyUnder(outDir, Resolve(outDir, e.name))
  {
  }

  /** A macOS trash member is never extracted, whatever its suffix. */
  lemma TrashNoTarget(e: ZipEntry, outDir: Path)
    requires IsTrashMember(e.name)
    ensures ExtractTarget(e, outDir) == None
  {
  }

  /** The base name of dir + "/" + name, for a name without a slash, is that name. */
  lemma BaseNameAfterSlash(dir: string, name: string)
    requires '/' !in name
    ensures BaseName(dir + "/" + name) == name
  {
    var s := dir + "/" + name;
    var i := LastIndexOf(s, '/');
    assert s[|dir|] == '/';
    assert s[|dir| + 1..] == name;
  }

  /** A member under __MACOSX/ (a resource fork) is skipped. */
  lemma ResourceForkSkipped(outDir: Path, data: seq<bv8>, name: string)
    ensures ExtractTarget(ZipEntry("__MACOSX/" + name, data), outDir) == None
  {
    assert "__MACOSX/" <= "__MACOSX/" + name;
    TrashNoTarget(ZipEntry("__MACOSX/" + name, data), outDir);
  }

  /** A "._" file in any directory is skipped. */
  lemma DotUnderscoreSkipped(outDir: Path, data: seq<bv8>, dir: string, name: string)
    requires '/' !in name
    ensures ExtractTarget(ZipEntry(dir + "/._" + name, data), outDir) == None
  {
    BaseNameAfterSlash(dir, "._" + name);
    assert dir + "/" + ("._" + name) == dir + "/._" + name;
    assert "._" <= "._" + name;
    TrashNoTarget(ZipEntry(dir + "/._" + name, data), outDir);
  }

  /** A .DS_Store in any directory is skipped. */
  lemma DsStoreSkipped(outDir: Path, data: seq<bv8>, dir: string)
    ensures ExtractTarget(ZipEntry(dir + "/.DS_Store", data), outDir) == None
  {
    BaseNameAfterSlash(dir, ".DS_Store");
    assert dir + "/" + ".DS_Store" == dir + "/.DS_Store";
    TrashNoTarget(ZipEntry(dir + "/.DS_Store", data), outDir);
  }

  /** The targets written by extract_zip_filtered, in archive order (a repeated name appears twice). */
  function ExtractedTargets(entries: seq<ZipEntry>, outDir: Path): seq<Path>
  {
    if entries == [] then []
    else
      var t := ExtractTarget(entries[|entries| - 1], outDir);
      ExtractedTargets(entries[..|entries| - 1], outDir) + (if t.Some? then [t.value] else [])
  }

  /** The files after extracting entries on top of files: a later member with the same target wins. */
  function ExtractedFiles(files: map<Path, FileData>, entries: seq<ZipEntry>, outDir: Path): map<Path, FileData>
  {
    if entries == [] then files
    else
      var before := ExtractedFiles(files, entries[..|entries| - 1], outDir);
      var e := entries[|entries| - 1];
      var t := ExtractTarget(e, outDir);
      if t.Some? then before[t.value := BlobFile(e.data)] else before
  }

  /** One more archive member: its target, if any, is appended and written last. */
  lemma ExtractStep(entries: seq<ZipEntry>, i: nat, outDir: Path, files: map<Path, FileData>)
    requires i < |entries|
    ensures var t := ExtractTarget(entries[i], outDir);
            ExtractedTargets(entries[..i + 1], outDir)
              == ExtractedTargets(entries[..i], outDir) + (if t.Some? then [t.value] else [])
    ensures var t := ExtractTarget(entries[i], outDir);
            ExtractedFiles(files, entries[..i + 1], outDir)
              == (if t.Some? then ExtractedFiles(files, entries[..i], outDir)[t.value := BlobFile(entries[i].data)]
                  else ExtractedFiles(files, entries[..i], outDir))
  {
    assert entries[..i + 1][..i] == entries[..i];
  }

  /** Strictly inside outDir, under a name with an allowed suffix. */
  predicate SafeTarget(outDir: Path, t: Path)
  {
    IsPrefixPath(outDir, t) && |t| > |outDir| && Lower(Suffix(t[|t| - 1])) in AllowedExts
  }

  /** Every extracted file lies strictly inside the output directory and keeps an allowed suffix. */
  lemma {:induction false} ExtractedTargetsSafe(entries: seq<ZipEntry>, outDir: Path)
    requires outDir != [] && Clean(outDir)
    ensures forall t <- ExtractedTargets(entries, outDir) :: SafeTarget(outDir, t)
  {
    if entries != [] {
      var pre := entries[..|entries| - 1];
      ExtractedTargetsSafe(pre, outDir);
      var t := ExtractTarget(entries[|entries| - 1], outDir);
      if t.Some? {
        ExtractedTargetSafe(entries[|entries| - 1], outDir);
      }
      assert ExtractedTargets(entries, outDir) == ExtractedTargets(pre, outDir) + (if t.Some? then [t.value] else []);
    }
  }

  lemma ExtractedTargetSafe(e: ZipEntry, outDir: Path)
    requires outDir != [] && Clean(outDir) && ExtractTarget(e, outDir).Some?
    ensures SafeTarget(outDir, ExtractTarget(e, outDir).value)
  {
    ExtractTargetSome(e, outDir);
    TargetSafe(e.name, outDir);
  }

  lemma TargetSafe(name: string, outDir: Path)
    requires outDir != [] && Clean(outDir) && IsAllowedExt(name) && StrictlyUnder(outDir, Resolve(outDir, name))
    ensures SafeTarget(outDir, Resolve(outDir, name))
  {
    var t := Resolve(outDir, name);
    ResolveClean(outDir, name);
    StrictlyUnderIff(outDir, t);
    AllowedName(name);
    ResolvedName(outDir, name);
  }

  lemma AllowedName(s: string)
    requires IsAllowedExt(s)
    ensures NameOf(s) != "" && NameOf(s) != ".."
  {
  }

  /** A resolved path whose name is not ".." ends with that name. */
  lemma ResolvedName(base: Path, s: string)
    requires NameOf(s) != "" && NameOf(s) != ".."
    ensures var t := Resolve(base, s); t != [] && t[|t| - 1] == NameOf(s)
  {
    var raw := JoinStr(base, s);
    var ps := Parts(s);
    assert ps != [] && ps[|ps| - 1] == NameOf(s);
    assert raw != [] && raw[|raw| - 1] == ps[|ps| - 1];
    assert raw == raw[..|raw| - 1] + [raw[|raw| - 1]];
    NormalizeAppend([], raw[..|raw| - 1], [raw[|raw| - 1]]);
  }


  class FileSystem {
    var files: map<Path, FileData>
    var dirs: set<Path>

    predicate Exists(p: Path)
      reads this
    {
      p in files || p in dirs
    }

    /** ensure_group_dirs: the four group directories and their parents exist afterwards. */
    method EnsureGroupDirs(data: Path, gid: string)
      modifies this
      ensures files == old(files)
      ensures dirs == old(dirs) + AllPrefixes(GroupDirs(data, gid))
    {
      var ds := GroupDirs(data, gid);
      var i := 0;
      while i < 4
        invariant 0 <= i <= 4
        invariant files == old(files)
        invariant dirs == old(dirs) + AllPrefixes(ds[..i])
        decreases 4 - i
      {
        assert ds[..i + 1][..i] == ds[..i];
        dirs := dirs + Prefixes(ds[i]);
        i := i + 1;
      }
      assert ds[..4] == ds;
    }

    /** A directory that does not exist yet is created with its parents (mkdir(parents=True)). */
    method EnsureDir(p: Path)
      modifies this
      ensures files == old(files)
      ensures dirs == if old(Exists(p)) then old(dirs) else old(dirs) + Prefixes(p)
    {
      if !Exists(p) {
        dirs := dirs + Prefixes(p);
      }
    }

    /** _ensure_train_dirs: the texts and images directories under root, and their parents, exist afterwards. */
    method EnsureTrainDirs(root: Path)
      modifies this
      ensures files == old(files)
      ensures dirs == old(dirs) + Prefixes(root + ["texts"]) + Prefixes(root + ["images"])
    {
      dirs := dirs + Prefixes(root + ["texts"]);
      dirs := dirs + Prefixes(root + ["images"]);
    }

    /** atomic_write_json: the parent directories are created, then the document replaces the file whole or not at all. */
    method AtomicWriteJson(path: Path, obj: Json, diskOk: bool) returns (ok: bool)
      modifies this
      ensures ok == (diskOk && path != [])
      ensures dirs == old(dirs) + Prefixes(Parent(path))
      ensures files == if ok then old(files)[path := JsonFile(obj)] else old(files)
    {
      dirs := dirs + Prefixes(Parent(path));
      if !diskOk || path == [] {
        // os.replace onto "/" fails like any other write error: the temporary file is removed
        return false;
      }
      files := files[path := JsonFile(obj)];
      ok := true;
    }

    /** Path.unlink on a path known to exist: a regular file is removed; a directory cannot be unlinked. */
    method Unlink(p: Path) returns (ok: bool)
      modifies this
      ensures ok == (p !in old(dirs))
      ensures files == if ok then old(files) - {p} else old(files)
      ensures dirs == old(dirs)
    {
      if p in dirs {
        return false;
      }
      files := files - {p};
      ok := true;
    }

    /**
     * shutil.rmtree(root): a directory disappears with everything below it; a root that is no directory
     * (a regular file, or nothing) raises NotADirectoryError or FileNotFoundError and nothing changes.
     */
    method RemoveTree(root: Path) returns (ok: bool)
      modifies this
      ensures ok == (root in old(dirs))
      ensures files == if ok then map p | p in old(files) && !IsPrefixPath(root, p) :: old(files)[p] else old(files)
      ensures dirs == if ok then set p | p in old(dirs) && !IsPrefixPath(root, p) else old(dirs)
    {
      if root !in dirs {
        return false;
      }
      files := map p | p in files && !IsPrefixPath(root, p) :: files[p];
      dirs := set p | p in dirs && !IsPrefixPath(root, p);
      ok := true;
    }

    /** extract_zip_filtered: writes every acceptable member below outDir and returns the targets in archive order. */
    method ExtractZipFiltered(entries: seq<ZipEntry>, outDir: Path) returns (written: seq<Path>)
      modifies this
      ensures written == ExtractedTargets(entries, outDir)
      ensures files == ExtractedFiles(old(files), entries, outDir)
      ensures dirs == old(dirs) + Prefixes(outDir) + AllPrefixes(Parents(written))
    {
      dirs := dirs + Prefixes(outDir);
      written := [];
      var i := 0;
      while i < |entries|
        invariant 0 <= i <= |entries|
        invariant written == ExtractedTargets(entries[..i], outDir)
        invariant files == ExtractedFiles(old(files), entries[..i], outDir)
        invariant dirs == old(dirs) + Prefixes(outDir) + AllPrefixes(Parents(written))
      {
        var e := entries[i];
        ExtractStep(entries, i, outDir, old(files));
        var target := ExtractTarget(e, outDir);
        if target.Some? {
          var t := target.value;
          dirs := dirs + Prefixes(Parent(t));
          files := files[t := BlobFile(e.data)];
          assert Parents(written + [t]) == Parents(written) + [Parent(t)];
          assert (Parents(written) + [Parent(t)])[..|written|] == Parents(written);
          written := written + [t];
        }
        i := i + 1;
      }
      assert entries[..|entries|] == entries;
    }
  }
}
