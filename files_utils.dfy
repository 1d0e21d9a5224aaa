// Helpers of backend/src/utils/files.py: the stem normalisation shared with the report builder,
// the lookup of a file's source image under raw_data/, and the atomic text write.
module FilesUtils {
  import opened Wrappers
  import opened Text
  import opened Paths
  import opened JsonValues
  import opened Common

  // ---- _stem_norm ----

  /** The text ends with "_result" in any letter case (the pattern "(?:_result)?$" with IGNORECASE). */
  predicate HasResultSuffix(s: string)
  {
    |s| >= 7 && Lower(s[|s| - 7..]) == "_result"
  }

  /** re.sub(r"(?:_result)?$", "", s, flags=IGNORECASE): one trailing "_result" goes. */
  function StripResult(s: string): (r: string)
    ensures r <= s
    ensures HasResultSuffix(s) ==> |r| == |s| - 7
    ensures !HasResultSuffix(s) ==> r == s
  {
    if HasResultSuffix(s) then s[..|s| - 7] else s
  }

  /** The text ends with "_" followed by three or more digits and nothing else. */
  predicate HasIndexSuffix(s: string)
  {
    var i := LastIndexOf(s, '_');
    i >= 0 && |s| - i - 1 >= 3 && AllDigits(s[i + 1..])
  }

  /**
   * re.sub(r"_(\d{3,})$", "", s): a match can only start at the last underscore, since digits are
   * no underscores, so at most one such suffix goes.
   */
  function StripIndex(s: string): (r: string)
    ensures r <= s
    ensures HasIndexSuffix(s) ==> r == s[..LastIndexOf(s, '_')]
    ensures !HasIndexSuffix(s) ==> r == s
  {
    if HasIndexSuffix(s) then s[..LastIndexOf(s, '_')] else s
  }

  /** _stem_norm: the stem of the file name, without a trailing "_result", then without a trailing "_NNN". */
  function StemNorm(name: string): (r: string)
    ensures r <= Stem(NameOf(name))
  {
    StripIndex(StripResult(Stem(NameOf(name))))
  }

  /** A stem that neither normalisation step shortens. */
  predicate NormalStem(s: string)
  {
    !HasResultSuffix(s) && !HasIndexSuffix(s)
  }

  /** A plain file name is its own last path component. */
  lemma NameOfPlain(n: string)
    requires n != "" && n != "." && '/' !in n
    ensures NameOf(n) == n
  {
    SplitNoSep(n, '/');
    assert Kept([n]) == [n] + Kept([]);
  }

  /** A file name made of a normal stem and an extension normalises to that stem. */
  lemma StemNormPlainName(s: string, ext: string)
    requires s != [] && '/' !in s && NormalStem(s) && Extension(ext)
    ensures StemNorm(s + ext) == s
  {
    var n := s + ext;
    assert n[|n| - 1] == ext[|ext| - 1];
    assert '/' !in n by {
      forall k | 0 <= k < |n| ensures n[k] != '/' {
        if k >= |s| { assert n[k] == ext[k - |s|]; }
      }
    }
    NameOfPlain(n);
    SuffixOfStemExt(s, ext);
  }

  /** The digits of a padded index contain no underscore, so the index suffix starts at the added "_". */
  lemma IndexSuffixOf(s: string, d: string)
    requires |d| >= 3 && AllDigits(d)
    ensures HasIndexSuffix(s + "_" + d) && StripIndex(s + "_" + d) == s
  {
    var t := s + "_" + d;
    assert t[|s|] == '_';
    forall k | |s| < k < |t| ensures t[k] != '_' {
      assert t[k] == d[k - |s| - 1];
    }
    assert LastIndexOf(t, '_') == |s|;
    assert t[|s| + 1..] == d;
  }

  /** The stem of "{s}_{d}_result.json" is "{s}_{d}_result", whatever the digits d. */
  lemma OutputNameStem(s: string, d: string)
    requires s != [] && '/' !in s && AllDigits(d)
    ensures Stem(NameOf(s + "_" + d + "_result.json")) == s + "_" + d + "_result"
  {
    var stem := s + "_" + d + "_result";
    var n := stem + ".json";
    assert n == s + "_" + d + "_result.json";
    assert '/' !in n by {
      forall k | 0 <= k < |n| ensures n[k] != '/' {
        if k < |s| { assert n[k] == s[k]; }
        else if k == |s| { assert n[k] == '_'; }
        else if k < |s| + 1 + |d| { assert n[k] == d[k - |s| - 1]; assert IsDigit(d[k - |s| - 1]); }
        else { assert n[k] == "_result.json"[k - |s| - 1 - |d|]; }
      }
    }
    assert n[|n| - 1] == 'n';
    NameOfPlain(n);
    SuffixOfStemExt(stem, ".json");
  }

  /** One trailing "_result" goes. */
  lemma StripResultOf(t: string)
    ensures StripResult(t + "_result") == t
  {
    var u := t + "_result";
    assert u[|u| - 7..] == "_result";
    assert HasResultSuffix(u);
    assert u[..|u| - 7] == t;
  }

  /**
   * The OCR output file of the i-th image with stem s, "{s}_{i:03d}_result.json", normalises back to s,
   * the key of the source image "{s}{ext}".
   */
  lemma StemNormOutputName(s: string, i: nat)
    requires s != [] && '/' !in s && NormalStem(s)
    ensures StemNorm(s + "_" + Pad3(i) + "_result.json") == s
  {
    var d := Pad3(i);
    OutputNameStem(s, d);
    StripResultOf(s + "_" + d);
    IndexSuffixOf(s, d);
  }

  // ---- _guess_group_root_by_stage_dir ----

  /** The stage directory's parent: "done" picks final/, every other stage process/, and both sit in the group root. */
  function GuessGroupRoot(data: Path, gid: string, stage: string): (r: Path)
    ensures r == GroupRoot(data, gid)
  {
    var stageDir := if stage == "done" then FinalDir(data, gid) else ProcessDir(data, gid);
    Parent(stageDir)
  }

  // ---- _find_source_image ----

  /** The meta keys tried, in order, for a stored path of the source image. */
  const PathKeys: seq<string> := ["path", "disk_path", "abs_path"]

  /**
   * Step 1: each truthy meta path that names an existing regular file, in key order. Path() of a
   * value that is not a string raises TypeError; relative paths are taken from the working directory.
   */
  function MetaCandidates(meta: map<string, Json>, cwd: Path, files: map<Path, FileData>, keys: seq<string>): Result<seq<Path>, string>
  {
    if keys == [] then Ok([])
    else
      match MetaCandidates(meta, cwd, files, keys[..|keys| - 1])
      case Err(e) => Err(e)
      case Ok(acc) =>
        var v := Get(meta, keys[|keys| - 1]);
        if !Truthy(v) then Ok(acc)
        else if !v.JStr? then Err("TypeError")
        else
          var p := Resolve(cwd, v.s);
          Ok(if p in files then acc + [p] else acc)
  }

  /** `(meta.get("filename") or meta.get("original_name") or "").strip()`; strip() of a non-string raises. */
  function NameInMeta(meta: map<string, Json>): Result<string, string>
  {
    var v := Or(Get(meta, "filename"), Or(Get(meta, "original_name"), JStr("")));
    if v.JStr? then Ok(Strip(v.s)) else Err("AttributeError")
  }

  /** The group id used: the argument when truthy, else meta["group_uuid"]; a falsy one skips raw_data/. */
  function EffectiveGroup(meta: map<string, Json>, groupUuid: Option<string>): Result<Option<string>, string>
  {
    if groupUuid.Some? && groupUuid.value != "" then Ok(groupUuid)
    else
      var g := Get(meta, "group_uuid");
      if !Truthy(g) then Ok(None)
      else if g.JStr? then Ok(Some(g.s))
      else Err("TypeError")
  }

  /** a.casefold() == b.casefold(), compared character by character. */
  predicate SameFolded(a: string, b: string)
  {
    |a| == |b| && (a == [] || (LowerChar(a[0]) == LowerChar(b[0]) && SameFolded(a[1..], b[1..])))
  }

  lemma {:induction false} SameFoldedIff(a: string, b: string)
    ensures SameFolded(a, b) <==> Lower(a) == Lower(b)
  {
    if |a| == |b| && a != [] {
      SameFoldedIff(a[1..], b[1..]);
      assert Lower(a) == [LowerChar(a[0])] + Lower(a[1..]);
      assert Lower(b) == [LowerChar(b[0])] + Lower(b[1..]);
      if Lower(a) == Lower(b) {
        assert Lower(a)[1..] == Lower(a[1..]);
        assert Lower(b)[1..] == Lower(b[1..]);
      }
    }
  }

  /**
   * Step 2.2: the regular files listed in raw_data/ whose key matches base_stem, ignoring case, in listing
   * order; the source's key is _stem_norm (see RawCandidates).
   */
  function StemMatches(raw: Path, listing: seq<string>, files: map<Path, FileData>, key: string -> string, baseStem: string): seq<Path>
  {
    if listing == [] then []
    else
      var acc := StemMatches(raw, listing[..|listing| - 1], files, key, baseStem);
      var name := listing[|listing| - 1];
      var p := raw + [name];
      if p in files && SameFolded(key(name), baseStem) then acc + [p] else acc
  }

  /**
   * Step 2, for the group in effect: when its raw_data/ exists, the exact meta name when that path exists,
   * then the stem matches in listing order.
   */
  function RawCandidates(fs: map<Path, FileData>, dirs: set<Path>, data: Path, name: string, gid: string,
                         baseStem: string, listing: seq<string>): seq<Path>
  {
    var raw := GuessGroupRoot(data, gid, "progress") + ["raw_data"];
    if raw !in fs && raw !in dirs then []
    else
      var exact := Resolve(raw, name);
      var named := if name != "" && (exact in fs || exact in dirs) then [exact] else [];
      named + StemMatches(raw, listing, fs, StemNorm, baseStem)
  }

  /** All candidates in the order the source collects them: meta paths, then the raw_data/ ones. */
  function Candidates(fs: map<Path, FileData>, dirs: set<Path>, data: Path, cwd: Path, meta: map<string, Json>,
                      baseStem: string, groupUuid: Option<string>, listing: seq<string>): Result<seq<Path>, string>
  {
    match NameInMeta(meta)
    case Err(e) => Err(e)
    case Ok(name) =>
      match MetaCandidates(meta, cwd, fs, PathKeys)
      case Err(e) => Err(e)
      case Ok(first) =>
        match EffectiveGroup(meta, groupUuid)
        case Err(e) => Err(e)
        case Ok(g) =>
          if g.None? then Ok(first) else Ok(first + RawCandidates(fs, dirs, data, name, g.value, baseStem, listing))
  }

  /** The first candidate that is an existing regular file. */
  function FirstFile(cands: seq<Path>, files: map<Path, FileData>): (r: Option<Path>)
    ensures r.Some? ==> r.value in files && exists k :: 0 <= k < |cands| && cands[k] == r.value && forall j :: 0 <= j < k ==> cands[j] !in files
    ensures r.None? <==> forall k :: 0 <= k < |cands| ==> cands[k] !in files
  {
    if cands == [] then None
    else if cands[0] in files then
      assert cands[0] == cands[0];
      Some(cands[0])
    else
      var r := FirstFile(cands[1..], files);
      if r.Some? then
        var k :| 0 <= k < |cands[1..]| && cands[1..][k] == r.value && forall j :: 0 <= j < k ==> cands[1..][j] !in files;
        assert cands[k + 1] == r.value;
        r
      else r
  }

  /** Step 1 of _find_source_image: the loop over the three meta keys. */
  method CollectMetaPaths(fs: FileSystem, cwd: Path, meta: map<string, Json>) returns (r: Result<seq<Path>, string>)
    ensures r == MetaCandidates(meta, cwd, fs.files, PathKeys)
  {
    var candidates: seq<Path> := [];
    var i := 0;
    while i < |PathKeys|
      invariant 0 <= i <= |PathKeys|
      invariant MetaCandidates(meta, cwd, fs.files, PathKeys[..i]) == Ok(candidates)
    {
      assert PathKeys[..i + 1][..i] == PathKeys[..i];
      var v := Get(meta, PathKeys[i]);
      if Truthy(v) {
        if !v.JStr? {
          var upto := PathKeys[..i + 1];
          assert upto[..i] == PathKeys[..i] && upto[i] == PathKeys[i];
          assert MetaCandidates(meta, cwd, fs.files, upto).Err?;
          MetaErrSticks(meta, cwd, fs.files, PathKeys, i + 1);
          return Err("TypeError");
        }
        var p := Resolve(cwd, v.s);
        if p in fs.files {
          candidates := candidates + [p];
        }
      }
      i := i + 1;
    }
    assert PathKeys[..3] == PathKeys;
    return Ok(candidates);
  }

  /** Step 2.2 of _find_source_image: the loop over the raw_data/ listing, appending to the candidates so far. */
  method CollectStemMatches(fs: FileSystem, raw: Path, listing: seq<string>, key: string -> string, baseStem: string,
                            prefix: seq<Path>) returns (candidates: seq<Path>)
    ensures candidates == prefix + StemMatches(raw, listing, fs.files, key, baseStem)
  {
    candidates := prefix;
    var j := 0;
    while j < |listing|
      invariant 0 <= j <= |listing|
      invariant candidates == prefix + StemMatches(raw, listing[..j], fs.files, key, baseStem)
    {
      assert listing[..j + 1][..j] == listing[..j];
      var p := raw + [listing[j]];
      if p in fs.files && SameFolded(key(listing[j]), baseStem) {
        candidates := candidates + [p];
      }
      j := j + 1;
    }
    assert listing[..|listing|] == listing;
  }

  /** Step 3 of _find_source_image: the first candidate that is a regular file. */
  method PickFirstFile(fs: FileSystem, candidates: seq<Path>) returns (r: Option<Path>)
    ensures r == FirstFile(candidates, fs.files)
  {
    var k := 0;
    while k < |candidates|
      invariant 0 <= k <= |candidates|
      invariant FirstFile(candidates, fs.files) == FirstFile(candidates[k..], fs.files)
    {
      if candidates[k] in fs.files {
        return Some(candidates[k]);
      }
      assert candidates[k..][1..] == candidates[k + 1..];
      k := k + 1;
    }
    return None;
  }

  /** _find_source_image on a snapshot of the file system; `listing` is what raw_dir.glob("*") yields. */
  method FindSourceImage(fs: FileSystem, data: Path, cwd: Path, meta: map<string, Json>, baseStem: string,
                         groupUuid: Option<string>, listing: seq<string>) returns (r: Result<Option<Path>, string>)
    ensures r == match Candidates(fs.files, fs.dirs, data, cwd, meta, baseStem, groupUuid, listing)
                 case Err(e) => Err(e)
                 case Ok(cands) => Ok(FirstFile(cands, fs.files))
  {
    var nameR := NameInMeta(meta);
    if nameR.Err? {
      return Err(nameR.error);
    }
    var name := nameR.value;
    var first := CollectMetaPaths(fs, cwd, meta);
    if first.Err? {
      return Err(first.error);
    }
    var candidates := first.value;
    var g := EffectiveGroup(meta, groupUuid);
    if g.Err? {
      return Err(g.error);
    }
    if g.value.Some? {
      var more := CollectRawCandidates(fs, data, name, g.value.value, baseStem, listing);
      candidates := candidates + more;
    }
    assert Candidates(fs.files, fs.dirs, data, cwd, meta, baseStem, groupUuid, listing) == Ok(candidates);
    var picked := PickFirstFile(fs, candidates);
    return Ok(picked);
  }

  /** Step 2 of _find_source_image: the exact name, then the stem matches, when raw_data/ exists. */
  method CollectRawCandidates(fs: FileSystem, data: Path, name: string, gid: string, baseStem: string,
                              listing: seq<string>) returns (named: seq<Path>)
    ensures named == RawCandidates(fs.files, fs.dirs, data, name, gid, baseStem, listing)
  {
    var raw := GuessGroupRoot(data, gid, "progress") + ["raw_data"];
    named := [];
    if raw in fs.files || raw in fs.dirs {
      if name != "" {
        var p := Resolve(raw, name);
        if p in fs.files || p in fs.dirs {
          named := [p];
        }
      }
      named := CollectStemMatches(fs, raw, listing, StemNorm, baseStem, named);
    }
  }

  /** Once a meta path raises, the longer key lists raise too. */
  lemma {:induction false} MetaErrSticks(meta: map<string, Json>, cwd: Path, files: map<Path, FileData>, keys: seq<string>, n: nat)
    requires n <= |keys| && MetaCandidates(meta, cwd, files, keys[..n]).Err?
    ensures MetaCandidates(meta, cwd, files, keys) == MetaCandidates(meta, cwd, files, keys[..n])
    decreases |keys| - n
  {
    if n < |keys| {
      assert keys[..n + 1][..n] == keys[..n];
      MetaErrSticks(meta, cwd, files, keys, n + 1);
    } else {
      assert keys[..n] == keys;
    }
  }

  /** Without a truthy group argument the group stored in the meta is used, exactly as if it had been passed. */
  lemma GroupFallback(meta: map<string, Json>)
    requires "group_uuid" in meta && meta["group_uuid"].JStr? && meta["group_uuid"].s != ""
    ensures EffectiveGroup(meta, None) == EffectiveGroup(meta, Some("")) == Ok(Some(meta["group_uuid"].s))
    ensures EffectiveGroup(meta, Some(meta["group_uuid"].s)) == Ok(Some(meta["group_uuid"].s))
  {
  }

  /** The meta keys are tried in order: an existing file under "path" is the first candidate. */
  lemma MetaPathFirst(meta: map<string, Json>, cwd: Path, files: map<Path, FileData>)
    requires "path" in meta && meta["path"].JStr? && meta["path"].s != "" && Resolve(cwd, meta["path"].s) in files
    ensures MetaCandidates(meta, cwd, files, PathKeys).Ok? ==>
              MetaCandidates(meta, cwd, files, PathKeys).value != []
              && MetaCandidates(meta, cwd, files, PathKeys).value[0] == Resolve(cwd, meta["path"].s)
  {
    var p := Resolve(cwd, meta["path"].s);
    var one := PathKeys[..1];
    assert one == ["path"] && one[..0] == [];
    assert MetaCandidates(meta, cwd, files, one[..0]) == Ok([]);
    assert Get(meta, one[0]) == meta["path"] && Truthy(meta["path"]);
    assert MetaCandidates(meta, cwd, files, one) == Ok([] + [p]);
    MetaPrefixFirst(meta, cwd, files, PathKeys, 1, p);
  }

  /** Extending the key list only appends candidates. */
  lemma {:induction false} MetaPrefixFirst(meta: map<string, Json>, cwd: Path, files: map<Path, FileData>, keys: seq<string>, n: nat, p: Path)
    requires 1 <= n <= |keys| && MetaCandidates(meta, cwd, files, keys[..n]).Ok?
    requires MetaCandidates(meta, cwd, files, keys[..n]).value != [] && MetaCandidates(meta, cwd, files, keys[..n]).value[0] == p
    ensures MetaCandidates(meta, cwd, files, keys).Ok? ==>
              MetaCandidates(meta, cwd, files, keys).value != [] && MetaCandidates(meta, cwd, files, keys).value[0] == p
    decreases |keys| - n
  {
    if n < |keys| {
      assert keys[..n + 1][..n] == keys[..n];
      if MetaCandidates(meta, cwd, files, keys[..n + 1]).Ok? {
        MetaPrefixFirst(meta, cwd, files, keys, n + 1, p);
      } else {
        MetaErrSticks(meta, cwd, files, keys, n + 1);
      }
    } else {
      assert keys[..n] == keys;
    }
  }

  // ---- _write_text_atomic ----

  /** How the two steps of the write end: both succeed, writing the temporary file fails, or the rename fails. */
  datatype WriteOutcome = Completed | WriteFails | ReplaceFails

  /** path.with_suffix(path.suffix + ".tmp"): the sibling whose name is the file name plus ".tmp". */
  function TmpSibling(path: Path): (r: Path)
    requires path != []
    ensures r == Parent(path) + [path[|path| - 1] + ".tmp"]
  {
    var name := path[|path| - 1];
    StemSuffix(name);
    assert Stem(name) + (Suffix(name) + ".tmp") == name + ".tmp";
    Parent(path) + [WithSuffix(name, Suffix(name) + ".tmp")]
  }

  /**
   * _write_text_atomic: the parent directories are created; the text goes to the sibling temporary file,
   * which then replaces the target. The target holds exactly the text afterwards, or keeps its old contents.
   */
  method WriteTextAtomic(fs: FileSystem, path: Path, text: string, outcome: WriteOutcome) returns (ok: bool)
    modifies fs
    ensures ok <==> path != [] && outcome == Completed
    ensures fs.dirs == old(fs.dirs) + Prefixes(Parent(path))
    ensures ok ==> fs.files == (old(fs.files) - {TmpSibling(path)})[path := TextFile(text)]
    ensures !ok && path != [] && outcome == ReplaceFails ==> fs.files == old(fs.files)[TmpSibling(path) := TextFile(text)]
    ensures !ok && (path == [] || outcome == WriteFails) ==> fs.files == old(fs.files)
  {
    fs.dirs := fs.dirs + Prefixes(Parent(path));
    if path == [] {
      // with_suffix refuses a path with an empty name
      return false;
    }
    var tmp := TmpSibling(path);
    if outcome == WriteFails {
      return false;
    }
    fs.files := fs.files[tmp := TextFile(text)];
    if outcome == ReplaceFails {
      return false;
    }
    fs.files := (fs.files - {tmp})[path := TextFile(text)];
    ok := true;
  }

  /** The temporary file is a sibling distinct from the target, so a completed write leaves the target and no temporary. */
  lemma TmpSiblingDistinct(path: Path)
    requires path != []
    ensures TmpSibling(path) != path && |TmpSibling(path)| == |path|
    ensures TmpSibling(path)[..|path| - 1] == path[..|path| - 1]
  {
    var name := path[|path| - 1];
    assert |TmpSibling(path)[|path| - 1]| == |name| + 4;
  }
}
