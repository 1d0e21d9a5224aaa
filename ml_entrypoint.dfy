// The OCR container's entry point (ml/entrypoint.py): finding a group's scans, naming each scan's
// result file, and telling the backend after each scan with a retried callback.
module MlEntrypoint {
  import opened Wrappers
  import opened Text
  import opened Paths
  import opened JsonValues
  import opened Common
  import opened Backoff
  import opened GroupsUtils

  // ---- find_image_files ----

  const LowerImageExtensions: seq<string> := [".jpg", ".jpeg", ".png", ".bmp", ".tiff", ".tif"]

  /** ASCII upper-casing: what str.upper() does on the extensions. */
  function UpperChar(c: char): (r: char)
    ensures 'a' <= c <= 'z' ==> r as int == c as int - 32
    ensures !('a' <= c <= 'z') ==> r == c
  {
    if 'a' <= c <= 'z' then (c as int - 32) as char else c
  }

  function Upper(s: string): (r: string)
    ensures |r| == |s| && forall i :: 0 <= i < |s| ==> r[i] == UpperChar(s[i])
  {
    if s == [] then [] else [UpperChar(s[0])] + Upper(s[1..])
  }

  /** The glob patterns, in the order searched: the extensions as listed, then upper-cased. */
  function ImagePatterns(): (r: seq<string>)
    ensures |r| == 12
    ensures forall k :: 0 <= k < 6 ==> r[k] == LowerImageExtensions[k] && r[k + 6] == Upper(LowerImageExtensions[k])
  {
    LowerImageExtensions + seq(6, k requires 0 <= k < 6 => Upper(LowerImageExtensions[k]))
  }

  /** The last component of a path. */
  function Name(p: Path): string { if p == [] then "" else p[|p| - 1] }

  predicate MatchesAny(name: string, pats: seq<string>)
  {
    exists k :: 0 <= k < |pats| && EndsWith(name, pats[k])
  }

  /** rglob("*" + pat) over the entries of a walk: the matching paths, in walk order. */
  function Glob(walk: seq<Path>, pat: string): (r: seq<Path>)
    ensures forall p :: p in r <==> p in walk && EndsWith(Name(p), pat)
  {
    if walk == [] then []
    else
      var last := walk[|walk| - 1];
      assert forall p :: p in walk <==> p in walk[..|walk| - 1] || p == last by {
        assert walk == walk[..|walk| - 1] + [last];
      }
      Glob(walk[..|walk| - 1], pat) + (if EndsWith(Name(last), pat) then [last] else [])
  }

  /** The globs of every pattern, concatenated in pattern order. */
  function GlobAll(walk: seq<Path>, pats: seq<string>): (r: seq<Path>)
    ensures forall p :: p in r <==> p in walk && MatchesAny(Name(p), pats)
  {
    if pats == [] then []
    else
      var init := pats[..|pats| - 1];
      assert forall name :: MatchesAny(name, pats) <==> MatchesAny(name, init) || EndsWith(name, pats[|pats| - 1]) by {
        forall name ensures MatchesAny(name, pats) <==> MatchesAny(name, init) || EndsWith(name, pats[|pats| - 1]) {
          if MatchesAny(name, pats) {
            var k :| 0 <= k < |pats| && EndsWith(name, pats[k]);
            if k < |init| { assert init[k] == pats[k]; }
          }
          if MatchesAny(name, init) {
            var k :| 0 <= k < |init| && EndsWith(name, init[k]);
            assert pats[k] == init[k];
          }
        }
      }
      GlobAll(walk, init) + Glob(walk, pats[|pats| - 1])
  }

  /** map(str, paths) */
  function Renders(ps: seq<Path>): (r: seq<string>)
    ensures |r| == |ps| && forall i :: 0 <= i < |ps| ==> r[i] == Render(ps[i])
  {
    seq(|ps|, i requires 0 <= i < |ps| => Render(ps[i]))
  }

  /** The entries below source that a recursive glob can see, each listed once, with clean components. */
  ghost predicate IsWalkOf(walk: seq<Path>, files: map<Path, FileData>, dirs: set<Path>, source: Path)
  {
    && (forall p :: p in walk <==> (p in files || p in dirs) && IsPrefixPath(source, p) && |p| > |source|)
    && Distinct(walk)
    && (forall p :: p in walk ==> Clean(p))
  }

  /** A path is found exactly when it lies strictly below the source and its name ends in a pattern. */
  lemma FoundImages(walk: seq<Path>, files: map<Path, FileData>, dirs: set<Path>, source: Path)
    requires IsWalkOf(walk, files, dirs, source)
    ensures forall p :: p in GlobAll(walk, ImagePatterns()) <==>
                          (p in files || p in dirs) && IsPrefixPath(source, p) && |p| > |source| && MatchesAny(Name(p), ImagePatterns())
  {
  }

  /** Upper-casing keeps an extension an extension. */
  lemma UpperExtension(e: string)
    requires Extension(e)
    ensures Extension(Upper(e))
  {
    var u := Upper(e);
    forall i | 0 <= i < |u| - 1 ensures u[1..][i] != '.' && u[1..][i] != '/' {
      assert u[1..][i] == UpperChar(e[i + 1]) && e[1..][i] == e[i + 1];
    }
  }

  /** The lower-case extensions: each an extension starting with a small letter, told apart by length or that letter. */
  lemma LowerExtensions()
    ensures forall k :: 0 <= k < 6 ==> Extension(LowerImageExtensions[k]) && 'a' <= LowerImageExtensions[k][1] <= 'z'
    ensures forall i, j :: 0 <= i < j < 6 ==>
              LowerImageExtensions[i][1] != LowerImageExtensions[j][1] || |LowerImageExtensions[i]| != |LowerImageExtensions[j]|
  {
    assert Extension(".jpg") && Extension(".jpeg") && Extension(".png");
    assert Extension(".bmp") && Extension(".tiff") && Extension(".tif");
  }

  /** Every pattern is an extension, and no two patterns are equal. */
  lemma PatternsAreExtensions()
    ensures forall k :: 0 <= k < |ImagePatterns()| ==> Extension(ImagePatterns()[k])
    ensures Distinct(ImagePatterns())
  {
    var pats, lows := ImagePatterns(), LowerImageExtensions;
    LowerExtensions();
    forall k | 0 <= k < 12 ensures Extension(pats[k]) {
      if k >= 6 { UpperExtension(lows[k - 6]); }
    }
    forall i, j | 0 <= i < j < 12 ensures pats[i] != pats[j] {
      if i < 6 && 6 <= j {
        assert pats[i][1] == lows[i][1] && pats[j][1] == UpperChar(lows[j - 6][1]);
      } else if 6 <= i {
        assert |pats[i]| == |lows[i - 6]| && pats[i][1] == UpperChar(lows[i - 6][1]);
        assert |pats[j]| == |lows[j - 6]| && pats[j][1] == UpperChar(lows[j - 6][1]);
      }
    }
  }

  /** A name ends in at most one extension: two that both end it are equal. */
  lemma OneExtensionPerName(name: string, a: string, b: string)
    requires Extension(a) && Extension(b) && EndsWith(name, a) && EndsWith(name, b) && |a| <= |b|
    ensures a == b
  {
    assert a == b[|b| - |a|..] by { assert b[|b| - |a|..] == name[|name| - |a|..]; }
  }

  /** A name that ends in one extension does not end in another. */
  lemma OtherExtensionMisses(name: string, a: string, b: string)
    requires Extension(a) && Extension(b) && a != b && EndsWith(name, a)
    ensures !EndsWith(name, b)
  {
    if EndsWith(name, b) {
      if |a| <= |b| { OneExtensionPerName(name, a, b); } else { OneExtensionPerName(name, b, a); }
    }
  }

  /** One pattern's glob over a walk without repeats has no repeats. */
  lemma {:induction false} GlobDistinct(walk: seq<Path>, pat: string)
    requires Distinct(walk)
    ensures Distinct(Glob(walk, pat))
  {
    if walk != [] {
      var init, last := walk[..|walk| - 1], walk[|walk| - 1];
      assert Distinct(init) by {
        forall i, j | 0 <= i < j < |init| ensures init[i] != init[j] { assert init[i] == walk[i] && init[j] == walk[j]; }
      }
      GlobDistinct(init, pat);
      assert last !in init by {
        forall i | 0 <= i < |init| ensures init[i] != last { assert init[i] == walk[i]; }
      }
    }
  }

  /** With distinct extensions as patterns, the globs of different patterns never meet. */
  lemma {:induction false} GlobAllDistinct(walk: seq<Path>, pats: seq<string>)
    requires Distinct(walk) && Distinct(pats) && forall k :: 0 <= k < |pats| ==> Extension(pats[k])
    ensures Distinct(GlobAll(walk, pats))
  {
    if pats != [] {
      var init, last := pats[..|pats| - 1], pats[|pats| - 1];
      assert Distinct(init) by {
        forall i, j | 0 <= i < j < |init| ensures init[i] != init[j] { assert init[i] == pats[i] && init[j] == pats[j]; }
      }
      GlobAllDistinct(walk, init);
      GlobDistinct(walk, last);
      var front, back := GlobAll(walk, init), Glob(walk, last);
      forall p | p in front ensures p !in back {
        var k :| 0 <= k < |init| && EndsWith(Name(p), init[k]);
        assert init[k] == pats[k];
        OtherExtensionMisses(Name(p), init[k], last);
      }
      DistinctAppend(front, back);
    }
  }

  /** str() of different clean paths below the root are different strings. */
  lemma RendersDistinct(ps: seq<Path>)
    requires Distinct(ps) && forall p :: p in ps ==> Clean(p) && p != []
    ensures Distinct(Renders(ps))
  {
    forall i, j | 0 <= i < j < |ps| ensures Render(ps[i]) != Render(ps[j]) {
      if Render(ps[i]) == Render(ps[j]) { ConcatInjective(ps[i], ps[j]); }
    }
  }

  /**
   * sorted(map(str, files)) keeps repeated strings, which sorted(set(...)) would drop. A walk lists each
   * clean path once and a name ends in at most one of the twelve patterns, so there is nothing to drop:
   * the sorted set is a permutation of the rendered matches.
   */
  lemma FoundUnrepeated(walk: seq<Path>, files: map<Path, FileData>, dirs: set<Path>, source: Path)
    requires IsWalkOf(walk, files, dirs, source)
    ensures Distinct(Renders(GlobAll(walk, ImagePatterns())))
    ensures multiset(SortedUnique(Renders(GlobAll(walk, ImagePatterns())))) == multiset(Renders(GlobAll(walk, ImagePatterns())))
  {
    PatternsAreExtensions();
    GlobAllDistinct(walk, ImagePatterns());
    RendersDistinct(GlobAll(walk, ImagePatterns()));
    SortedUniqueKeepsAll(Renders(GlobAll(walk, ImagePatterns())));
  }

  /**
   * find_image_files: a missing source raises FileNotFoundError; otherwise the paths below it whose
   * name ends in one of the patterns, as sorted strings. On a walk of the file system the matches have
   * no repeats, so sorting their set is sorting them.
   */
  method FindImageFiles(fs: FileSystem, source: Path, walk: seq<Path>) returns (r: Result<seq<string>, string>)
    ensures r.Err? <==> !fs.Exists(source)
    ensures r.Err? ==> r.error == "FileNotFoundError"
    ensures r.Ok? ==> r.value == SortedUnique(Renders(GlobAll(walk, ImagePatterns())))
    ensures r.Ok? ==> StrictlySorted(r.value) && forall s :: s in r.value <==> s in Renders(GlobAll(walk, ImagePatterns()))
    ensures r.Ok? && IsWalkOf(walk, fs.files, fs.dirs, source) ==> multiset(r.value) == multiset(Renders(GlobAll(walk, ImagePatterns())))
  {
    if !fs.Exists(source) {
      return Err("FileNotFoundError");
    }
    var pats := ImagePatterns();
    var found: seq<Path> := [];
    for e := 0 to |pats|
      invariant found == GlobAll(walk, pats[..e])
    {
      var matched := GlobOne(walk, pats[e]);
      assert pats[..e + 1][..e] == pats[..e];
      found := found + matched;
    }
    assert pats[..|pats|] == pats;
    var strs := Renders(found);
    r := Ok(SortedUnique(strs));
    assert forall s :: s in r.value <==> s in Elems(strs);
    if IsWalkOf(walk, fs.files, fs.dirs, source) {
      FoundUnrepeated(walk, fs.files, fs.dirs, source);
    }
  }

  /** Path(source).rglob(pattern) for one pattern: the walked paths whose name ends in it, in walk order. */
  method GlobOne(walk: seq<Path>, pat: string) returns (matched: seq<Path>)
    ensures matched == Glob(walk, pat)
  {
    matched := [];
    for j := 0 to |walk|
      invariant matched == Glob(walk[..j], pat)
    {
      assert walk[..j + 1][..j] == walk[..j];
      if EndsWith(Name(walk[j]), pat) {
        matched := matched + [walk[j]];
      }
    }
    assert walk[..|walk|] == walk;
  }

  // ---- _post_callback ----

  const CallbackAttempts: nat := 5

  /** The JSON body of the callback: the group, the original file name and the fixed status. */
  datatype CallbackPost = CallbackPost(url: string, groupUuid: Option<string>, filename: string, status: string)

  /** `if not callback_url: return`: an absent or empty URL disables the callback. */
  predicate CallbackGiven(url: Option<string>) { url.Some? && url.value != "" }

  /**
   * What _post_callback does, ok(k) telling whether the k-th POST gets a non-error response: the POSTs
   * it sends and the delays it sleeps. It stops at the first success, sleeps after every failure
   * (the fifth included), and never raises.
   */
  function CallbackRun(url: Option<string>, gid: Option<string>, filename: string, ok: nat -> bool): (r: (seq<CallbackPost>, seq<nat>))
    ensures !CallbackGiven(url) ==> r == ([], [])
    ensures CallbackGiven(url) ==> forall k :: 0 <= k < |r.0| ==> r.0[k] == CallbackPost(url.value, gid, filename, "upgrading")
    ensures CallbackGiven(url) && FirstOk(ok, CallbackAttempts).Some? ==>
              |r.0| == FirstOk(ok, CallbackAttempts).value + 1 && ok(|r.0| - 1) && r.1 == Schedule(|r.0| - 1)
    ensures CallbackGiven(url) && FirstOk(ok, CallbackAttempts).None? ==>
              |r.0| == CallbackAttempts && r.1 == Schedule(CallbackAttempts)
    ensures |r.0| <= CallbackAttempts && |r.1| <= CallbackAttempts
  {
    if !CallbackGiven(url) then ([], [])
    else
      var post := CallbackPost(url.value, gid, filename, "upgrading");
      match FirstOk(ok, CallbackAttempts)
      case Some(i) => (seq(i + 1, _ => post), Schedule(i))
      case None => (seq(CallbackAttempts, _ => post), Schedule(CallbackAttempts))
  }

  method PostCallback(url: Option<string>, gid: Option<string>, filename: string, ok: nat -> bool)
    returns (sent: seq<CallbackPost>, sleeps: seq<nat>)
    ensures (sent, sleeps) == CallbackRun(url, gid, filename, ok)
  {
    sent := [];
    sleeps := [];
    if !CallbackGiven(url) {
      return;
    }
    var post := CallbackPost(url.value, gid, filename, "upgrading");
    var backoff := InitialDelayMs;
    var attempt := 0;
    while attempt < CallbackAttempts
      invariant 0 <= attempt <= CallbackAttempts
      invariant sent == seq(attempt, _ => post)
      invariant forall j :: 0 <= j < attempt ==> !ok(j)
      invariant sleeps == Schedule(attempt) && backoff == Delay(attempt)
    {
      assert seq(attempt, _ => post) + [post] == seq(attempt + 1, _ => post);
      sent := sent + [post];
      if ok(attempt) {
        assert FirstOk(ok, CallbackAttempts) == Some(attempt);
        return;
      }
      sleeps := sleeps + [backoff];
      backoff := NextDelay(backoff);
      attempt := attempt + 1;
    }
  }

  /** However the POSTs go, one callback sleeps at most 15.5 s in all. */
  lemma CallbackSleepBound(url: Option<string>, gid: Option<string>, filename: string, ok: nat -> bool)
    ensures Sum(CallbackRun(url, gid, filename, ok).1) <= 15500
  {
    var r := CallbackRun(url, gid, filename, ok);
    if CallbackGiven(url) {
      ScheduleSumBound(|r.1|);
    }
  }

  // ---- start_image_processing ----

  /** f"{Path(image).stem}_{i:03d}": the scan id of the i-th image found. */
  function ScanId(image: string, i: nat): string
  {
    Stem(NameOf(image)) + "_" + Pad3(i)
  }

  /** save_result_to_destination's file: `{scan_id}_result.json` in the destination. */
  function ResultPath(dst: Path, scanId: string): Path
  {
    dst + [scanId + "_result.json"]
  }

  /** Two images get the same scan id only when they are the same position of the list. */
  lemma ScanIdInjective(a: string, i: nat, b: string, j: nat)
    requires ScanId(a, i) == ScanId(b, j)
    ensures i == j
  {
    var pi, pj := Pad3(i), Pad3(j);
    assert '_' !in pi && '_' !in pj;
    TailAfterSeparator(Stem(NameOf(a)), pi, Stem(NameOf(b)), pj, '_');
    Pad3Injective(i, j);
  }

  /**
   * How save_result_to_destination ends: the result is written; open raises (mkdir already done) and no
   * file changes; or json.dump or fsync raises after open(out, 'w') truncated the file, which is left
   * holding the text written so far.
   */
  datatype SaveOutcome = SaveDone | OpenFails | DumpFails(partial: string)

  /** The outcomes the loop cannot compute: the OCR result of each image (None when process_scan raises),
   *  how writing it ends, and whether the k-th callback POST for it succeeds. */
  datatype ImageOracles = ImageOracles(process: nat -> Option<Json>, save: nat -> SaveOutcome, postOk: nat -> nat -> bool)

  /** The state the loop builds: the files and directories, and the callbacks sent and delays slept. */
  datatype ImageRun = ImageRun(files: map<Path, FileData>, dirs: set<Path>, posts: seq<CallbackPost>, sleeps: seq<nat>)

  /** The i-th image's result reaches the destination: there is one, the destination was given, the write worked. */
  predicate Saved(dst: Option<Path>, o: ImageOracles, i: nat)
  {
    dst.Some? && o.process(i).Some? && o.save(i) == SaveDone
  }

  /** The i-th image's result file is opened for writing: there is a result, the destination was given, open worked. */
  predicate Opened(dst: Option<Path>, o: ImageOracles, i: nat)
  {
    dst.Some? && o.process(i).Some? && !o.save(i).OpenFails?
  }

  /** What an opened result file holds afterwards: the result as JSON, or the truncated text a failed dump left. */
  function ResultFile(o: ImageOracles, i: nat): FileData
    requires o.process(i).Some?
  {
    if o.save(i).DumpFails? then TextFile(o.save(i).partial) else JsonFile(o.process(i).value)
  }

  /**
   * One pass of the loop body for image i: process, then mkdir and write the result, then the callback.
   * An exception at any step skips the rest of the body for that image only.
   */
  function ImageStep(run: ImageRun, images: seq<string>, i: nat, dst: Option<Path>, url: Option<string>,
                     gid: Option<string>, o: ImageOracles): ImageRun
    requires i < |images|
  {
    if dst.None? || o.process(i).None? then run
    else
      var dirs := run.dirs + Prefixes(dst.value);
      var out := ResultPath(dst.value, ScanId(images[i], i));
      match o.save(i)
      case OpenFails => ImageRun(run.files, dirs, run.posts, run.sleeps)
      case DumpFails(partial) => ImageRun(run.files[out := TextFile(partial)], dirs, run.posts, run.sleeps)
      case SaveDone =>
        var cb := CallbackRun(url, gid, NameOf(images[i]), o.postOk(i));
        ImageRun(run.files[out := JsonFile(o.process(i).value)], dirs, run.posts + cb.0, run.sleeps + cb.1)
  }

  /** The loop over the first n images. */
  function ImagesRun(run: ImageRun, images: seq<string>, n: nat, dst: Option<Path>, url: Option<string>,
                     gid: Option<string>, o: ImageOracles): ImageRun
    requires n <= |images|
  {
    if n == 0 then run else ImageStep(ImagesRun(run, images, n - 1, dst, url, gid, o), images, n - 1, dst, url, gid, o)
  }

  /** p is not the result path of any image whose result file was opened among the first n. */
  predicate NoResultAt(p: Path, images: seq<string>, n: nat, dst: Option<Path>, o: ImageOracles)
    requires n <= |images|
  {
    forall i :: 0 <= i < n && Opened(dst, o, i) ==> p != ResultPath(dst.value, ScanId(images[i], i))
  }

  /**
   * One pass writes the image's result file when it opens it, whole or truncated by a failed dump, and
   * no other file.
   */
  lemma ImageStepFiles(run: ImageRun, images: seq<string>, i: nat, dst: Option<Path>, url: Option<string>,
                       gid: Option<string>, o: ImageOracles)
    requires i < |images|
    ensures ImageStep(run, images, i, dst, url, gid, o).files ==
              if Opened(dst, o, i) then run.files[ResultPath(dst.value, ScanId(images[i], i)) := ResultFile(o, i)]
              else run.files
  {
  }

  /** One pass sends the image's callbacks when its result is saved, and none otherwise. */
  lemma ImageStepPosts(run: ImageRun, images: seq<string>, i: nat, dst: Option<Path>, url: Option<string>,
                       gid: Option<string>, o: ImageOracles)
    requires i < |images|
    ensures ImageStep(run, images, i, dst, url, gid, o).posts ==
              if Saved(dst, o, i) then run.posts + CallbackRun(url, gid, NameOf(images[i]), o.postOk(i)).0 else run.posts
  {
  }

  /** Distinct saved images write distinct result paths. */
  lemma DistinctResultPaths(images: seq<string>, i: nat, k: nat, dst: Path)
    requires i < k < |images|
    ensures ResultPath(dst, ScanId(images[i], i)) != ResultPath(dst, ScanId(images[k], k))
  {
    if ResultPath(dst, ScanId(images[i], i)) == ResultPath(dst, ScanId(images[k], k)) {
      assert ResultPath(dst, ScanId(images[i], i))[|dst|] == ScanId(images[i], i) + "_result.json";
      assert ScanId(images[i], i) + "_result.json" == ScanId(images[k], k) + "_result.json";
      assert ScanId(images[i], i) == (ScanId(images[i], i) + "_result.json")[..|ScanId(images[i], i)|];
      ScanIdInjective(images[i], i, images[k], k);
    }
  }

  /** The files after n passes: those after n - 1, with image n - 1's result file when it was opened. */
  lemma ImagesRunFiles(run: ImageRun, images: seq<string>, n: nat, dst: Option<Path>, url: Option<string>,
                       gid: Option<string>, o: ImageOracles)
    requires 0 < n <= |images|
    ensures var prev := ImagesRun(run, images, n - 1, dst, url, gid, o).files;
            ImagesRun(run, images, n, dst, url, gid, o).files ==
              if Opened(dst, o, n - 1) then prev[ResultPath(dst.value, ScanId(images[n - 1], n - 1)) := ResultFile(o, n - 1)]
              else prev
  {
    ImageStepFiles(ImagesRun(run, images, n - 1, dst, url, gid, o), images, n - 1, dst, url, gid, o);
  }

  /** Where the loop writes each image's result file: out(k) is image k's result path. */
  function OutPaths(images: seq<string>, dst: Option<Path>): nat -> Path
  {
    (k: nat) => if k < |images| && dst.Some? then ResultPath(dst.value, ScanId(images[k], k)) else []
  }

  /** The files the loop leaves after n images: each opened result file written at out(k), in image order. */
  function FilesRun(files: map<Path, FileData>, out: nat -> Path, n: nat, dst: Option<Path>, o: ImageOracles): map<Path, FileData>
  {
    if n == 0 then files
    else
      var prev := FilesRun(files, out, n - 1, dst, o);
      if Opened(dst, o, n - 1) then prev[out(n - 1) := ResultFile(o, n - 1)] else prev
  }

  /** The loop's files are those of FilesRun: callbacks and directories do not touch them. */
  lemma {:induction false} ImagesRunFilesAre(run: ImageRun, images: seq<string>, n: nat, dst: Option<Path>, url: Option<string>,
                                             gid: Option<string>, o: ImageOracles)
    requires n <= |images|
    ensures ImagesRun(run, images, n, dst, url, gid, o).files == FilesRun(run.files, OutPaths(images, dst), n, dst, o)
  {
    if n > 0 {
      ImagesRunFilesAre(run, images, n - 1, dst, url, gid, o);
      ImagesRunFiles(run, images, n, dst, url, gid, o);
    }
  }

  /**
   * Every image whose result file was opened leaves it at its own result path after the loop, whatever
   * happened to the others: the result when it was saved, the truncated text when the dump failed.
   */
  lemma ImagesRunSaved(run: ImageRun, images: seq<string>, n: nat, dst: Option<Path>, url: Option<string>,
                       gid: Option<string>, o: ImageOracles, i: nat)
    requires i < n <= |images| && Opened(dst, o, i)
    ensures var files := ImagesRun(run, images, n, dst, url, gid, o).files;
            ResultPath(dst.value, ScanId(images[i], i)) in files &&
            files[ResultPath(dst.value, ScanId(images[i], i))] == ResultFile(o, i)
  {
    var out := OutPaths(images, dst);
    ImagesRunFilesAre(run, images, n, dst, url, gid, o);
    forall k | i < k < n
      ensures out(k) != out(i)
    {
      DistinctResultPaths(images, i, k, dst.value);
    }
    FilesRunSaved(run.files, out, n, dst, o, i);
  }

  /** The file opened for image i survives the later images, which write elsewhere. */
  lemma {:induction false} FilesRunSaved(files: map<Path, FileData>, out: nat -> Path, n: nat, dst: Option<Path>,
                                         o: ImageOracles, i: nat)
    requires i < n && Opened(dst, o, i)
    requires forall k :: i < k < n ==> out(k) != out(i)
    ensures var fs := FilesRun(files, out, n, dst, o);
            out(i) in fs && fs[out(i)] == ResultFile(o, i)
  {
    if i < n - 1 {
      FilesRunSaved(files, out, n - 1, dst, o, i);
    }
  }

  /** A path that is no opened result file's path keeps its old contents through the loop. */
  lemma ImagesRunOthers(run: ImageRun, images: seq<string>, n: nat, dst: Option<Path>, url: Option<string>,
                        gid: Option<string>, o: ImageOracles, p: Path)
    requires n <= |images| && NoResultAt(p, images, n, dst, o)
    ensures var files := ImagesRun(run, images, n, dst, url, gid, o).files;
            (p in files <==> p in run.files) && (p in run.files ==> files[p] == run.files[p])
  {
    var out := OutPaths(images, dst);
    ImagesRunFilesAre(run, images, n, dst, url, gid, o);
    forall k | 0 <= k < n && Opened(dst, o, k)
      ensures p != out(k)
    {
    }
    FilesRunOthers(run.files, out, n, dst, o, p);
  }

  lemma {:induction false} FilesRunOthers(files: map<Path, FileData>, out: nat -> Path, n: nat, dst: Option<Path>,
                                          o: ImageOracles, p: Path)
    requires forall k :: 0 <= k < n && Opened(dst, o, k) ==> p != out(k)
    ensures var fs := FilesRun(files, out, n, dst, o);
            (p in fs <==> p in files) && (p in files ==> fs[p] == files[p])
  {
    if n > 0 {
      FilesRunOthers(files, out, n - 1, dst, o, p);
    }
  }

  /** A callback announcing, as "upgrading", one of the first n images whose result was saved. */
  predicate Announces(post: CallbackPost, images: seq<string>, n: nat, dst: Option<Path>, gid: Option<string>, o: ImageOracles)
    requires n <= |images|
  {
    post.status == "upgrading" && post.groupUuid == gid &&
    exists i :: 0 <= i < n && Saved(dst, o, i) && post.filename == NameOf(images[i])
  }

  /** The loop only appends callbacks, at most five per image. */
  lemma {:induction false} ImagesRunPostCount(run: ImageRun, images: seq<string>, n: nat, dst: Option<Path>, url: Option<string>,
                                              gid: Option<string>, o: ImageOracles)
    requires n <= |images|
    ensures var r := ImagesRun(run, images, n, dst, url, gid, o);
            run.posts <= r.posts && |r.posts| <= |run.posts| + CallbackAttempts * n
  {
    if n > 0 {
      ImagesRunPostCount(run, images, n - 1, dst, url, gid, o);
      var prev := ImagesRun(run, images, n - 1, dst, url, gid, o);
      assert ImagesRun(run, images, n, dst, url, gid, o) == ImageStep(prev, images, n - 1, dst, url, gid, o);
      ImageStepPosts(prev, images, n - 1, dst, url, gid, o);
    }
  }

  /** Callbacks follow saved results only: every callback the loop sends announces a saved image. */
  lemma {:induction false} ImagesRunPostsAnnounce(run: ImageRun, images: seq<string>, n: nat, dst: Option<Path>, url: Option<string>,
                                                  gid: Option<string>, o: ImageOracles)
    requires n <= |images|
    ensures var r := ImagesRun(run, images, n, dst, url, gid, o);
            |run.posts| <= |r.posts| && forall k :: |run.posts| <= k < |r.posts| ==> Announces(r.posts[k], images, n, dst, gid, o)
  {
    if n > 0 {
      ImagesRunPostsAnnounce(run, images, n - 1, dst, url, gid, o);
      var prev := ImagesRun(run, images, n - 1, dst, url, gid, o);
      assert ImagesRun(run, images, n, dst, url, gid, o) == ImageStep(prev, images, n - 1, dst, url, gid, o);
      ImageStepPosts(prev, images, n - 1, dst, url, gid, o);
      AnnouncesStep(images, n, dst, url, gid, o, |run.posts|, prev.posts, ImagesRun(run, images, n, dst, url, gid, o).posts);
    }
  }

  /** One more image keeps the earlier announcements and adds its own only after its result was saved. */
  lemma AnnouncesStep(images: seq<string>, n: nat, dst: Option<Path>, url: Option<string>, gid: Option<string>,
                      o: ImageOracles, from: nat, prev: seq<CallbackPost>, posts: seq<CallbackPost>)
    requires 0 < n <= |images| && from <= |prev|
    requires forall k :: from <= k < |prev| ==> Announces(prev[k], images, n - 1, dst, gid, o)
    requires posts == if Saved(dst, o, n - 1) then prev + CallbackRun(url, gid, NameOf(images[n - 1]), o.postOk(n - 1)).0 else prev
    ensures from <= |posts| && forall k :: from <= k < |posts| ==> Announces(posts[k], images, n, dst, gid, o)
  {
    forall k | from <= k < |posts|
      ensures Announces(posts[k], images, n, dst, gid, o)
    {
      if k < |prev| {
        assert posts[k] == prev[k];
        var i :| 0 <= i < n - 1 && Saved(dst, o, i) && prev[k].filename == NameOf(images[i]);
      } else {
        var cb := CallbackRun(url, gid, NameOf(images[n - 1]), o.postOk(n - 1));
        assert posts[k] == cb.0[k - |prev|];
      }
    }
  }

  /**
   * start_image_processing: the images are found, then each is processed, saved and announced in turn,
   * a failure on one image being caught so that the next is still processed. When the source is missing
   * find_image_files raises and the worker stops before doing anything.
   */
  method StartImageProcessing(fs: FileSystem, source: Path, dst: Option<Path>, url: Option<string>,
                              walk: seq<Path>, o: ImageOracles)
    returns (images: seq<string>, posts: seq<CallbackPost>, sleeps: seq<nat>)
    modifies fs
    ensures !old(fs.Exists(source)) ==> images == [] && posts == [] && sleeps == [] && fs.files == old(fs.files) && fs.dirs == old(fs.dirs)
    ensures old(fs.Exists(source)) ==> images == SortedUnique(Renders(GlobAll(walk, ImagePatterns())))
    ensures var r := ImagesRun(ImageRun(old(fs.files), old(fs.dirs), [], []), images, |images|, dst, url, GroupFromPath(source), o);
            fs.files == r.files && fs.dirs == r.dirs && posts == r.posts && sleeps == r.sleeps
  {
    var found := FindImageFiles(fs, source, walk);
    images, posts, sleeps := [], [], [];
    if found.Err? {
      return;
    }
    images := found.value;
    if images == [] {
      return;
    }
    posts, sleeps := ProcessImages(fs, images, dst, url, GroupFromPath(source), o);
  }

  /** The `for i, image_path in enumerate(image_files)` loop of start_image_processing. */
  method ProcessImages(fs: FileSystem, images: seq<string>, dst: Option<Path>, url: Option<string>, gid: Option<string>, o: ImageOracles)
    returns (posts: seq<CallbackPost>, sleeps: seq<nat>)
    modifies fs
    ensures var r := ImagesRun(ImageRun(old(fs.files), old(fs.dirs), [], []), images, |images|, dst, url, gid, o);
            fs.files == r.files && fs.dirs == r.dirs && posts == r.posts && sleeps == r.sleeps
  {
    posts, sleeps := [], [];
    ghost var start := ImageRun(fs.files, fs.dirs, [], []);
    var i := 0;
    while i < |images|
      invariant 0 <= i <= |images|
      invariant ImagesRun(start, images, i, dst, url, gid, o) == ImageRun(fs.files, fs.dirs, posts, sleeps)
    {
      ghost var before := ImageRun(fs.files, fs.dirs, posts, sleeps);
      var files, dirs := fs.files, fs.dirs;
      var result := o.process(i);
      if dst.Some? && result.Some? {
        dirs := dirs + Prefixes(dst.value);
        var out := ResultPath(dst.value, ScanId(images[i], i));
        match o.save(i)
        case OpenFails =>
        case DumpFails(partial) =>
          files := files[out := TextFile(partial)];
        case SaveDone =>
          files := files[out := JsonFile(result.value)];
          var sent, slept := PostCallback(url, gid, NameOf(images[i]), o.postOk(i));
          posts := posts + sent;
          sleeps := sleeps + slept;
      }
      assert ImageStep(before, images, i, dst, url, gid, o) == ImageRun(files, dirs, posts, sleeps);
      fs.files, fs.dirs := files, dirs;
      i := i + 1;
    }
  }
}
