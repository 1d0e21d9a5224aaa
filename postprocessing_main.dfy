// The HTTP entry point of the post-processing service (postprocessing/main.py): every *.json file of
// a source directory goes through process_text and is written under the same name to a destination
// directory, and a "done" callback is posted for each file that made it through.
module PostprocessingMain {
  import opened Wrappers
  import opened Text
  import opened Paths
  import opened JsonValues
  import opened Common
  import opened Processing

  /** The callback body {"group_uuid", "filename", "status"} and the URL it is posted to. */
  datatype DonePost = DonePost(url: string, groupUuid: Option<string>, filename: string, status: string)

  /** What process_single_file leaves behind: the files, the callbacks sent, and either its return value or the exception that escaped. */
  datatype FileResult = FileResult(files: map<Path, FileData>, posts: seq<DonePost>, outcome: Result<bool, string>)

  /** The JSON document a file holds, or None when opening or decoding it raises (a directory, a file that is not JSON). */
  function ReadJson(files: map<Path, FileData>, dirs: set<Path>, p: Path): (r: Option<Json>)
    ensures r.Some? <==> p !in dirs && p in files && files[p].JsonFile?
    ensures r.Some? ==> files[p] == JsonFile(r.value)
  {
    if p in dirs || p !in files || !files[p].JsonFile? then None else Some(files[p].value)
  }

  function Name(p: Path): string { if p == [] then "" else p[|p| - 1] }

  /**
   * process_single_file with a readable input: the document goes through process_text and whatever
   * process_text left in it is written to output, on success and on failure alike (the except branch
   * writes the same, partly updated, object). A successful run posts "done" to the callback; the
   * function answers True only when that post does not raise (posting to no URL raises too).
   */
  function ProcessReadable(files: map<Path, FileData>, dirs: set<Path>, input: Path, output: Path, data: Json,
                           callback: Option<string>, llm: Llm, postOk: bool): FileResult
  {
    if output in dirs then FileResult(files, [], Err("IsADirectoryError"))
    else
      var processed := ProcessTextSpec(data, llm);
      var written := files[output := JsonFile(processed.0)];
      if processed.1.Err? || callback.None? then FileResult(written, [], Ok(false))
      else FileResult(written, [DonePost(callback.value, GroupFromPath(input), Name(input), "done")], Ok(postOk))
  }

  /**
   * process_single_file AS WRITTEN. When reading or decoding the input raises, `data` was never bound:
   * the except branch opens output for writing (truncating it to an empty file) and then raises
   * UnboundLocalError while serialising `data`, so the exception escapes to process_files.
   */
  function SingleFileAsWritten(files: map<Path, FileData>, dirs: set<Path>, input: Path, output: Path,
                               callback: Option<string>, llm: Llm, postOk: bool): FileResult
  {
    var read := ReadJson(files, dirs, input);
    if read.Some? then ProcessReadable(files, dirs, input, output, read.value, callback, llm, postOk)
    else if output in dirs then FileResult(files, [], Err("IsADirectoryError"))
    else FileResult(files[output := TextFile("")], [], Err("UnboundLocalError"))
  }

  /** process_single_file as intended: an unreadable input is reported as a failure (False) and nothing is written. */
  function SingleFile(files: map<Path, FileData>, dirs: set<Path>, input: Path, output: Path,
                      callback: Option<string>, llm: Llm, postOk: bool): FileResult
  {
    var read := ReadJson(files, dirs, input);
    if read.Some? then ProcessReadable(files, dirs, input, output, read.value, callback, llm, postOk)
    else FileResult(files, [], Ok(false))
  }

  /** The state after the files of names have been processed in turn, stopping at the first exception that escapes. */
  datatype BatchState = BatchState(files: map<Path, FileData>, posts: seq<DonePost>, results: seq<bool>, error: Option<string>)

  /** The loop of process_files over names, with the file step as written or as intended. */
  function Batch(files: map<Path, FileData>, dirs: set<Path>, inDir: Path, outDir: Path, names: seq<string>,
                 callback: Option<string>, llm: Llm, postOk: nat -> bool, asWritten: bool): BatchState
    decreases |names|
  {
    if names == [] then BatchState(files, [], [], None)
    else
      var before := Batch(files, dirs, inDir, outDir, names[..|names| - 1], callback, llm, postOk, asWritten);
      if before.error.Some? then before
      else BatchStep(before, dirs, inDir, outDir, names[|names| - 1], |names| - 1, callback, llm, postOk, asWritten)
  }

  /** One turn of the loop: file i of the listing, read from inDir and written to outDir under the same name. */
  function BatchStep(before: BatchState, dirs: set<Path>, inDir: Path, outDir: Path, name: string, i: nat,
                     callback: Option<string>, llm: Llm, postOk: nat -> bool, asWritten: bool): BatchState
  {
    var r := if asWritten then SingleFileAsWritten(before.files, dirs, inDir + [name], outDir + [name], callback, llm, postOk(i))
             else SingleFile(before.files, dirs, inDir + [name], outDir + [name], callback, llm, postOk(i));
    if r.outcome.Err? then BatchState(r.files, before.posts + r.posts, before.results, Some(r.outcome.error))
    else BatchState(r.files, before.posts + r.posts, before.results + [r.outcome.value], None)
  }

  /** Python truthiness of an optional query parameter: missing and empty are both false. */
  predicate Given(q: Option<string>) { q.Some? && q.value != "" }

  /** input_path.glob("*.json"), as a sequence of entry names: exactly the entries directly inside dir whose names end in ".json", once each. */
  predicate IsJsonListing(files: map<Path, FileData>, dirs: set<Path>, dir: Path, names: seq<string>)
  {
    && (forall i, j :: 0 <= i < j < |names| ==> names[i] != names[j])
    && (forall n <- names :: EndsWith(n, ".json") && (dir + [n] in files || dir + [n] in dirs))
    && (forall p <- files :: |p| == |dir| + 1 && p[..|dir|] == dir && EndsWith(p[|dir|], ".json") ==> p[|dir|] in names)
    && (forall p <- dirs :: |p| == |dir| + 1 && p[..|dir|] == dir && EndsWith(p[|dir|], ".json") ==> p[|dir|] in names)
  }

  /** The exception output_path.mkdir(parents=True, exist_ok=True) raises, if any. */
  function MkdirError(files: map<Path, FileData>, p: Path): (r: Option<string>)
    ensures r.None? <==> forall k :: 0 <= k <= |p| ==> p[..k] !in files
  {
    if p in files then
      assert p[..|p|] == p;
      Some("FileExistsError")
    else if exists k :: 0 <= k < |p| && p[..k] in files then Some("NotADirectoryError")
    else
      assert p[..|p|] == p;
      None
  }

  /** The response of process_files; an exception that escapes the handler becomes a 500. */
  datatype Reply = BadRequest(message: string) | NoJsonFiles | Processed | ServerError(exception: string)

  function Status(r: Reply): int
  {
    match r
    case BadRequest(_) => 400
    case ServerError(_) => 500
    case _ => 200
  }

  // ---- the single-file step ----

  /** A readable input: its output holds what process_text made of it, and "done" is posted exactly when process_text succeeded and a callback URL was given. */
  lemma SingleFileReadable(files: map<Path, FileData>, dirs: set<Path>, input: Path, output: Path,
                           callback: Option<string>, llm: Llm, postOk: bool)
    requires input !in dirs && input in files && files[input].JsonFile? && output !in dirs
    ensures var r := SingleFile(files, dirs, input, output, callback, llm, postOk);
            var processed := ProcessTextSpec(files[input].value, llm);
            && r.files == files[output := JsonFile(processed.0)]
            && r.outcome == Ok(processed.1.Ok? && callback.Some? && postOk)
            && (r.posts != [] <==> processed.1.Ok? && callback.Some?)
            && (r.posts != [] ==> r.posts == [DonePost(callback.value, GroupFromPath(input), Name(input), "done")])
  {
  }

  /** As written and as intended agree on every readable input, and on an output that is a directory. */
  lemma AsWrittenAgrees(files: map<Path, FileData>, dirs: set<Path>, input: Path, output: Path,
                        callback: Option<string>, llm: Llm, postOk: bool)
    requires ReadJson(files, dirs, input).Some?
    ensures SingleFileAsWritten(files, dirs, input, output, callback, llm, postOk)
         == SingleFile(files, dirs, input, output, callback, llm, postOk)
  {
  }

  /** As written, an unreadable input truncates its output and raises UnboundLocalError out of process_single_file. */
  lemma UnreadableRaises(files: map<Path, FileData>, dirs: set<Path>, input: Path, output: Path,
                         callback: Option<string>, llm: Llm, postOk: bool)
    requires ReadJson(files, dirs, input).None? && output !in dirs
    ensures var r := SingleFileAsWritten(files, dirs, input, output, callback, llm, postOk);
            r.outcome == Err("UnboundLocalError") && r.files == files[output := TextFile("")] && r.posts == []
  {
  }

  /** As intended, an unreadable input is a failed file and leaves everything as it was. */
  lemma UnreadableFails(files: map<Path, FileData>, dirs: set<Path>, input: Path, output: Path,
                        callback: Option<string>, llm: Llm, postOk: bool)
    requires ReadJson(files, dirs, input).None?
    ensures SingleFile(files, dirs, input, output, callback, llm, postOk) == FileResult(files, [], Ok(false))
  {
  }

  /** The only exception the intended step lets escape is writing onto a directory. */
  lemma SingleFileRaisesOnlyOnDirectory(files: map<Path, FileData>, dirs: set<Path>, input: Path, output: Path,
                                        callback: Option<string>, llm: Llm, postOk: bool)
    ensures var r := SingleFile(files, dirs, input, output, callback, llm, postOk);
            r.outcome.Err? <==> ReadJson(files, dirs, input).Some? && output in dirs
  {
  }

  /** The step writes output and nothing else. */
  lemma SingleFileFrame(files: map<Path, FileData>, dirs: set<Path>, input: Path, output: Path,
                        callback: Option<string>, llm: Llm, postOk: bool, p: Path)
    requires p != output
    ensures var r := SingleFile(files, dirs, input, output, callback, llm, postOk);
            (p in r.files <==> p in files) && (p in files ==> r.files[p] == files[p])
  {
  }

  // ---- the loop of process_files ----

  lemma BatchUnfold(files: map<Path, FileData>, dirs: set<Path>, inDir: Path, outDir: Path, names: seq<string>, k: nat,
                    callback: Option<string>, llm: Llm, postOk: nat -> bool, asWritten: bool)
    requires k < |names|
    ensures var before := Batch(files, dirs, inDir, outDir, names[..k], callback, llm, postOk, asWritten);
            Batch(files, dirs, inDir, outDir, names[..k + 1], callback, llm, postOk, asWritten)
              == if before.error.Some? then before
                 else BatchStep(before, dirs, inDir, outDir, names[k], k, callback, llm, postOk, asWritten)
  {
    assert names[..k + 1][..k] == names[..k];
  }

  /** With the intended step and no output that is a directory, every file is processed: one result per name and no escaping exception. */
  lemma {:induction false} BatchCompletes(files: map<Path, FileData>, dirs: set<Path>, inDir: Path, outDir: Path, names: seq<string>,
                                          callback: Option<string>, llm: Llm, postOk: nat -> bool)
    requires forall n <- names :: outDir + [n] !in dirs
    ensures var b := Batch(files, dirs, inDir, outDir, names, callback, llm, postOk, false);
            b.error.None? && |b.results| == |names| && |b.posts| <= |names|
  {
    if names != [] {
      var pre := names[..|names| - 1];
      BatchCompletes(files, dirs, inDir, outDir, pre, callback, llm, postOk);
    }
  }

  /** Every callback goes to the given URL, says "done" and names a file of the listing. */
  lemma {:induction false} BatchPosts(files: map<Path, FileData>, dirs: set<Path>, inDir: Path, outDir: Path, names: seq<string>,
                                      callback: Option<string>, llm: Llm, postOk: nat -> bool, asWritten: bool)
    ensures var b := Batch(files, dirs, inDir, outDir, names, callback, llm, postOk, asWritten);
            forall post <- b.posts :: callback.Some? && post.url == callback.value && post.status == "done" && post.filename in names
  {
    if names != [] {
      var pre := names[..|names| - 1];
      BatchPosts(files, dirs, inDir, outDir, pre, callback, llm, postOk, asWritten);
      var before := Batch(files, dirs, inDir, outDir, pre, callback, llm, postOk, asWritten);
      forall post <- before.posts ensures post.filename in names {
        assert post.filename in pre;
      }
      assert Name(inDir + [names[|names| - 1]]) == names[|names| - 1];
    }
  }

  /** The loop over names[..k] writes only outputs of those names. */
  lemma {:induction false} BatchFrame(files: map<Path, FileData>, dirs: set<Path>, inDir: Path, outDir: Path, names: seq<string>, k: nat,
                                      callback: Option<string>, llm: Llm, postOk: nat -> bool, p: Path)
    requires k <= |names|
    requires forall j :: 0 <= j < k ==> p != outDir + [names[j]]
    ensures var b := Batch(files, dirs, inDir, outDir, names[..k], callback, llm, postOk, false);
            (p in b.files <==> p in files) && (p in files ==> b.files[p] == files[p])
  {
    if k > 0 {
      BatchFrame(files, dirs, inDir, outDir, names, k - 1, callback, llm, postOk, p);
      BatchUnfold(files, dirs, inDir, outDir, names, k - 1, callback, llm, postOk, false);
      var before := Batch(files, dirs, inDir, outDir, names[..k - 1], callback, llm, postOk, false);
      if before.error.None? {
        var n := names[k - 1];
        SingleFileFrame(before.files, dirs, inDir + [n], outDir + [n], callback, llm, postOk(k - 1), p);
      }
    }
  }

  /** The step of file i sees the input as it was before the loop: no earlier output overwrites it, names being distinct. */
  lemma InputUntouched(files: map<Path, FileData>, dirs: set<Path>, inDir: Path, outDir: Path, names: seq<string>, i: nat,
                       callback: Option<string>, llm: Llm, postOk: nat -> bool)
    requires i < |names|
    requires forall a, b :: 0 <= a < b < |names| ==> names[a] != names[b]
    ensures var b := Batch(files, dirs, inDir, outDir, names[..i], callback, llm, postOk, false);
            ReadJson(b.files, dirs, inDir + [names[i]]) == ReadJson(files, dirs, inDir + [names[i]])
  {
    var p := inDir + [names[i]];
    forall j | 0 <= j < i ensures p != outDir + [names[j]] {
      var q := outDir + [names[j]];
      assert q[|q| - 1] == names[j] && p[|p| - 1] == names[i];
    }
    BatchFrame(files, dirs, inDir, outDir, names, i, callback, llm, postOk, p);
  }

  /** The step of file i, taken on the files the first i steps left, as the loop takes it. */
  lemma StepAt(files: map<Path, FileData>, dirs: set<Path>, inDir: Path, outDir: Path, names: seq<string>, i: nat,
               callback: Option<string>, llm: Llm, postOk: nat -> bool)
    requires i < |names|
    requires forall n <- names :: outDir + [n] !in dirs
    ensures var before := Batch(files, dirs, inDir, outDir, names[..i], callback, llm, postOk, false);
            var r := SingleFile(before.files, dirs, inDir + [names[i]], outDir + [names[i]], callback, llm, postOk(i));
            var mid := Batch(files, dirs, inDir, outDir, names[..i + 1], callback, llm, postOk, false);
            && r.outcome.Ok? && |before.results| == i
            && mid.results == before.results + [r.outcome.value] && mid.files == r.files
  {
    BatchCompletes(files, dirs, inDir, outDir, names[..i], callback, llm, postOk);
    BatchUnfold(files, dirs, inDir, outDir, names, i, callback, llm, postOk, false);
    var before := Batch(files, dirs, inDir, outDir, names[..i], callback, llm, postOk, false);
    SingleFileRaisesOnlyOnDirectory(before.files, dirs, inDir + [names[i]], outDir + [names[i]], callback, llm, postOk(i));
  }

  /**
   * With the intended step, the result of file i is True exactly when its input decodes, process_text
   * succeeds on it, a callback URL is given and the post goes through.
   */
  lemma FileResultAt(files: map<Path, FileData>, dirs: set<Path>, inDir: Path, outDir: Path, names: seq<string>, i: nat,
                     callback: Option<string>, llm: Llm, postOk: nat -> bool)
    requires i < |names|
    requires forall a, b :: 0 <= a < b < |names| ==> names[a] != names[b]
    requires forall n <- names :: outDir + [n] !in dirs
    ensures var b := Batch(files, dirs, inDir, outDir, names, callback, llm, postOk, false);
            var read := ReadJson(files, dirs, inDir + [names[i]]);
            && i < |b.results|
            && (b.results[i] <==> read.Some? && ProcessTextSpec(read.value, llm).1.Ok? && callback.Some? && postOk(i))
  {
    var input := inDir + [names[i]];
    var before := Batch(files, dirs, inDir, outDir, names[..i], callback, llm, postOk, false);
    InputUntouched(files, dirs, inDir, outDir, names, i, callback, llm, postOk);
    StepAt(files, dirs, inDir, outDir, names, i, callback, llm, postOk);
    ResultsPersist(files, dirs, inDir, outDir, names, i + 1, callback, llm, postOk);
    assert names[..|names|] == names;
    var read := ReadJson(files, dirs, input);
    if read.Some? {
      SingleFileReadable(before.files, dirs, input, outDir + [names[i]], callback, llm, postOk(i));
    } else {
      UnreadableFails(before.files, dirs, input, outDir + [names[i]], callback, llm, postOk(i));
    }
  }

  /** With the intended step, a readable file's output holds what process_text made of the input as it was before the loop. */
  lemma FileOutputAt(files: map<Path, FileData>, dirs: set<Path>, inDir: Path, outDir: Path, names: seq<string>, i: nat,
                     callback: Option<string>, llm: Llm, postOk: nat -> bool)
    requires i < |names|
    requires forall a, b :: 0 <= a < b < |names| ==> names[a] != names[b]
    requires forall n <- names :: outDir + [n] !in dirs
    requires ReadJson(files, dirs, inDir + [names[i]]).Some?
    ensures var b := Batch(files, dirs, inDir, outDir, names, callback, llm, postOk, false);
            var v := ReadJson(files, dirs, inDir + [names[i]]).value;
            outDir + [names[i]] in b.files && b.files[outDir + [names[i]]] == JsonFile(ProcessTextSpec(v, llm).0)
  {
    var input := inDir + [names[i]];
    var out := outDir + [names[i]];
    var before := Batch(files, dirs, inDir, outDir, names[..i], callback, llm, postOk, false);
    InputUntouched(files, dirs, inDir, outDir, names, i, callback, llm, postOk);
    StepAt(files, dirs, inDir, outDir, names, i, callback, llm, postOk);
    SingleFileReadable(before.files, dirs, input, out, callback, llm, postOk(i));
    forall j | i + 1 <= j < |names| ensures out != outDir + [names[j]] {
      var q := outDir + [names[j]];
      assert q[|q| - 1] == names[j] && out[|out| - 1] == names[i];
    }
    OutputPersists(files, dirs, inDir, outDir, names, i + 1, callback, llm, postOk, out);
    assert names[..|names|] == names;
  }

  /** Results recorded after names[..k] stay as they are until the end of the loop. */
  lemma {:induction false} ResultsPersist(files: map<Path, FileData>, dirs: set<Path>, inDir: Path, outDir: Path, names: seq<string>, k: nat,
                                          callback: Option<string>, llm: Llm, postOk: nat -> bool)
    requires k <= |names|
    requires forall n <- names :: outDir + [n] !in dirs
    ensures var mid := Batch(files, dirs, inDir, outDir, names[..k], callback, llm, postOk, false);
            var b := Batch(files, dirs, inDir, outDir, names[..|names|], callback, llm, postOk, false);
            mid.results <= b.results
    decreases |names| - k
  {
    if k < |names| {
      ResultsPersist(files, dirs, inDir, outDir, names, k + 1, callback, llm, postOk);
      BatchCompletes(files, dirs, inDir, outDir, names[..k], callback, llm, postOk);
      BatchUnfold(files, dirs, inDir, outDir, names, k, callback, llm, postOk, false);
    }
  }

  /** An output written by the first k files is not overwritten later unless a later name is the same. */
  lemma {:induction false} OutputPersists(files: map<Path, FileData>, dirs: set<Path>, inDir: Path, outDir: Path, names: seq<string>, k: nat,
                                          callback: Option<string>, llm: Llm, postOk: nat -> bool, p: Path)
    requires k <= |names|
    requires forall n <- names :: outDir + [n] !in dirs
    requires forall j :: k <= j < |names| ==> p != outDir + [names[j]]
    ensures var mid := Batch(files, dirs, inDir, outDir, names[..k], callback, llm, postOk, false);
            var b := Batch(files, dirs, inDir, outDir, names[..|names|], callback, llm, postOk, false);
            (p in b.files <==> p in mid.files) && (p in mid.files ==> b.files[p] == mid.files[p])
    decreases |names| - k
  {
    if k < |names| {
      OutputPersists(files, dirs, inDir, outDir, names, k + 1, callback, llm, postOk, p);
      BatchCompletes(files, dirs, inDir, outDir, names[..k], callback, llm, postOk);
      BatchUnfold(files, dirs, inDir, outDir, names, k, callback, llm, postOk, false);
      var mid := Batch(files, dirs, inDir, outDir, names[..k], callback, llm, postOk, false);
      SingleFileFrame(mid.files, dirs, inDir + [names[k]], outDir + [names[k]], callback, llm, postOk(k), p);
    }
  }

  // ---- the finding: one unreadable file aborts the whole request ----

  /** A listing of two files, the first of which is not JSON, the second a document without regions. */
  function TwoFiles(): map<Path, FileData>
  {
    map[["in", "a.json"] := TextFile("not json"), ["in", "b.json"] := JsonFile(JObj(map["regions" := JArr([])]))]
  }

  /**
   * As written, the UnboundLocalError of the first file escapes the loop: the request ends with
   * it (a 500), the first output is left empty and the second file is never processed.
   */
  lemma AsWrittenAbortsBatch(llm: Llm, postOk: nat -> bool)
    ensures var b := Batch(TwoFiles(), {["in"], ["out"]}, ["in"], ["out"], ["a.json", "b.json"], Some("cb"), llm, postOk, true);
            && b.error == Some("UnboundLocalError")
            && b.results == []
            && ["out", "a.json"] in b.files && b.files[["out", "a.json"]] == TextFile("")
            && ["out", "b.json"] !in b.files
  {
    var files, dirs, names := TwoFiles(), {["in"], ["out"]}, ["a.json", "b.json"];
    BatchUnfold(files, dirs, ["in"], ["out"], names, 0, Some("cb"), llm, postOk, true);
    BatchUnfold(files, dirs, ["in"], ["out"], names, 1, Some("cb"), llm, postOk, true);
    assert names[..0] == [] && names[..2] == names;
    assert ["in"] + ["a.json"] == ["in", "a.json"] && ["out"] + ["a.json"] == ["out", "a.json"];
    assert ReadJson(files, dirs, ["in", "a.json"]).None?;
    var b0 := BatchState(files, [], [], None);
    var b1 := BatchStep(b0, dirs, ["in"], ["out"], "a.json", 0, Some("cb"), llm, postOk, true);
    assert b1 == BatchState(files[["out", "a.json"] := TextFile("")], [], [], Some("UnboundLocalError"));
  }

  /** A document whose region list is empty comes out of process_text as it went in. */
  lemma NoRegionsToCorrect(llm: Llm)
    ensures var doc := JObj(map["regions" := JArr([])]);
            ProcessTextSpec(doc, llm) == (doc, Ok(()))
  {
    var m := map["regions" := JArr([])];
    assert Blanked([]) == [] && Gather([]) == ([], []);
    assert m["regions" := JArr([])] == m;
  }

  /** As intended, the first file fails on its own and the second is processed and announced. */
  lemma IntendedContinues(llm: Llm, postOk: nat -> bool)
    ensures var b := Batch(TwoFiles(), {["in"], ["out"]}, ["in"], ["out"], ["a.json", "b.json"], Some("cb"), llm, postOk, false);
            && b.error == None
            && b.results == [false, postOk(1)]
            && ["out", "a.json"] !in b.files
            && ["out", "b.json"] in b.files && b.files[["out", "b.json"]] == JsonFile(JObj(map["regions" := JArr([])]))
            && b.posts == [DonePost("cb", None, "b.json", "done")]
  {
    var files, dirs, names := TwoFiles(), {["in"], ["out"]}, ["a.json", "b.json"];
    BatchUnfold(files, dirs, ["in"], ["out"], names, 0, Some("cb"), llm, postOk, false);
    BatchUnfold(files, dirs, ["in"], ["out"], names, 1, Some("cb"), llm, postOk, false);
    assert names[..0] == [] && names[..1] == ["a.json"] && names[..2] == names;
    FirstFileFails(llm, postOk);
    SecondFileDone(llm, postOk);
  }

  lemma FirstFileFails(llm: Llm, postOk: nat -> bool)
    ensures BatchStep(BatchState(TwoFiles(), [], [], None), {["in"], ["out"]}, ["in"], ["out"], "a.json", 0, Some("cb"), llm, postOk, false)
         == BatchState(TwoFiles(), [], [false], None)
  {
    assert ["in"] + ["a.json"] == ["in", "a.json"];
    assert ReadJson(TwoFiles(), {["in"], ["out"]}, ["in", "a.json"]).None?;
  }

  lemma SecondFileDone(llm: Llm, postOk: nat -> bool)
    ensures BatchStep(BatchState(TwoFiles(), [], [false], None), {["in"], ["out"]}, ["in"], ["out"], "b.json", 1, Some("cb"), llm, postOk, false)
         == BatchState(TwoFiles()[["out", "b.json"] := JsonFile(JObj(map["regions" := JArr([])]))],
                       [DonePost("cb", None, "b.json", "done")], [false, postOk(1)], None)
  {
    var regions := map["regions" := JArr([])];
    assert ["in"] + ["b.json"] == ["in", "b.json"] && ["out"] + ["b.json"] == ["out", "b.json"];
    assert ReadJson(TwoFiles(), {["in"], ["out"]}, ["in", "b.json"]) == Some(JObj(regions));
    NoRegionsToCorrect(llm);
    assert GroupFromPath(["in", "b.json"]) == None by {
      assert IndexOfComponent(["in", "b.json"], "groups") == -1;
    }
  }

  // ---- the handler ----

  /** process_single_file, as intended: reads, processes, writes and posts; the result is the function's return value or the exception that escaped. */
  method ProcessSingleFile(fs: FileSystem, input: Path, output: Path, callback: Option<string>, llm: Llm, postOk: bool)
    returns (outcome: Result<bool, string>, posts: seq<DonePost>)
    modifies fs
    ensures var r := SingleFile(old(fs.files), old(fs.dirs), input, output, callback, llm, postOk);
            fs.files == r.files && posts == r.posts && outcome == r.outcome
    ensures fs.dirs == old(fs.dirs)
  {
    var read := ReadJson(fs.files, fs.dirs, input);
    if read.None? {
      return Ok(false), [];
    }
    if output in fs.dirs {
      return Err("IsADirectoryError"), [];
    }
    var processed, r := ProcessText(read.value, llm);
    fs.files := fs.files[output := JsonFile(processed)];
    if r.Err? || callback.None? {
      return Ok(false), [];
    }
    posts := [DonePost(callback.value, GroupFromPath(input), Name(input), "done")];
    outcome := Ok(postOk);
  }

  /** The loop of process_files over the listing. */
  method ProcessAll(fs: FileSystem, inDir: Path, outDir: Path, names: seq<string>, callback: Option<string>, llm: Llm, postOk: nat -> bool)
    returns (posts: seq<DonePost>, results: seq<bool>, error: Option<string>)
    modifies fs
    ensures var b := Batch(old(fs.files), old(fs.dirs), inDir, outDir, names, callback, llm, postOk, false);
            fs.files == b.files && posts == b.posts && results == b.results && error == b.error
    ensures fs.dirs == old(fs.dirs)
  {
    posts, results, error := [], [], None;
    var i := 0;
    while i < |names| && error.None?
      invariant 0 <= i <= |names|
      invariant fs.dirs == old(fs.dirs)
      invariant Batch(old(fs.files), old(fs.dirs), inDir, outDir, names[..i], callback, llm, postOk, false)
                == BatchState(fs.files, posts, results, error)
    {
      BatchUnfold(old(fs.files), old(fs.dirs), inDir, outDir, names, i, callback, llm, postOk, false);
      var outcome, sent := ProcessSingleFile(fs, inDir + [names[i]], outDir + [names[i]], callback, llm, postOk(i));
      posts := posts + sent;
      if outcome.Err? {
        error := Some(outcome.error);
      } else {
        results := results + [outcome.value];
      }
      i := i + 1;
    }
    if i < |names| {
      BatchStopped(old(fs.files), old(fs.dirs), inDir, outDir, names, i, callback, llm, postOk);
    }
    assert names[..|names|] == names;
  }

  /** Once an exception has escaped, the later names change nothing. */
  lemma {:induction false} BatchStopped(files: map<Path, FileData>, dirs: set<Path>, inDir: Path, outDir: Path, names: seq<string>, k: nat,
                                        callback: Option<string>, llm: Llm, postOk: nat -> bool)
    requires k <= |names|
    requires Batch(files, dirs, inDir, outDir, names[..k], callback, llm, postOk, false).error.Some?
    ensures Batch(files, dirs, inDir, outDir, names, callback, llm, postOk, false)
         == Batch(files, dirs, inDir, outDir, names[..k], callback, llm, postOk, false)
    decreases |names| - k
  {
    if k < |names| {
      BatchUnfold(files, dirs, inDir, outDir, names, k, callback, llm, postOk, false);
      BatchStopped(files, dirs, inDir, outDir, names, k + 1, callback, llm, postOk);
    } else {
      assert names[..k] == names;
    }
  }

  /**
   * The replies process_files gives before it writes anything: both directories missing (400),
   * exactly one of them missing (Path(None) raises TypeError, 500), a source that does not exist or
   * is not a directory (400), and a source without *.json files (200 with a warning).
   */
  function EarlyReply(files: map<Path, FileData>, dirs: set<Path>, cwd: Path, source: Option<string>, dst: Option<string>,
                      names: seq<string>): (r: Option<Reply>)
    ensures r.None? ==> source.Some? && dst.Some? && Resolve(cwd, source.value) in dirs && names != []
    ensures r == Some(BadRequest("Input and output directories are not specified")) <==> !Given(source) && !Given(dst)
    ensures r == Some(ServerError("TypeError")) <==> (Given(source) || Given(dst)) && (source.None? || dst.None?)
  {
    if !Given(source) && !Given(dst) then Some(BadRequest("Input and output directories are not specified"))
    else if source.None? || dst.None? then Some(ServerError("TypeError"))
    else
      var inDir := Resolve(cwd, source.value);
      if inDir !in files && inDir !in dirs then Some(BadRequest("Input directory not found"))
      else if inDir !in dirs then Some(BadRequest("Specified path is not a directory"))
      else if names == [] then Some(NoJsonFiles)
      else None
  }

  /**
   * process_files (GET /): source, dst and callback come from the query; cwd is the working directory
   * relative paths are taken from, and names is the order in which glob("*.json") lists the source.
   */
  method ProcessFiles(fs: FileSystem, cwd: Path, source: Option<string>, dst: Option<string>, callback: Option<string>,
                      names: seq<string>, llm: Llm, postOk: nat -> bool)
    returns (reply: Reply, posts: seq<DonePost>, results: seq<bool>)
    requires source.Some? ==> IsJsonListing(fs.files, fs.dirs, Resolve(cwd, source.value), names)
    modifies fs
    ensures var early := EarlyReply(old(fs.files), old(fs.dirs), cwd, source, dst, names);
            early.Some? ==> reply == early.value && fs.files == old(fs.files) && fs.dirs == old(fs.dirs) && posts == [] && results == []
    ensures var early := EarlyReply(old(fs.files), old(fs.dirs), cwd, source, dst, names);
            early.None? ==>
              var inDir := Resolve(cwd, source.value);
              var outDir := Resolve(cwd, dst.value);
              if MkdirError(old(fs.files), outDir).Some? then
                reply == ServerError(MkdirError(old(fs.files), outDir).value) && fs.files == old(fs.files) && fs.dirs == old(fs.dirs)
              else
                var b := Batch(old(fs.files), old(fs.dirs) + Prefixes(outDir), inDir, outDir, names, callback, llm, postOk, false);
                && fs.dirs == old(fs.dirs) + Prefixes(outDir)
                && fs.files == b.files && posts == b.posts && results == b.results
                && reply == if b.error.Some? then ServerError(b.error.value) else Processed
  {
    posts, results := [], [];
    if !Given(source) && !Given(dst) {
      return BadRequest("Input and output directories are not specified"), posts, results;
    }
    if source.None? || dst.None? {
      // Path(None) raises TypeError
      return ServerError("TypeError"), posts, results;
    }
    var inDir := Resolve(cwd, source.value);
    var outDir := Resolve(cwd, dst.value);
    if !fs.Exists(inDir) {
      return BadRequest("Input directory not found"), posts, results;
    }
    if inDir !in fs.dirs {
      return BadRequest("Specified path is not a directory"), posts, results;
    }
    if names == [] {
      return NoJsonFiles, posts, results;
    }
    reply, posts, results := WriteOutputs(fs, inDir, outDir, names, callback, llm, postOk);
  }

  /** The part of process_files after the checks: output_path.mkdir(parents=True, exist_ok=True), then the loop. */
  method WriteOutputs(fs: FileSystem, inDir: Path, outDir: Path, names: seq<string>, callback: Option<string>, llm: Llm, postOk: nat -> bool)
    returns (reply: Reply, posts: seq<DonePost>, results: seq<bool>)
    modifies fs
    ensures MkdirError(old(fs.files), outDir).Some? ==>
              reply == ServerError(MkdirError(old(fs.files), outDir).value) && fs.files == old(fs.files) && fs.dirs == old(fs.dirs)
    ensures MkdirError(old(fs.files), outDir).None? ==>
              var b := Batch(old(fs.files), old(fs.dirs) + Prefixes(outDir), inDir, outDir, names, callback, llm, postOk, false);
              && fs.dirs == old(fs.dirs) + Prefixes(outDir)
              && fs.files == b.files && posts == b.posts && results == b.results
              && reply == if b.error.Some? then ServerError(b.error.value) else Processed
  {
    posts, results := [], [];
    var failed := MkdirError(fs.files, outDir);
    if failed.Some? {
      return ServerError(failed.value), posts, results;
    }
    fs.dirs := fs.dirs + Prefixes(outDir);
    var error;
    posts, results, error := ProcessAll(fs, inDir, outDir, names, callback, llm, postOk);
    reply := if error.Some? then ServerError(error.value) else Processed;
  }
}
