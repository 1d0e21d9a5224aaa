// The nightly training job (backend/src/services/scheduler/train.py): a retry loop around the GET
// that starts training, whose `finally` block wipes and recreates the training directory.
module TrainScheduler {
  import opened Wrappers
  import opened Paths
  import opened Common
  import opened Backoff

  const MaxAttempts: nat := 6

  /** The directory the `finally` block resets, as written in the code. */
  const TrainDir: Path := ["out", "var", "train"]

  /** TRAIN_ROOT: `train` beside the store directory. */
  function TrainRoot(varRoot: Path): Path { varRoot + ["train"] }

  /** The training request's parameters, as fixed strings in the code. */
  datatype TrainRequest = TrainRequest(url: string, model: string, checkpointDir: string, labelsDir: string, imageDir: string)

  function TrainingRequest(url: string): TrainRequest
  {
    TrainRequest(url, "baseline", "/ml/models/", "/out/var/train/texts/", "/out/var/train/images/")
  }

  /** The files left after `rmtree(TrainDir)`. */
  function WipedFiles(files: map<Path, FileData>): (r: map<Path, FileData>)
    ensures forall p :: p in r <==> p in files && !IsPrefixPath(TrainDir, p)
    ensures forall p :: p in r ==> r[p] == files[p]
  {
    map p | p in files && !IsPrefixPath(TrainDir, p) :: files[p]
  }

  /** The directories left after `rmtree(TrainDir)` and `mkdir(TrainDir)`. */
  function ResetDirs(dirs: set<Path>): (r: set<Path>)
    ensures TrainDir in r
    ensures forall p :: p in r && p != TrainDir ==> p in dirs && !IsPrefixPath(TrainDir, p)
    ensures forall p :: p in dirs && !IsPrefixPath(TrainDir, p) ==> p in r
  {
    (set p | p in dirs && !IsPrefixPath(TrainDir, p)) + {TrainDir}
  }

  /** The directories left after `rmtree(TrainDir)` when the `mkdir` that follows it raises. */
  function WipedDirs(dirs: set<Path>): (r: set<Path>)
    ensures TrainDir !in r
    ensures forall p :: p in r <==> p in dirs && !IsPrefixPath(TrainDir, p)
  {
    set p | p in dirs && !IsPrefixPath(TrainDir, p)
  }

  /**
   * The file system after a `finally` block that raised: rmtree ran when the directory existed, and
   * the mkdir that raised changed nothing.
   */
  predicate FailedReset(files0: map<Path, FileData>, dirs0: set<Path>, files: map<Path, FileData>, dirs: set<Path>)
  {
    && files == (if TrainDir in dirs0 then WipedFiles(files0) else files0)
    && dirs == (if TrainDir in dirs0 then WipedDirs(dirs0) else dirs0)
  }

  /** The reset succeeds when the directory to remove exists and its parent survives for mkdir. */
  predicate CanReset(dirs: set<Path>)
  {
    TrainDir in dirs && Parent(TrainDir) in dirs
  }

  /** A successful reset leaves nothing under the training directory but the directory itself. */
  lemma ResetEmpties(files: map<Path, FileData>, dirs: set<Path>)
    ensures forall p :: p in WipedFiles(files) ==> !IsPrefixPath(TrainDir, p)
    ensures forall p :: p in ResetDirs(dirs) && IsPrefixPath(TrainDir, p) ==> p == TrainDir
  {
  }

  /** Resetting twice is resetting once, and a reset can always be repeated. */
  lemma ResetIdempotent(files: map<Path, FileData>, dirs: set<Path>)
    requires CanReset(dirs)
    ensures WipedFiles(WipedFiles(files)) == WipedFiles(files)
    ensures ResetDirs(ResetDirs(dirs)) == ResetDirs(dirs)
    ensures CanReset(ResetDirs(dirs))
  {
    assert !IsPrefixPath(TrainDir, Parent(TrainDir));
  }

  /**
   * The `finally` block: shutil.rmtree then os.mkdir. rmtree of a missing directory and mkdir under a
   * missing parent raise FileNotFoundError; the failed call changes nothing.
   */
  method ResetTrainDir(fs: FileSystem) returns (reset: bool)
    modifies fs
    ensures reset == CanReset(old(fs.dirs))
    ensures fs.files == (if TrainDir in old(fs.dirs) then WipedFiles(old(fs.files)) else old(fs.files))
    ensures fs.dirs == (if reset then ResetDirs(old(fs.dirs))
                        else if TrainDir in old(fs.dirs) then WipedDirs(old(fs.dirs))
                        else old(fs.dirs))
  {
    if TrainDir !in fs.dirs {
      return false;
    }
    var removed := fs.RemoveTree(TrainDir);
    if Parent(TrainDir) !in fs.dirs {
      assert Parent(TrainDir) !in old(fs.dirs);
      return false;
    }
    fs.dirs := fs.dirs + {TrainDir};
    reset := true;
  }

  /**
   * The `finally` block of one attempt: on the first attempt the directories are those _ensure_train_dirs
   * left; on a later one, a reset already ran. The reset succeeds exactly when it can, and a failed
   * reset can only happen on the first attempt.
   */
  method ResetAfterAttempt(fs: FileSystem, ghost files0: map<Path, FileData>, ghost dirs0: set<Path>, ghost first: bool)
    returns (reset: bool)
    requires first ==> fs.files == files0 && fs.dirs == dirs0
    requires !first ==> CanReset(dirs0) && fs.files == WipedFiles(files0) && fs.dirs == ResetDirs(dirs0)
    modifies fs
    ensures reset <==> CanReset(dirs0)
    ensures reset ==> fs.files == WipedFiles(files0) && fs.dirs == ResetDirs(dirs0)
    ensures !reset ==> first
    ensures !reset ==> FailedReset(files0, dirs0, fs.files, fs.dirs)
  {
    if !first {
      ResetIdempotent(files0, dirs0);
    }
    reset := ResetTrainDir(fs);
  }

  /** The directories after _ensure_train_dirs. */
  function EnsuredDirs(dirs: set<Path>, varRoot: Path): set<Path>
  {
    dirs + Prefixes(TrainRoot(varRoot) + ["texts"]) + Prefixes(TrainRoot(varRoot) + ["images"])
  }

  /**
   * model_train: the training directories are ensured, then up to six attempts at the training GET,
   * ok(k) telling whether the k-th succeeds. After a failure other than the sixth the back-off is slept;
   * then, whatever happened, the `finally` block resets the training directory. When that reset
   * cannot run, its FileNotFoundError replaces the attempt's own result.
   */
  method ModelTrain(fs: FileSystem, varRoot: Path, url: string, ok: nat -> bool)
    returns (sent: seq<TrainRequest>, sleeps: seq<nat>, outcome: Outcome)
    modifies fs
    ensures 1 <= |sent| <= MaxAttempts && forall k :: 0 <= k < |sent| ==> sent[k] == TrainingRequest(url)
    ensures CanReset(EnsuredDirs(old(fs.dirs), varRoot)) ==>
              && (outcome.Returned? <==> FirstOk(ok, MaxAttempts).Some?)
              && (outcome.Returned? ==> outcome.value == None && |sent| == FirstOk(ok, MaxAttempts).value + 1)
              && (outcome.Raised? ==> |sent| == MaxAttempts && outcome.error == "RequestError")
              && sleeps == Schedule(|sent| - 1)
              && fs.files == WipedFiles(old(fs.files))
              && fs.dirs == ResetDirs(EnsuredDirs(old(fs.dirs), varRoot))
    ensures !CanReset(EnsuredDirs(old(fs.dirs), varRoot)) ==>
              && |sent| == 1 && outcome == Raised("FileNotFoundError")
              && sleeps == (if ok(0) then [] else [InitialDelayMs])
              && FailedReset(old(fs.files), EnsuredDirs(old(fs.dirs), varRoot), fs.files, fs.dirs)
  {
    fs.EnsureTrainDirs(TrainRoot(varRoot));
    ghost var dirs0 := fs.dirs;
    var req := TrainingRequest(url);
    var backoff := InitialDelayMs;
    sent := [];
    sleeps := [];
    var attempt := 0;
    while attempt < MaxAttempts
      invariant 0 <= attempt <= MaxAttempts - 1
      invariant |sent| == attempt && forall k :: 0 <= k < attempt ==> sent[k] == req
      invariant forall j :: 0 <= j < attempt ==> !ok(j)
      invariant sleeps == Schedule(attempt) && backoff == Delay(attempt)
      invariant attempt == 0 ==> fs.files == old(fs.files) && fs.dirs == dirs0
      invariant attempt > 0 ==> CanReset(dirs0) && fs.files == WipedFiles(old(fs.files)) && fs.dirs == ResetDirs(dirs0)
    {
      sent := sent + [req];
      var succeeded := ok(attempt);
      var last := attempt == MaxAttempts - 1;
      if !succeeded && !last {
        sleeps := sleeps + [backoff];
        backoff := NextDelay(backoff);
      }
      var reset := ResetAfterAttempt(fs, old(fs.files), dirs0, attempt == 0);
      if !reset {
        assert attempt == 0;
        return sent, sleeps, Raised("FileNotFoundError");
      }
      if succeeded {
        return sent, sleeps, Returned(None);
      }
      if last {
        return sent, sleeps, Raised("RequestError");
      }
      attempt := attempt + 1;
    }
    assert false;
    outcome := Returned(Some(1));
  }

  /** Where the store sits under /out/var, the reset always runs: the loop behaves like start_ml_pipeline. */
  lemma DeployedLayoutResets(dirs: set<Path>)
    ensures CanReset(EnsuredDirs(dirs, ["out", "var"]))
  {
    var texts := TrainRoot(["out", "var"]) + ["texts"];
    assert texts[..3] == TrainDir && texts[..2] == Parent(TrainDir);
  }

  /**
   * The training data written under /out/var/train is deleted by the first attempt's `finally`, so
   * every retry, and the successful attempt itself when it is not the first, finds the directory empty.
   */
  lemma RetriesFindNoData(files: map<Path, FileData>, dirs: set<Path>)
    ensures forall p :: p in WipedFiles(files) ==> !IsPrefixPath(TrainRoot(["out", "var"]), p)
  {
    assert TrainRoot(["out", "var"]) == TrainDir;
  }
}
