// The task that starts the OCR pipeline for an uploaded group (backend/src/tasks/ml_tasks.py).
module MlTasks {
  import opened Wrappers
  import opened Text
  import opened Backoff

  /** The GET sent to the OCR service: its URL and the query parameters before URL encoding. */
  datatype MlRequest = MlRequest(url: string, source: string, dst: string, callback: string)

  const MaxAttempts: nat := 6

  /** `url.rstrip("/") + "/"`: the service URL ending in exactly one slash. */
  function ServiceUrl(url: string): (r: string)
    ensures r != [] && r[|r| - 1] == '/'
    ensures |r| == 1 || r[|r| - 2] != '/'
    ensures r[..|r| - 1] <= url && forall i :: |r| - 1 <= i < |url| ==> url[i] == '/'
  {
    TrimRightChar(url, '/') + "/"
  }

  /** The OCR callback: the backend base URL without trailing slashes, followed by the callback path. */
  function OcrCallbackUrl(backendBase: string, callbackPath: string): (r: string)
    ensures EndsWith(r, callbackPath)
  {
    var b := TrimRightChar(backendBase, '/');
    assert (b + callbackPath)[|b|..] == callbackPath;
    b + callbackPath
  }

  /** The request start_ml_pipeline sends for a group: raw_data in, process out. */
  function PipelineRequest(gid: string, mlUrl: string, backendBase: string, callbackPath: string): (r: MlRequest)
    ensures r.source == "/out/var/data/groups/" + gid + "/raw_data/"
    ensures r.dst == "/out/var/data/groups/" + gid + "/process/"
  {
    MlRequest(ServiceUrl(mlUrl), "/out/var/data/groups/" + gid + "/raw_data/",
              "/out/var/data/groups/" + gid + "/process/", OcrCallbackUrl(backendBase, callbackPath))
  }

  /**
   * start_ml_pipeline: up to six attempts at the same GET, ok(k) telling whether the k-th succeeds.
   * It returns at the first success; after a failure it sleeps the back-off delay, except after the
   * sixth failure, which is raised.
   */
  method StartMlPipeline(gid: string, mlUrl: string, backendBase: string, callbackPath: string, ok: nat -> bool)
    returns (sent: seq<MlRequest>, sleeps: seq<nat>, outcome: Outcome)
    ensures 1 <= |sent| <= MaxAttempts
    ensures forall k :: 0 <= k < |sent| ==> sent[k] == PipelineRequest(gid, mlUrl, backendBase, callbackPath)
    ensures outcome.Returned? <==> FirstOk(ok, MaxAttempts).Some?
    ensures outcome.Returned? ==> outcome.value == None && |sent| == FirstOk(ok, MaxAttempts).value + 1 && ok(|sent| - 1)
    ensures outcome.Raised? ==> |sent| == MaxAttempts && outcome.error == "RequestError"
    ensures sleeps == Schedule(|sent| - 1)
    ensures Sum(sleeps) <= 15500
  {
    var req := PipelineRequest(gid, mlUrl, backendBase, callbackPath);
    var backoff := InitialDelayMs;
    sent := [];
    sleeps := [];
    var attempt := 0;
    while attempt < MaxAttempts
      invariant 0 <= attempt <= MaxAttempts - 1
      invariant |sent| == attempt && forall k :: 0 <= k < attempt ==> sent[k] == req
      invariant forall j :: 0 <= j < attempt ==> !ok(j)
      invariant sleeps == Schedule(attempt) && backoff == Delay(attempt)
    {
      sent := sent + [req];
      if ok(attempt) {
        ScheduleSumBound(attempt);
        return sent, sleeps, Returned(None);
      }
      if attempt == MaxAttempts - 1 {
        ScheduleSumBound(attempt);
        return sent, sleeps, Raised("RequestError");
      }
      sleeps := sleeps + [backoff];
      backoff := NextDelay(backoff);
      attempt := attempt + 1;
    }
    assert false;
    outcome := Returned(None);
  }

  /** Whatever the outcomes, the delays slept are 0.5, 1, 2, 4 and 8 s, a prefix of them in order. */
  lemma PipelineDelays(n: nat)
    requires n <= MaxAttempts - 1
    ensures Schedule(n) == [500, 1000, 2000, 4000, 8000][..n]
  {
    forall k | 0 <= k < n
      ensures Schedule(n)[k] == [500, 1000, 2000, 4000, 8000][k]
    {
      DelayValues(k);
    }
  }
}
