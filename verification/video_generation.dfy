/** The video-job client: three proxy calls that turn a failed invocation
    into an error with a call-specific message, the multipart form sent to
    create a job, and the completion poller.

    The proxy (`supabase.functions.invoke`) is not modelled; each call's
    answer is a parameter. The poller's status source is a finite trace of
    those answers, one per status check; `setTimeout` is modelled by adding
    the interval to a waited-time counter. */
module VideoGeneration {
  import opened Outcomes
  import opened Text

  datatype JobStatus = Queued | InProgress | Completed | Failed

  /** A snapshot of a remote job; each status check yields a new one. */
  datatype VideoJob = VideoJob(
    id: string,
    status: JobStatus,
    progress: Option<int>,
    model: Option<string>,
    size: Option<string>,
    seconds: Option<string>)

  datatype VideoResult = VideoResult(success: bool, filePath: string, publicUrl: string, videoId: string)

  /** What a proxy invocation hands back: its data, or an error whose
      `message` the caller reports. */
  datatype Invocation<T> = Data(data: T) | InvokeError(message: string)

  predicate IsTerminal(s: JobStatus)
  {
    s == Completed || s == Failed
  }

  const CreateErrorPrefix := "Failed to create video: "
  const CheckErrorPrefix := "Failed to check video status: "
  const DownloadErrorPrefix := "Failed to download video: "
  const GenerationFailed := "Video generation failed"
  /** The wait between two status checks, in milliseconds. */
  const PollIntervalMs := 10000

  /** The shared shape of the three call helpers: data passes through, an
      invocation error becomes an error whose message is `prefix` followed
      by the proxy's message. */
  function Wrap<T>(prefix: string, answer: Invocation<T>): (r: Result<T, string>)
    ensures answer.Data? <==> r.Ok?
    ensures answer.Data? ==> r.value == answer.data
    ensures answer.InvokeError? ==>
      && StartsWith(r.error, prefix)
      && r.error[|prefix|..] == answer.message
  {
    match answer
    case Data(d) => Ok(d)
    case InvokeError(m) =>
      assert (prefix + m)[..|prefix|] == prefix;
      Err(prefix + m)
  }

  /** `createVideoJob`'s handling of the proxy's answer. */
  function CreateVideoJobResult(answer: Invocation<VideoJob>): (r: Result<VideoJob, string>)
    ensures answer.Data? <==> r.Ok?
    ensures answer.Data? ==> r.value == answer.data
    ensures answer.InvokeError? ==> r.error == CreateErrorPrefix + answer.message
  {
    Wrap(CreateErrorPrefix, answer)
  }

  /** `checkVideoStatus`. */
  function CheckVideoStatus(answer: Invocation<VideoJob>): (r: Result<VideoJob, string>)
    ensures answer.Data? <==> r.Ok?
    ensures answer.Data? ==> r.value == answer.data
    ensures answer.InvokeError? ==> r.error == CheckErrorPrefix + answer.message
  {
    Wrap(CheckErrorPrefix, answer)
  }

  /** `downloadAndStoreVideo`. */
  function DownloadAndStoreVideo(answer: Invocation<VideoResult>): (r: Result<VideoResult, string>)
    ensures answer.Data? <==> r.Ok?
    ensures answer.Data? ==> r.value == answer.data
    ensures answer.InvokeError? ==> r.error == DownloadErrorPrefix + answer.message
  {
    Wrap(DownloadErrorPrefix, answer)
  }

  /** The three helpers' errors can be told apart by their first words, and
      the proxy's message can be read back from each. */
  lemma CallErrorsDistinct(create: string, check: string, download: string)
    ensures var c1 := CreateVideoJobResult(InvokeError(create)).error;
            var c2 := CheckVideoStatus(InvokeError(check)).error;
            var c3 := DownloadAndStoreVideo(InvokeError(download)).error;
            && StartsWith(c1, CreateErrorPrefix) && !StartsWith(c1, CheckErrorPrefix) && !StartsWith(c1, DownloadErrorPrefix)
            && StartsWith(c2, CheckErrorPrefix) && !StartsWith(c2, CreateErrorPrefix) && !StartsWith(c2, DownloadErrorPrefix)
            && StartsWith(c3, DownloadErrorPrefix) && !StartsWith(c3, CreateErrorPrefix) && !StartsWith(c3, CheckErrorPrefix)
            && c1[|CreateErrorPrefix|..] == create
            && c2[|CheckErrorPrefix|..] == check
            && c3[|DownloadErrorPrefix|..] == download
  {
    var c1 := CreateErrorPrefix + create;
    var c2 := CheckErrorPrefix + check;
    var c3 := DownloadErrorPrefix + download;
    assert c1[..|CreateErrorPrefix|] == CreateErrorPrefix;
    assert c2[..|CheckErrorPrefix|] == CheckErrorPrefix;
    assert c3[..|DownloadErrorPrefix|] == DownloadErrorPrefix;
    assert c1[10] == 'c' && c2[10] == 'c' && c3[10] == 'd';
    assert c1[11] == 'r' && c2[11] == 'h';
    assert CheckErrorPrefix[10] == 'c' && CheckErrorPrefix[11] == 'h';
    assert CreateErrorPrefix[10] == 'c' && CreateErrorPrefix[11] == 'r';
    assert DownloadErrorPrefix[10] == 'd';
  }

  // ---------------------------------------------------------------------------
  // The create-job request

  /** One entry of the multipart form sent to the create-video proxy. */
  datatype FormField =
    | TextField(name: string, value: string)
    | FileField(name: string, content: seq<bv8>, filename: string)

  /** The form `createVideoJob` builds. In the source `if (options.image)`
      tests for a present Blob, and every Blob object is truthy, even an
      empty one, so presence alone decides. */
  function CreateVideoForm(prompt: string, image: Option<seq<bv8>>): (form: seq<FormField>)
    ensures |form| >= 1 && form[0] == TextField("prompt", prompt)
    ensures image.None? ==> |form| == 1
    ensures image.Some? ==> |form| == 2 && form[1] == FileField("image", image.value, "reference.jpg")
  {
    [TextField("prompt", prompt)]
    + (if image.Some? then [FileField("image", image.value, "reference.jpg")] else [])
  }

  /** The form carries an image file exactly when an image was supplied. */
  lemma CreateVideoFormImage(prompt: string, image: Option<seq<bv8>>)
    ensures (exists i :: 0 <= i < |CreateVideoForm(prompt, image)|
                         && CreateVideoForm(prompt, image)[i].FileField?)
            <==> image.Some?
    ensures forall i :: 0 <= i < |CreateVideoForm(prompt, image)| && CreateVideoForm(prompt, image)[i].FileField? ==>
              CreateVideoForm(prompt, image)[i] == FileField("image", image.value, "reference.jpg")
  {
    var form := CreateVideoForm(prompt, image);
    if image.Some? {
      assert form[1].FileField?;
    }
  }

  // ---------------------------------------------------------------------------
  // The completion poller

  /** How a poll ends: the promise resolves with the completed snapshot, it
      rejects with an error message, or (in this finite model) the answers
      ran out before a terminal state was seen. */
  datatype PollEnd = Resolved(job: VideoJob) | Rejected(message: string) | StillPolling

  /** Everything observable about one run of `pollForVideoCompletion`:
      how it ends, the snapshots passed to the progress callback, in order,
      the number of status checks made and the total time slept. */
  datatype PollRun = PollRun(end: PollEnd, reported: seq<VideoJob>, checks: nat, waitedMs: nat)

  /** Whether answer `a` stops the poll: a failed status check, or a
      snapshot in a terminal state. */
  predicate StopsPoll(a: Invocation<VideoJob>)
  {
    a.InvokeError? || IsTerminal(a.data.status)
  }

  /** `pollForVideoCompletion(videoId, onProgress)` over the answers the
      status proxy gives, one per check; `hasCallback` says whether
      `onProgress` was supplied. Each check reports the snapshot before
      testing it; a non-terminal snapshot is followed by a 10 s wait and the
      next check. */
  function Poll(answers: seq<Invocation<VideoJob>>, hasCallback: bool): (run: PollRun)
    ensures run.checks <= |answers|
    ensures run.waitedMs == PollIntervalMs * (if run.end.StillPolling? then run.checks else run.checks - 1)
    ensures run.end.StillPolling? <==> run.checks == |answers| && forall i :: 0 <= i < |answers| ==> !StopsPoll(answers[i])
    decreases |answers|
  {
    if |answers| == 0 then PollRun(StillPolling, [], 0, 0)
    else
      match CheckVideoStatus(answers[0])
      case Err(e) => PollRun(Rejected(e), [], 1, 0)
      case Ok(job) =>
        var reported := if hasCallback then [job] else [];
        if job.status == Completed then PollRun(Resolved(job), reported, 1, 0)
        else if job.status == Failed then PollRun(Rejected(GenerationFailed), reported, 1, 0)
        else
          var rest := Poll(answers[1..], hasCallback);
          assert forall i :: 1 <= i < |answers| ==> answers[i] == answers[1..][i - 1];
          PollRun(rest.end, reported + rest.reported, rest.checks + 1, rest.waitedMs + PollIntervalMs)
  }

  /** The poll is decided by the first answer that stops it, at position
      `k`: the run makes k + 1 checks, sleeps 10 000 ms after each of the k
      non-terminal ones, reports every snapshot it received (the terminal
      one included) when a callback is supplied, and ends by resolving with
      a completed snapshot, rejecting with "Video generation failed" on a
      failed one, or rejecting with the status-check error. */
  lemma {:induction false} PollStopsAtFirstStop(answers: seq<Invocation<VideoJob>>, hasCallback: bool, k: nat)
    requires k < |answers| && StopsPoll(answers[k])
    requires forall i :: 0 <= i < k ==> !StopsPoll(answers[i])
    ensures var run := Poll(answers, hasCallback);
      && run.checks == k + 1
      && run.waitedMs == PollIntervalMs * k
      && (answers[k].Data? && answers[k].data.status == Completed ==> run.end == Resolved(answers[k].data))
      && (answers[k].Data? && answers[k].data.status == Failed ==> run.end == Rejected(GenerationFailed))
      && (answers[k].InvokeError? ==> run.end == Rejected(CheckErrorPrefix + answers[k].message))
      && |run.reported| == (if !hasCallback then 0 else if answers[k].InvokeError? then k else k + 1)
      && forall i :: 0 <= i < |run.reported| ==> answers[i].Data? && run.reported[i] == answers[i].data
    decreases k
  {
    if k > 0 {
      var tail := answers[1..];
      assert forall i :: 0 <= i < k - 1 ==> tail[i] == answers[i + 1];
      PollStopsAtFirstStop(tail, hasCallback, k - 1);
      var rest := Poll(tail, hasCallback);
      var run := Poll(answers, hasCallback);
      assert !StopsPoll(answers[0]);
      var reported := if hasCallback then [answers[0].data] else [];
      assert run.reported == reported + rest.reported;
      forall i | 0 <= i < |run.reported|
        ensures answers[i].Data? && run.reported[i] == answers[i].data
      {
        if hasCallback && i > 0 {
          assert run.reported[i] == rest.reported[i - 1];
          assert tail[i - 1] == answers[i];
        }
      }
    }
  }

  /** Without a terminal answer the poller never settles: over n
      non-terminal snapshots it checks n times, waits n intervals and
      reports all n snapshots. */
  lemma {:induction false} PollWithoutTerminal(answers: seq<Invocation<VideoJob>>, hasCallback: bool)
    requires forall i :: 0 <= i < |answers| ==> !StopsPoll(answers[i])
    ensures var run := Poll(answers, hasCallback);
      && run.end == StillPolling
      && run.checks == |answers|
      && run.waitedMs == PollIntervalMs * |answers|
      && |run.reported| == (if hasCallback then |answers| else 0)
      && forall i :: 0 <= i < |run.reported| ==> run.reported[i] == answers[i].data
    decreases |answers|
  {
    if |answers| > 0 {
      var tail := answers[1..];
      assert forall i :: 0 <= i < |tail| ==> tail[i] == answers[i + 1];
      PollWithoutTerminal(tail, hasCallback);
      var run := Poll(answers, hasCallback);
      var rest := Poll(tail, hasCallback);
      forall i | 0 <= i < |run.reported| ensures run.reported[i] == answers[i].data {
        if i > 0 {
          assert run.reported[i] == rest.reported[i - 1];
        }
      }
    }
  }

  /** Answers after the one that stops the poll are never consulted. */
  lemma {:induction false} PollIgnoresLaterAnswers(answers: seq<Invocation<VideoJob>>, later: seq<Invocation<VideoJob>>, hasCallback: bool)
    requires exists i :: 0 <= i < |answers| && StopsPoll(answers[i])
    ensures Poll(answers + later, hasCallback) == Poll(answers, hasCallback)
    decreases |answers|
  {
    if !StopsPoll(answers[0]) {
      assert (answers + later)[1..] == answers[1..] + later;
      var i :| 0 <= i < |answers| && StopsPoll(answers[i]);
      assert answers[1..][i - 1] == answers[i];
      PollIgnoresLaterAnswers(answers[1..], later, hasCallback);
    }
  }
}
