/** The Fal.ai adapter of the web app (`web/lib/fal.ts`): submit a job, poll
    it until it settles or a minute has passed, then fetch the image it
    points to. */
module Fal {
  import opened Common
  import opened Strings

  /** How long `pollJob` keeps polling, and how long it waits between polls
      (milliseconds). */
  const TimeoutMs: nat := 60000
  const PollWaitMs: nat := 1200

  /** The reply to the submit request: its status and the job id it
      carries; or the error `fetch` threw instead. */
  datatype SubmitReply = SubmitReply(status: nat, jobId: string) | SubmitThrew(error: string)

  /** The `result` of a finished job: the `url` of `images[0]` and the `url`
      of `image`, each `""` when absent. */
  datatype JobResult = JobResult(firstImagesUrl: string, imageUrl: string)

  /** The reply to one poll: its status, the job status it reports, and the
      job's result; or the error `fetch` threw instead. */
  datatype PollReply = PollReply(status: nat, jobStatus: string, result: JobResult) | PollThrew(error: string)

  /** The reply to the fetch of the output image, or the error `fetch`
      threw instead. */
  datatype ImageReply = ImageReply(status: nat, body: seq<byte>) | ImageThrew(error: string)

  /** Everything the outside world answers during one `edit`. The clock is
      given by `delays`: the first loop check comes `delays(0)` ms after the
      start, and each later check comes 1200 ms (the wait) plus `delays(k)`
      ms (the poll itself) after the one before. */
  datatype Run = Run(submit: SubmitReply, polls: nat -> PollReply, delays: nat -> nat, image: ImageReply)

  /** Milliseconds elapsed since `t0` at the `k`-th check of the loop. */
  function Elapsed(delays: nat -> nat, k: nat): nat
  {
    if k == 0 then delays(0) else Elapsed(delays, k - 1) + PollWaitMs + delays(k)
  }

  /** Each wait moves the clock on by at least 1200 ms. */
  lemma {:induction false} ElapsedGrows(delays: nat -> nat, k: nat)
    ensures Elapsed(delays, k) >= PollWaitMs * k
  {
    if k > 0 {
      ElapsedGrows(delays, k - 1);
    }
  }

  /** No check after the 50th can fall inside the minute. */
  const MaxPolls: nat := 50

  lemma PollBound(delays: nat -> nat, k: nat)
    requires Elapsed(delays, k) < TimeoutMs
    ensures k < MaxPolls
  {
    ElapsedGrows(delays, k);
  }

  /** What `pollJob` yields when its `k`-th loop check is the next one. */
  function PollFrom(polls: nat -> PollReply, delays: nat -> nat, k: nat): (r: Result<JobResult>)
    decreases MaxPolls - k
  {
    if Elapsed(delays, k) >= TimeoutMs then Err("Fal job timeout")
    else
      PollBound(delays, k);
      var reply := polls(k);
      if reply.PollThrew? then Err(reply.error)
      else if !IsOkStatus(reply.status) then Err("Fal poll failed " + NatToString(reply.status))
      else if reply.jobStatus == "succeeded" then Ok(reply.result)
      else if reply.jobStatus == "failed" || reply.jobStatus == "error" then Err("Fal job failed")
      else PollFrom(polls, delays, k + 1)
  }

  /** The outcome of the whole poll loop. */
  function PollJob(polls: nat -> PollReply, delays: nat -> nat): (r: Result<JobResult>)
    ensures || r.Ok? || r.msg == "Fal job timeout" || r.msg == "Fal job failed" || StartsWith(r.msg, "Fal poll failed ")
            || exists j :: polls(j).PollThrew? && r.msg == polls(j).error
    ensures (forall i :: polls(i).PollReply? && IsOkStatus(polls(i).status) && polls(i).jobStatus == "running") ==>
      r == Err("Fal job timeout")
  {
    PollOutcomes(polls, delays, 0);
    RunningJobsTimeOut(polls, delays);
    PollFrom(polls, delays, 0)
  }

  /** The number of polls the loop makes from its `k`-th check on. */
  function PollsFrom(polls: nat -> PollReply, delays: nat -> nat, k: nat): (n: nat)
    requires k <= MaxPolls
    ensures k + n <= MaxPolls
    decreases MaxPolls - k
  {
    if Elapsed(delays, k) >= TimeoutMs then 0
    else
      PollBound(delays, k);
      var reply := polls(k);
      if reply.PollThrew? || !IsOkStatus(reply.status) || reply.jobStatus == "succeeded"
         || reply.jobStatus == "failed" || reply.jobStatus == "error" then 1
      else 1 + PollsFrom(polls, delays, k + 1)
  }

  /** A job that keeps running is given up once the minute is over: the
      outcome is the timeout, after at most 50 polls. */
  lemma {:induction false} RunningJobTimesOut(polls: nat -> PollReply, delays: nat -> nat, k: nat)
    requires forall i :: k <= i ==> polls(i).PollReply? && IsOkStatus(polls(i).status) && polls(i).jobStatus == "running"
    ensures PollFrom(polls, delays, k) == Err("Fal job timeout")
    decreases MaxPolls - k
  {
    if Elapsed(delays, k) < TimeoutMs {
      PollBound(delays, k);
      RunningJobTimesOut(polls, delays, k + 1);
    }
  }

  lemma RunningJobsTimeOut(polls: nat -> PollReply, delays: nat -> nat)
    ensures (forall i :: polls(i).PollReply? && IsOkStatus(polls(i).status) && polls(i).jobStatus == "running") ==>
      PollFrom(polls, delays, 0) == Err("Fal job timeout")
  {
    if forall i :: polls(i).PollReply? && IsOkStatus(polls(i).status) && polls(i).jobStatus == "running" {
      RunningJobTimesOut(polls, delays, 0);
    }
  }

  /** Whatever the replies, the loop settles with the job's result, one of
      the four errors, or the error a poll's `fetch` threw. */
  lemma {:induction false} PollOutcomes(polls: nat -> PollReply, delays: nat -> nat, k: nat)
    ensures var r := PollFrom(polls, delays, k);
      || r.Ok? || r.msg == "Fal job timeout" || r.msg == "Fal job failed" || StartsWith(r.msg, "Fal poll failed ")
      || exists j :: k <= j && polls(j).PollThrew? && r.msg == polls(j).error
    decreases MaxPolls - k
  {
    if Elapsed(delays, k) < TimeoutMs {
      PollBound(delays, k);
      var reply := polls(k);
      if reply.PollThrew? {
        assert PollFrom(polls, delays, k).msg == polls(k).error;
      } else if !IsOkStatus(reply.status) {
        var m := "Fal poll failed " + NatToString(reply.status);
        assert m[..|"Fal poll failed "|] == "Fal poll failed ";
      } else if reply.jobStatus != "succeeded" && reply.jobStatus != "failed" && reply.jobStatus != "error" {
        PollOutcomes(polls, delays, k + 1);
      }
    }
  }

  /** The URL of the output image: `images[0].url`, else `image.url`. */
  function OutputUrl(result: JobResult): (url: string)
    ensures result.firstImagesUrl != "" ==> url == result.firstImagesUrl
    ensures result.firstImagesUrl == "" ==> url == result.imageUrl
  {
    if result.firstImagesUrl != "" then result.firstImagesUrl else result.imageUrl
  }

  /** What `edit` yields for a key and the world's answers. */
  function EditOutcome(apiKey: string, run: Run): (r: Result<seq<byte>>)
    ensures apiKey == "" ==> r == Err("Missing Fal.ai API key")
    ensures r.Ok? <==> && apiKey != "" && run.submit.SubmitReply? && IsOkStatus(run.submit.status)
                       && PollJob(run.polls, run.delays).Ok? && OutputUrl(PollJob(run.polls, run.delays).value) != ""
                       && run.image.ImageReply? && IsOkStatus(run.image.status)
    ensures r.Ok? ==> r.value == run.image.body
  {
    if apiKey == "" then Err("Missing Fal.ai API key")
    else if run.submit.SubmitThrew? then Err(run.submit.error)
    else if !IsOkStatus(run.submit.status) then Err("Fal submit failed " + NatToString(run.submit.status))
    else
      match PollJob(run.polls, run.delays)
      case Err(msg) => Err(msg)
      case Ok(result) =>
        if OutputUrl(result) == "" then Err("Fal job returned no image")
        else
          match run.image
          case ImageThrew(error) => Err(error)
          case ImageReply(status, body) =>
            if !IsOkStatus(status) then Err("Fal image fetch failed " + NatToString(status)) else Ok(body)
  }

  /** A request `edit` sends: the submit (prompt and image), a poll of the
      job, or the fetch of the output image. */
  datatype Call =
    | SubmitCall(prompt: string, mime: string, image: seq<byte>)
    | PollCall(jobId: string)
    | FetchCall(url: string)

  /** `pollJob`: polls while less than the timeout has elapsed, waiting
      between polls; stops on a failed poll, a succeeded job or a failed job.
      `polled` is the number of polls made. */
  method PollJobLoop(jobId: string, polls: nat -> PollReply, delays: nat -> nat)
    returns (r: Result<JobResult>, polled: nat)
    ensures r == PollJob(polls, delays)
    ensures polled == PollsFrom(polls, delays, 0) && polled <= MaxPolls
  {
    var k := 0;
    while Elapsed(delays, k) < TimeoutMs
      invariant k <= MaxPolls
      invariant PollFrom(polls, delays, k) == PollFrom(polls, delays, 0)
      invariant k + PollsFrom(polls, delays, k) == PollsFrom(polls, delays, 0)
      decreases MaxPolls - k
    {
      PollBound(delays, k);
      var reply := polls(k);
      if reply.PollThrew? {
        return Err(reply.error), k + 1;
      }
      if !IsOkStatus(reply.status) {
        return Err("Fal poll failed " + NatToString(reply.status)), k + 1;
      }
      if reply.jobStatus == "succeeded" {
        return Ok(reply.result), k + 1;
      }
      if reply.jobStatus == "failed" || reply.jobStatus == "error" {
        return Err("Fal job failed"), k + 1;
      }
      k := k + 1;
    }
    r, polled := Err("Fal job timeout"), k;
  }

  /** `edit`: fails without a request when the key is missing, stops after
      the submit when it fails, and otherwise polls and fetches the image the
      job names, which it returns unchanged. */
  method Edit(imageBytes: seq<byte>, mime: string, prompt: string, apiKey: string, run: Run)
    returns (r: Result<seq<byte>>, calls: seq<Call>)
    ensures r == EditOutcome(apiKey, run)
    ensures apiKey == "" ==> calls == []
    ensures apiKey != "" ==> |calls| >= 1 && calls[0] == SubmitCall(prompt, mime, imageBytes)
    ensures apiKey != "" && (run.submit.SubmitThrew? || !IsOkStatus(run.submit.status)) ==>
              calls == [SubmitCall(prompt, mime, imageBytes)]
    ensures forall i :: 1 <= i < |calls| && calls[i].PollCall? ==> run.submit.SubmitReply? && calls[i].jobId == run.submit.jobId
    ensures |calls| <= 2 + MaxPolls
    ensures r.Ok? ==> run.image.ImageReply? && r.value == run.image.body && calls[|calls| - 1].FetchCall?
  {
    if apiKey == "" {
      return Err("Missing Fal.ai API key"), [];
    }
    calls := [SubmitCall(prompt, mime, imageBytes)];
    if run.submit.SubmitThrew? {
      return Err(run.submit.error), calls;
    }
    if !IsOkStatus(run.submit.status) {
      return Err("Fal submit failed " + NatToString(run.submit.status)), calls;
    }
    var jobId := run.submit.jobId;
    var result, polled := PollJobLoop(jobId, run.polls, run.delays);
    calls := calls + seq(polled, _ => PollCall(jobId));
    if result.Err? {
      return Err(result.msg), calls;
    }
    var url := OutputUrl(result.value);
    if url == "" {
      return Err("Fal job returned no image"), calls;
    }
    calls := calls + [FetchCall(url)];
    if run.image.ImageThrew? {
      return Err(run.image.error), calls;
    }
    if !IsOkStatus(run.image.status) {
      return Err("Fal image fetch failed " + NatToString(run.image.status)), calls;
    }
    r := Ok(run.image.body);
  }
}
