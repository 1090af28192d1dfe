/** The evaluation runner's helpers (`eval_runner.py`): the download with
    its one retry and extension-based mime, the narration summary, and the
    optional narration. */
module EvalRunner {
  import opened Common
  import opened Strings
  import BotFetch

  /** The mime of an extension, with a generic fallback. */
  function EvalMime(ext: string): (m: string)
    ensures ext == "jpg" || ext == "jpeg" ==> m == "image/jpeg"
    ensures ext == "png" ==> m == "image/png"
    ensures ext == "webp" ==> m == "image/webp"
    ensures ext == "svg" ==> m == "image/svg+xml"
    ensures !(ext in {"jpg", "jpeg", "png", "webp", "svg"}) ==> m == "application/octet-stream"
  {
    if ext == "jpg" || ext == "jpeg" then "image/jpeg"
    else if ext == "png" then "image/png"
    else if ext == "webp" then "image/webp"
    else if ext == "svg" then "image/svg+xml"
    else "application/octet-stream"
  }

  /** Where the bots accept a URL, the runner infers the same type. */
  lemma EvalMimeExtendsBotMime(url: string)
    requires BotFetch.BotMime(BotFetch.UrlExtension(url)).Some?
    ensures EvalMime(BotFetch.UrlExtension(url)) == BotFetch.BotMime(BotFetch.UrlExtension(url)).value
  {
  }

  /** A reply: its status and body. */
  datatype Reply = Reply(status: int, content: seq<byte>)

  const WikimediaHost: string := "upload.wikimedia.org"

  /** A 403 from the Wikimedia upload host earns one retry with a Referer. */
  predicate Retries(url: string, first: Reply) {
    first.status == 403 && Contains(url, WikimediaHost)
  }

  /** `_fetch`: the outcome and the number of requests made. */
  function FetchOutcome(url: string, first: Reply, retry: Reply): (r: (Result<(seq<byte>, string)>, nat))
    ensures r.1 == (if Retries(url, first) then 2 else 1)
    ensures r.0.Ok? ==> r.0.value.1 == EvalMime(BotFetch.UrlExtension(url))
    ensures !Retries(url, first) ==> (r.0.Ok? <==> !BotFetch.RaisesForStatus(first.status))
    ensures Retries(url, first) ==> (r.0.Ok? <==> !BotFetch.RaisesForStatus(retry.status))
  {
    var final := if Retries(url, first) then retry else first;
    var n := if Retries(url, first) then 2 else 1;
    if BotFetch.RaisesForStatus(final.status) then (Err(BotFetch.HttpFailure), n)
    else (Ok((final.content, EvalMime(BotFetch.UrlExtension(url)))), n)
  }

  /** The retry is used once at most: a second 403 fails. */
  lemma NoSecondRetry(url: string, first: Reply, retry: Reply)
    requires Retries(url, first) && retry.status == 403
    ensures FetchOutcome(url, first, retry).0.Err?
    ensures FetchOutcome(url, first, retry).1 == 2
  {
  }

  /** `_fetch` step by step. */
  method Fetch(url: string, first: Reply, retry: Reply) returns (r: Result<(seq<byte>, string)>, requests: nat)
    ensures (r, requests) == FetchOutcome(url, first, retry)
  {
    var res := first;
    requests := 1;
    if res.status == 403 && Contains(url, WikimediaHost) {
      res := retry;
      requests := 2;
    }
    if BotFetch.RaisesForStatus(res.status) {
      return Err(BotFetch.HttpFailure), requests;
    }
    r := Ok((res.content, EvalMime(BotFetch.UrlExtension(url))));
  }

  /** The payload of a case: its instruction and its panel texts. */
  datatype Payload = Payload(instruction: string, panels: seq<string>)

  /** `narr_summary_for`. */
  function NarrSummary(mode: string, payload: Payload): (s: string)
    ensures mode == "edit" ==> s == "Edit: " + payload.instruction
    ensures mode == "blend" ==> s == "Blend: " + payload.instruction
    ensures mode == "comic" ==> s == "Comic: " + Join(payload.panels, " — ")
    ensures !(mode in {"edit", "blend", "comic"}) ==> s == "Result"
  {
    if mode == "edit" then "Edit: " + payload.instruction
    else if mode == "blend" then "Blend: " + payload.instruction
    else if mode == "comic" then "Comic: " + Join(payload.panels, " — ")
    else "Result"
  }

  /** The three modes a case can have. */
  predicate IsKnownMode(mode: string) {
    mode == "edit" || mode == "blend" || mode == "comic"
  }

  /** A summary tells which of the three modes it describes, is never the
      fallback, and gives back the instruction of an edit or a blend. */
  lemma SummaryDeterminesMode(m1: string, p1: Payload, m2: string, p2: Payload)
    requires IsKnownMode(m1) && IsKnownMode(m2)
    requires NarrSummary(m1, p1) == NarrSummary(m2, p2)
    ensures m1 == m2
    ensures NarrSummary(m1, p1) != "Result"
    ensures m1 != "comic" ==> p1.instruction == p2.instruction
  {
    var s := NarrSummary(m1, p1);
    var lead := if m1 == "edit" then "Edit: " else if m1 == "blend" then "Blend: " else "Comic: ";
    var lead2 := if m2 == "edit" then "Edit: " else if m2 == "blend" then "Blend: " else "Comic: ";
    assert s[0] == lead[0] && s[0] == lead2[0];
    if m1 != "comic" {
      assert s[|lead|..] == p1.instruction;
      assert NarrSummary(m2, p2)[|lead|..] == p2.instruction;
    }
  }

  /** `narrate_optional`: without a key nothing is requested and nothing is
      returned; with one, the speech reply's body, or an error for a failed
      status. */
  method NarrateOptional(apiKey: string, reply: Reply) returns (r: Result<Option<seq<byte>>>, requested: bool)
    ensures requested <==> apiKey != ""
    ensures apiKey == "" ==> r == Ok(None)
    ensures apiKey != "" ==> r == (if BotFetch.RaisesForStatus(reply.status) then Err(BotFetch.HttpFailure) else Ok(Some(reply.content)))
  {
    if apiKey == "" {
      return Ok(None), false;
    }
    requested := true;
    if BotFetch.RaisesForStatus(reply.status) {
      return Err(BotFetch.HttpFailure), requested;
    }
    r := Ok(Some(reply.content));
  }
}
