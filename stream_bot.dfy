/** The streaming bot's guardrails (`stream_and_reply` in `main.py`): for each
    comment that mentions the bot, the dedupe record, the hourly window, the
    allowlist, the per-user cooldown and the hourly cap, then the checks that
    come before the edit request. */
module StreamBot {
  import opened Common
  import opened Strings
  import BotText
  import BotFetch

  /** The settings read once per stream: MAX_CALLS_PER_HOUR,
      USER_COOLDOWN_SECONDS, whether RATE_LIMIT_MODE is `reply`, the
      RATE_LIMIT_MESSAGE and the allowlist. */
  datatype Config = Config(maxCallsPerHour: int, cooldown: int, replyMode: bool,
                           rateLimitMessage: string, allowed: set<string>)

  /** ALLOWED_USERS: the comma-separated names, stripped and lower-cased,
      blanks dropped. */
  function AllowList(env: string): (r: set<string>)
    ensures "" !in r
    ensures env == "" ==> r == {}
  {
    assert env == "" ==> Split(env, ',') == [""];
    set u | u in Split(env, ',') && PyStrip(u) != "" :: Lower(PyStrip(u))
  }

  /** `RATE_LIMIT_MODE`, lower-cased, is `reply`. */
  function ReplyMode(env: string): bool {
    Lower(env) == "reply"
  }

  /** A comment of the stream: its id, its body and its author's name, ""
      when the author is gone. */
  datatype Comment = Comment(id: string, body: string, author: string)

  const CooldownReply: string := "🍌 cooldown active — try again soon!"

  /** What the bot does with a comment; a skip may carry the reply it posts
      in reply mode. */
  datatype Decision =
    | NoMention
    | Duplicate
    | NotAllowed
    | Cooldown(reply: Option<string>)
    | HourlyCap(reply: Option<string>)
    | Accepted(author: string)

  /** The four trackers. */
  datatype Tracker = Tracker(processed: set<string>, lastCall: map<string, real>,
                             windowStart: real, callsThisHour: int)

  /** The case-insensitive mention test the stream applies first. */
  predicate Mentions(body: string) {
    Contains(Lower(body), BotText.UserMention) || Contains(Lower(body), BotText.AtMention)
  }

  function AuthorName(author: string): string {
    if author == "" then "anonymous" else author
  }

  /** The hourly window after a call at `now`: restarted once an hour or more
      has passed. */
  function Window(t: Tracker, now: real): (real, int) {
    if now - t.windowStart >= 3600.0 then (now, 0) else (t.windowStart, t.callsThisHour)
  }

  /** The time of `author`'s last call, 0 when never seen. */
  function LastCall(t: Tracker, author: string): real {
    if author in t.lastCall then t.lastCall[author] else 0.0
  }

  /** One comment of the stream at time `now`: the new trackers and the
      decision. */
  function Step(cfg: Config, t: Tracker, c: Comment, now: real): (r: (Tracker, Decision))
    ensures t.processed <= r.0.processed
    ensures Mentions(c.body) ==> c.id in r.0.processed
    ensures !r.1.Accepted? ==> r.0.lastCall == t.lastCall
    ensures r.1.Accepted? ==> && r.1.author == AuthorName(c.author)
                              && now - LastCall(t, r.1.author) >= cfg.cooldown as real
                              && r.0.lastCall == t.lastCall[r.1.author := now]
                              && r.0.callsThisHour == Window(t, now).1 + 1
    ensures 0 <= cfg.maxCallsPerHour && t.callsThisHour <= cfg.maxCallsPerHour ==>
      r.0.callsThisHour <= cfg.maxCallsPerHour
  {
    if !Mentions(c.body) then (t, NoMention)
    else if c.id in t.processed then (t, Duplicate)
    else
      var processed := t.processed + {c.id};
      var (start, calls) := Window(t, now);
      var seen := Tracker(processed, t.lastCall, start, calls);
      var author := AuthorName(c.author);
      if cfg.allowed != {} && Lower(author) !in cfg.allowed then (seen, NotAllowed)
      else if now - LastCall(t, author) < cfg.cooldown as real then
        (seen, Cooldown(if cfg.replyMode then Some(CooldownReply) else None))
      else if cfg.maxCallsPerHour >= 0 && calls >= cfg.maxCallsPerHour then
        (seen, HourlyCap(if cfg.replyMode then Some(cfg.rateLimitMessage) else None))
      else (Tracker(processed, t.lastCall[author := now], start, calls + 1), Accepted(author))
  }

  /** A mentioning comment's id is recorded before any other check, and the
      record only grows; a comment already recorded changes nothing. */
  lemma StepRecordsId(cfg: Config, t: Tracker, c: Comment, now: real)
    ensures t.processed <= Step(cfg, t, c, now).0.processed
    ensures Mentions(c.body) ==> c.id in Step(cfg, t, c, now).0.processed
    ensures Mentions(c.body) && c.id in t.processed ==> Step(cfg, t, c, now) == (t, Duplicate)
    ensures !Mentions(c.body) ==> Step(cfg, t, c, now) == (t, NoMention)
  {
  }

  /** With a non-negative cap, the hourly count never passes it. */
  lemma StepKeepsCap(cfg: Config, t: Tracker, c: Comment, now: real)
    requires 0 <= cfg.maxCallsPerHour && t.callsThisHour <= cfg.maxCallsPerHour
    ensures Step(cfg, t, c, now).0.callsThisHour <= cfg.maxCallsPerHour
  {
  }

  /** A negative cap disables the hourly limit. */
  lemma NegativeCapNeverLimits(cfg: Config, t: Tracker, c: Comment, now: real)
    requires cfg.maxCallsPerHour < 0
    ensures !Step(cfg, t, c, now).1.HourlyCap?
  {
  }

  /** A skipped author leaves the per-user record alone, and the hourly count
      moves only by a window restart. */
  lemma SkipsKeepTrackers(cfg: Config, t: Tracker, c: Comment, now: real)
    requires !Step(cfg, t, c, now).1.Accepted?
    ensures Step(cfg, t, c, now).0.lastCall == t.lastCall
    ensures Step(cfg, t, c, now).0.callsThisHour == t.callsThisHour || Step(cfg, t, c, now).0.callsThisHour == 0
  {
  }

  /** An accepted call passed every guard, and it stamps its author and
      counts one call. */
  lemma AcceptedPassedGuards(cfg: Config, t: Tracker, c: Comment, now: real)
    requires Step(cfg, t, c, now).1.Accepted?
    ensures Mentions(c.body) && c.id !in t.processed
    ensures cfg.allowed == {} || Lower(AuthorName(c.author)) in cfg.allowed
    ensures now - LastCall(t, AuthorName(c.author)) >= cfg.cooldown as real
    ensures Step(cfg, t, c, now).0.lastCall == t.lastCall[AuthorName(c.author) := now]
    ensures Step(cfg, t, c, now).0.callsThisHour == Window(t, now).1 + 1
    ensures cfg.maxCallsPerHour < 0 || Window(t, now).1 < cfg.maxCallsPerHour
  {
  }

  /** An hour after the window opened, a new mentioning comment restarts it. */
  lemma WindowRestarts(cfg: Config, t: Tracker, c: Comment, now: real)
    requires Mentions(c.body) && c.id !in t.processed && now - t.windowStart >= 3600.0
    ensures Step(cfg, t, c, now).0.windowStart == now
    ensures Step(cfg, t, c, now).0.callsThisHour <= 1
  {
  }

  /** The decisions over a stream of comments with their arrival times. */
  function Run(cfg: Config, t: Tracker, cs: seq<(Comment, real)>): (ds: seq<Decision>)
    ensures |ds| == |cs|
    decreases |cs|
  {
    if cs == [] then []
    else
      var (t1, d) := Step(cfg, t, cs[0].0, cs[0].1);
      [d] + Run(cfg, t1, cs[1..])
  }

  /** Every decision of a run from a tracker that already recorded `id`
      is a skip as a duplicate or for want of a mention. */
  lemma {:induction false} RecordedStaysSkipped(cfg: Config, t: Tracker, cs: seq<(Comment, real)>, id: string, j: nat)
    requires id in t.processed && j < |cs| && cs[j].0.id == id
    ensures Run(cfg, t, cs)[j] == Duplicate || Run(cfg, t, cs)[j] == NoMention
    decreases |cs|
  {
    var t1 := Step(cfg, t, cs[0].0, cs[0].1).0;
    StepRecordsId(cfg, t, cs[0].0, cs[0].1);
    if j > 0 {
      RecordedStaysSkipped(cfg, t1, cs[1..], id, j - 1);
    }
  }

  /** Each comment is handled at most once: once a comment with some id got
      past the mention test, every later comment with that id is skipped. */
  lemma {:induction false} HandledAtMostOnce(cfg: Config, t: Tracker, cs: seq<(Comment, real)>, i: nat, j: nat)
    requires i < j < |cs| && cs[i].0.id == cs[j].0.id
    requires Run(cfg, t, cs)[i] != NoMention
    ensures Run(cfg, t, cs)[j] == Duplicate || Run(cfg, t, cs)[j] == NoMention
    decreases |cs|
  {
    var t1 := Step(cfg, t, cs[0].0, cs[0].1).0;
    StepRecordsId(cfg, t, cs[0].0, cs[0].1);
    if i == 0 {
      RecordedStaysSkipped(cfg, t1, cs[1..], cs[0].0.id, j - 1);
    } else {
      HandledAtMostOnce(cfg, t1, cs[1..], i - 1, j - 1);
    }
  }

  /** The stream's mutable trackers. */
  class StreamBot {
    const cfg: Config
    var processed: set<string>
    var lastCall: map<string, real>
    var windowStart: real
    var callsThisHour: int

    function State(): Tracker
      reads this
    {
      Tracker(processed, lastCall, windowStart, callsThisHour)
    }

    /** The trackers as the stream starts at `start`. */
    constructor (cfg: Config, start: real)
      ensures this.cfg == cfg
      ensures State() == Tracker({}, map[], start, 0)
    {
      this.cfg := cfg;
      processed := {};
      lastCall := map[];
      windowStart := start;
      callsThisHour := 0;
    }

    /** The guard part of one pass of the stream loop. */
    method OnComment(c: Comment, now: real) returns (d: Decision)
      modifies this
      ensures (State(), d) == Step(cfg, old(State()), c, now)
    {
      var low := Lower(c.body);
      if !(Contains(low, BotText.UserMention) || Contains(low, BotText.AtMention)) {
        return NoMention;
      }
      if c.id in processed {
        return Duplicate;
      }
      processed := processed + {c.id};
      if now - windowStart >= 3600.0 {
        windowStart := now;
        callsThisHour := 0;
      }
      var author := if c.author == "" then "anonymous" else c.author;
      if cfg.allowed != {} && Lower(author) !in cfg.allowed {
        return NotAllowed;
      }
      var last := if author in lastCall then lastCall[author] else 0.0;
      if now - last < cfg.cooldown as real {
        return Cooldown(if cfg.replyMode then Some(CooldownReply) else None);
      }
      if cfg.maxCallsPerHour >= 0 && callsThisHour >= cfg.maxCallsPerHour {
        return HourlyCap(if cfg.replyMode then Some(cfg.rateLimitMessage) else None);
      }
      lastCall := lastCall[author := now];
      callsThisHour := callsThisHour + 1;
      d := Accepted(author);
    }
  }

  const DefaultInstruction: string := "convert the image to grayscale"
  const PromptLead: string := "Transform the provided image according to this instruction: "
  const PromptTail: string := ". Requirements: output an edited image only; return ONLY a PNG image as inline data; no textual responses; keep resolution similar to the input."

  /** The instruction of a comment, or the grayscale default. */
  function Instruction(body: string): (r: string)
    ensures BotText.ExtractStream(body).None? ==> r == DefaultInstruction
    ensures BotText.ExtractStream(body).Some? ==> r == BotText.ExtractStream(body).value
  {
    match BotText.ExtractStream(body)
    case None => DefaultInstruction
    case Some(s) => s
  }

  /** The edit prompt around an instruction. */
  function EditPrompt(instruction: string): (p: string)
    ensures StartsWith(p, PromptLead) && EndsWith(p, PromptTail)
    ensures |p| == |PromptLead| + |instruction| + |PromptTail|
    ensures p[|PromptLead|..|p| - |PromptTail|] == instruction
  {
    ConcatEnds(PromptLead + instruction, PromptTail);
    StartsWithPrefix(PromptLead + instruction + PromptTail, PromptLead, instruction);
    PromptLead + instruction + PromptTail
  }

  /** The request the accepted comment leads to. */
  datatype EditRequest = EditRequest(prompt: string, mime: string, image: seq<byte>)

  /** The steps between acceptance and the model call: a submission link is
      needed, then the capped download. */
  function Job(url: string, body: string, reply: BotFetch.StreamReply): (r: Result<EditRequest>)
    ensures url == "" ==> r == Err("No image URL found")
    ensures url != "" && BotFetch.BotMime(BotFetch.UrlExtension(url)).None? ==> r == Err(BotFetch.Unsupported)
    ensures r.Ok? ==> r.value.prompt == EditPrompt(Instruction(body))
    ensures r.Ok? ==> r.value.image == BotFetch.Flatten(reply.chunks) && |r.value.image| <= BotFetch.MaxSize
    ensures r.Ok? ==> r.value.mime == "image/png" || r.value.mime == "image/jpeg"
  {
    if url == "" then Err("No image URL found")
    else
      match BotFetch.FetchOutcome(url, reply)
      case Err(msg) => Err(msg)
      case Ok((bytes, mime)) => Ok(EditRequest(EditPrompt(Instruction(body)), mime, bytes))
  }
}
