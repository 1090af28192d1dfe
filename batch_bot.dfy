/** The batch runner (`main` in `bot_once.py`): one pass over the latest
    comments, oldest first, under a per-run limit and a daily budget, with
    the ids already handled kept in a seen list. */
module BatchBot {
  import opened Common
  import opened Strings
  import BotText
  import BotFetch

  /** The daily usage record. */
  datatype Usage = Usage(day: string, count: int)

  /** On a new day the record restarts from 0. */
  function ResetDay(u: Usage, today: string): (r: Usage)
    ensures r.day == today
    ensures u.day != today ==> r.count == 0
    ensures u.day == today ==> r == u
  {
    if u.day != today then Usage(today, 0) else u
  }

  /** A comment as the runner sees it: its id and body ("" when missing), the
      submission's `url_overridden_by_dest` and `url` ("" when missing), the
      response to the image download, and whether the edit and the upload
      that follow it succeed. */
  datatype Comment = Comment(id: string, body: string, overrideUrl: string, url: string,
                             download: BotFetch.StreamReply, editOk: bool)

  /** `url_overridden_by_dest or url`. */
  function SubmissionUrl(c: Comment): string {
    if c.overrideUrl != "" then c.overrideUrl else c.url
  }

  /** The attempt (download, edit, upload) succeeds; failures are swallowed. */
  predicate Succeeds(c: Comment) {
    BotFetch.FetchOutcome(SubmissionUrl(c), c.download).Ok? && c.editOk
  }

  /** MAX_PER_RUN and MAX_CALLS_PER_DAY. */
  datatype Limits = Limits(maxPerRun: int, maxPerDay: int)

  datatype BatchState = BatchState(seen: seq<string>, usage: Usage, processedNow: int, stopped: bool)

  /** How many ids the seen list keeps. */
  const SeenKeep: nat := 5000

  /** What the loop body reads off a comment: its id, whether it carries an
      instruction, the link of its submission, and whether the attempt on
      it would succeed. */
  datatype Facts = Facts(id: string, instructed: bool, url: string, succeeds: bool)

  function FactsOf(c: Comment): (f: Facts)
    ensures f.id == c.id && f.url == SubmissionUrl(c)
    ensures f.instructed <==> BotText.ExtractBatch(c.body).Some?
    ensures f.succeeds <==> Succeeds(c)
  {
    Facts(c.id, BotText.ExtractBatch(c.body).Some?, SubmissionUrl(c), Succeeds(c))
  }

  function FactsSeq(cs: seq<Comment>): (fs: seq<Facts>)
    ensures |fs| == |cs| && forall k :: 0 <= k < |cs| ==> fs[k] == FactsOf(cs[k])
  {
    seq(|cs|, k requires 0 <= k < |cs| => FactsOf(cs[k]))
  }

  /** The comment reaches an attempt (the per-run limit not yet reached,
      a new id, an instruction, the daily budget left and a link) and the
      attempt succeeds: the edit the two counts record. */
  predicate EditCounts(lim: Limits, st: BatchState, c: Facts) {
    && st.processedNow < lim.maxPerRun && c.id != "" && c.id !in st.seen && c.instructed
    && st.usage.count < lim.maxPerDay && c.url != "" && c.succeeds
  }

  /** The loop `break`s at this comment: the per-run limit is reached, or a
      new instructed comment finds the daily budget spent. */
  predicate StopsAt(lim: Limits, st: BatchState, c: Facts) {
    || st.processedNow >= lim.maxPerRun
    || (c.id != "" && c.id !in st.seen && c.instructed && st.usage.count >= lim.maxPerDay)
  }

  /** One pass of the loop body. */
  function BatchStep(lim: Limits, st: BatchState, c: Facts): (r: BatchState)
    ensures r.usage.day == st.usage.day
    ensures r.usage.count - st.usage.count == r.processedNow - st.processedNow
    ensures r.processedNow <= Max(st.processedNow, lim.maxPerRun)
    ensures r.usage.count <= Max(st.usage.count, lim.maxPerDay)
    ensures r.seen == st.seen || (r.seen == st.seen + [c.id] && c.id != "" && c.id !in st.seen && c.instructed)
    ensures r.processedNow > st.processedNow ==> c.succeeds && r.seen == st.seen + [c.id]
    ensures r.processedNow == st.processedNow + (if EditCounts(lim, st, c) then 1 else 0)
    ensures r.usage.count == st.usage.count + (if EditCounts(lim, st, c) then 1 else 0)
    ensures r.stopped <==> StopsAt(lim, st, c) || (st.stopped && !EditCounts(lim, st, c))
  {
    if st.processedNow >= lim.maxPerRun then st.(stopped := true)
    else if c.id == "" || c.id in st.seen then st
    else if !c.instructed then st
    else if st.usage.count >= lim.maxPerDay then st.(stopped := true)
    else if c.url == "" then st.(seen := st.seen + [c.id])
    else if c.succeeds then
      BatchState(st.seen + [c.id], Usage(st.usage.day, st.usage.count + 1), st.processedNow + 1, false)
    else st.(seen := st.seen + [c.id])
  }

  /** The loop over the comments, until the end or a `break`. */
  function Run(lim: Limits, st: BatchState, cs: seq<Facts>): (r: BatchState)
    ensures st.seen <= r.seen
    ensures r.usage.day == st.usage.day
    ensures r.processedNow - st.processedNow <= |r.seen| - |st.seen| <= |cs|
    ensures st.stopped ==> r == st
    ensures r.stopped && !st.stopped ==> r.processedNow >= lim.maxPerRun || r.usage.count >= lim.maxPerDay
    decreases |cs|
  {
    if cs == [] || st.stopped then st else Run(lim, BatchStep(lim, st, cs[0]), cs[1..])
  }

  /** A comment without an instruction is not marked seen; one without a
      link is; one attempted is marked whether it succeeds or not. */
  lemma StepMarks(lim: Limits, st: BatchState, c: Comment)
    requires st.processedNow < lim.maxPerRun && c.id != "" && c.id !in st.seen
    ensures BotText.ExtractBatch(c.body).None? ==> BatchStep(lim, st, FactsOf(c)) == st
    ensures BotText.ExtractBatch(c.body).Some? && st.usage.count < lim.maxPerDay ==>
      BatchStep(lim, st, FactsOf(c)).seen == st.seen + [c.id]
  {
  }

  function Max(a: int, b: int): int { if a < b then b else a }

  /** The number of comments, up to the `break`, whose edit is counted. */
  function Successes(lim: Limits, st: BatchState, cs: seq<Facts>): nat
    decreases |cs|
  {
    if cs == [] || st.stopped then 0
    else (if EditCounts(lim, st, cs[0]) then 1 else 0) + Successes(lim, BatchStep(lim, st, cs[0]), cs[1..])
  }

  /** The usage count and the per-run count each rise by exactly one per
      successful edit made before the loop stops, and the day is left
      alone. */
  lemma {:induction false} RunCountsTogether(lim: Limits, st: BatchState, cs: seq<Facts>)
    ensures Run(lim, st, cs).processedNow == st.processedNow + Successes(lim, st, cs)
    ensures Run(lim, st, cs).usage.count == st.usage.count + Successes(lim, st, cs)
    ensures Run(lim, st, cs).usage.day == st.usage.day
    decreases |cs|
  {
    if cs != [] && !st.stopped {
      RunCountsTogether(lim, BatchStep(lim, st, cs[0]), cs[1..]);
    }
  }

  /** No more edits than the per-run limit allows. */
  lemma {:induction false} RunWithinPerRun(lim: Limits, st: BatchState, cs: seq<Facts>)
    ensures Run(lim, st, cs).processedNow <= Max(st.processedNow, lim.maxPerRun)
    decreases |cs|
  {
    if cs != [] && !st.stopped {
      RunWithinPerRun(lim, BatchStep(lim, st, cs[0]), cs[1..]);
    }
  }

  /** The daily count does not pass the budget. */
  lemma {:induction false} RunWithinBudget(lim: Limits, st: BatchState, cs: seq<Facts>)
    ensures Run(lim, st, cs).usage.count <= Max(st.usage.count, lim.maxPerDay)
    decreases |cs|
  {
    if cs != [] && !st.stopped {
      RunWithinBudget(lim, BatchStep(lim, st, cs[0]), cs[1..]);
    }
  }

  /** The ids of the comments that carry an instruction. */
  function InstructedIds(cs: seq<Facts>): set<string> {
    set c | c in cs && c.id != "" && c.instructed :: c.id
  }

  /** The seen list only grows, never takes an id twice, and takes only ids
      of comments with an instruction. */
  lemma {:induction false} RunSeen(lim: Limits, st: BatchState, cs: seq<Facts>)
    requires NoDuplicates(st.seen)
    ensures st.seen <= Run(lim, st, cs).seen
    ensures NoDuplicates(Run(lim, st, cs).seen)
    ensures forall k :: |st.seen| <= k < |Run(lim, st, cs).seen| ==> Run(lim, st, cs).seen[k] in InstructedIds(cs)
    decreases |cs|
  {
    if cs != [] && !st.stopped {
      var st1 := BatchStep(lim, st, cs[0]);
      assert NoDuplicates(st1.seen);
      RunSeen(lim, st1, cs[1..]);
      var r := Run(lim, st, cs);
      assert InstructedIds(cs[1..]) <= InstructedIds(cs) by {
        forall x | x in InstructedIds(cs[1..]) ensures x in InstructedIds(cs) {
          var c :| c in cs[1..] && c.id != "" && c.instructed && c.id == x;
          assert c in cs;
        }
      }
      forall k | |st.seen| <= k < |r.seen|
        ensures r.seen[k] in InstructedIds(cs)
      {
        if k < |st1.seen| {
          assert st1.seen == st.seen + [cs[0].id];
          assert cs[0] in cs;
        }
      }
    }
  }

  /** Every id counted as instructed is that of a fetched comment whose
      body carries an instruction. */
  lemma InstructedIdsOfComments(cs: seq<Comment>, x: string)
    requires x in InstructedIds(FactsSeq(cs))
    ensures exists c :: c in cs && c.id == x && BotText.ExtractBatch(c.body).Some?
  {
    var f :| f in FactsSeq(cs) && f.id != "" && f.instructed && f.id == x;
    var k :| 0 <= k < |cs| && FactsSeq(cs)[k] == f;
    assert cs[k] in cs;
  }

  function Reverse<T>(s: seq<T>): (r: seq<T>)
    ensures |r| == |s| && forall i :: 0 <= i < |s| ==> r[i] == s[|s| - 1 - i]
  {
    if s == [] then [] else Reverse(s[1..]) + [s[0]]
  }

  /** A whole run from the stored state: the day reset, the comments taken
      oldest first, the seen list cut to its latest ids. */
  function RunOnceSpec(seen: seq<string>, usage: Usage, today: string, fetched: seq<Comment>, lim: Limits): (seq<string>, Usage) {
    var final := Run(lim, BatchState(seen, ResetDay(usage, today), 0, false), FactsSeq(Reverse(fetched)));
    (LastN(final.seen, SeenKeep), final.usage)
  }

  /** What a run promises: the saved seen list is within its cap, the record
      is today's, and the count stays within the budget and the per-run
      limit. */
  lemma RunOnceBounds(seen: seq<string>, usage: Usage, today: string, fetched: seq<Comment>, lim: Limits)
    ensures |RunOnceSpec(seen, usage, today, fetched, lim).0| <= SeenKeep
    ensures RunOnceSpec(seen, usage, today, fetched, lim).1.day == today
    ensures RunOnceSpec(seen, usage, today, fetched, lim).1.count <= Max(ResetDay(usage, today).count, lim.maxPerDay)
    ensures RunOnceSpec(seen, usage, today, fetched, lim).1.count <= ResetDay(usage, today).count + Max(0, lim.maxPerRun)
  {
    var st := BatchState(seen, ResetDay(usage, today), 0, false);
    var cs := FactsSeq(Reverse(fetched));
    RunCountsTogether(lim, st, cs);
    RunWithinPerRun(lim, st, cs);
    RunWithinBudget(lim, st, cs);
  }

  /** The `try` block: the download, then the edit; any failure is
      swallowed. */
  method Attempt(c: Comment) returns (ok: bool)
    requires SubmissionUrl(c) != ""
    ensures ok <==> BotFetch.FetchOutcome(SubmissionUrl(c), c.download).Ok? && c.editOk
  {
    var got, _ := BotFetch.FetchImage(SubmissionUrl(c), c.download);
    ok := got.Ok? && c.editOk;
  }

  /** The loop body on one comment; `stop` is a `break`. */
  method Visit(lim: Limits, ids: seq<string>, day: string, count: int, processedNow: int, c: Comment)
    returns (ids': seq<string>, count': int, processedNow': int, stop: bool)
    ensures BatchState(ids', Usage(day, count'), processedNow', stop)
         == BatchStep(lim, BatchState(ids, Usage(day, count), processedNow, false), FactsOf(c))
  {
    ghost var st := BatchState(ids, Usage(day, count), processedNow, false);
    ids', count', processedNow', stop := ids, count, processedNow, false;
    if processedNow >= lim.maxPerRun {
      stop := true;
      return;
    }
    if c.id == "" || c.id in ids {
      return;
    }
    var instr := BotText.ExtractBatch(c.body);
    if instr.None? {
      return;
    }
    if count >= lim.maxPerDay {
      stop := true;
      return;
    }
    var ok := false;
    if SubmissionUrl(c) != "" {
      ok := Attempt(c);
    }
    if ok {
      count' := count + 1;
      processedNow' := processedNow + 1;
    }
    ids' := ids + [c.id];
  }

  /** One unfolding of the loop on a non-empty rest. */
  lemma RunUnfold(lim: Limits, st: BatchState, cs: seq<Facts>, i: nat)
    requires i < |cs| && !st.stopped
    ensures Run(lim, st, cs[i..]) == Run(lim, BatchStep(lim, st, cs[i]), cs[i + 1..])
  {
    assert cs[i..][0] == cs[i] && cs[i..][1..] == cs[i + 1..];
  }

  /** The `for` loop over the comments, oldest first, from a fresh per-run
      count. */
  method VisitAll(lim: Limits, seen: seq<string>, day: string, count0: int, comments: seq<Comment>)
    returns (ids: seq<string>, count: int)
    ensures ids == Run(lim, BatchState(seen, Usage(day, count0), 0, false), FactsSeq(comments)).seen
    ensures Usage(day, count) == Run(lim, BatchState(seen, Usage(day, count0), 0, false), FactsSeq(comments)).usage
  {
    ids, count := seen, count0;
    var processedNow := 0;
    ghost var facts := FactsSeq(comments);
    ghost var final := Run(lim, BatchState(seen, Usage(day, count0), 0, false), facts);
    var i := 0;
    while i < |comments|
      invariant 0 <= i <= |comments|
      invariant final == Run(lim, BatchState(ids, Usage(day, count), processedNow, false), facts[i..])
    {
      RunUnfold(lim, BatchState(ids, Usage(day, count), processedNow, false), facts, i);
      var stop;
      ids, count, processedNow, stop := Visit(lim, ids, day, count, processedNow, comments[i]);
      if stop {
        break;
      }
      i := i + 1;
    }
    assert i == |comments| ==> facts[i..] == [];
  }

  /** `main` of the batch runner, after the stored state is loaded. */
  method RunOnce(seen: seq<string>, usage: Usage, today: string, fetched: seq<Comment>, lim: Limits)
    returns (seenOut: seq<string>, usageOut: Usage)
    ensures (seenOut, usageOut) == RunOnceSpec(seen, usage, today, fetched, lim)
  {
    var u := usage;
    if u.day != today {
      u := Usage(today, 0);
    }
    var comments := Reverse(fetched);
    assert u == ResetDay(usage, today);
    var ids, count := VisitAll(lim, seen, u.day, u.count, comments);
    seenOut := if |ids| <= SeenKeep then ids else ids[|ids| - SeenKeep..];
    usageOut := Usage(u.day, count);
    assert seenOut == LastN(ids, SeenKeep);
  }
}
