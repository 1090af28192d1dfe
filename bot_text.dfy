/** How the two Reddit bots read an instruction out of a comment that
    mentions them: the streaming bot (`main.py`) and the batch runner
    (`bot_once.py`). */
module BotText {
  import opened Common
  import opened Strings

  const AtMention: string := "@bananas"
  const UserMention: string := "u/bananas"

  /** Longest instruction either bot passes on. */
  const MaxInstruction: nat := 300

  /** `re.search(r"(@bananas|u/bananas)", s)` from index `k`: where the first
      mention starts. */
  function MentionFrom(s: string, k: nat): (r: Option<nat>)
    requires k <= |s|
    ensures r.Some? ==> k <= r.value && (OccursAt(s, AtMention, r.value) || OccursAt(s, UserMention, r.value))
    ensures forall j :: k <= j && (r.None? || j < r.value) ==> !OccursAt(s, AtMention, j) && !OccursAt(s, UserMention, j)
    decreases |s| - k
  {
    if OccursAt(s, AtMention, k) || OccursAt(s, UserMention, k) then Some(k)
    else if k == |s| then None
    else MentionFrom(s, k + 1)
  }

  /** A mention is found exactly when the text contains one. */
  lemma MentionFound(s: string)
    ensures MentionFrom(s, 0).Some? <==> Contains(s, AtMention) || Contains(s, UserMention)
  {
    var r := MentionFrom(s, 0);
    if r.Some? {
      if OccursAt(s, AtMention, r.value) {
        assert Contains(s, AtMention);
      } else {
        assert Contains(s, UserMention);
      }
    }
  }

  /** The end of the mention that starts at `i` (`m.end()`). */
  function MentionEnd(s: string, i: nat): (e: nat)
    requires OccursAt(s, AtMention, i) || OccursAt(s, UserMention, i)
    ensures i < e <= |s|
  {
    if OccursAt(s, AtMention, i) then i + |AtMention| else i + |UserMention|
  }

  /** The first index from `k` holding a closing quote or a line break: the
      lazy `.*?` stops at the first closing quote and cannot cross `\n`. */
  function CloseAfter(t: string, closes: char -> bool, k: nat): (j: nat)
    requires k <= |t|
    ensures k <= j <= |t|
    ensures j < |t| ==> closes(t[j]) || t[j] == '\n'
    ensures forall i :: k <= i < j ==> !closes(t[i]) && t[i] != '\n'
    decreases |t| - k
  {
    if k == |t| || closes(t[k]) || t[k] == '\n' then k else CloseAfter(t, closes, k + 1)
  }

  /** `re.search(open + "(.*?)" + close, t)` from index `k`: the text between
      the first opening quote that is closed on its own line and that
      closing quote. */
  function QuotedFrom(t: string, opens: char -> bool, closes: char -> bool, k: nat): (r: Option<string>)
    requires k <= |t|
    ensures r.Some? ==> forall i :: 0 <= i < |r.value| ==> !closes(r.value[i]) && r.value[i] != '\n'
    decreases |t| - k
  {
    if k == |t| then None
    else if opens(t[k]) then
      var j := CloseAfter(t, closes, k + 1);
      if j < |t| && closes(t[j]) then Some(t[k + 1..j]) else QuotedFrom(t, opens, closes, k + 1)
    else QuotedFrom(t, opens, closes, k + 1)
  }

  /** A text with no opening quote before a quoted segment yields that
      segment. */
  lemma {:induction false} QuotedFindsFirst(a: string, q: char, s: string, e: char, b: string,
                                            opens: char -> bool, closes: char -> bool, k: nat)
    requires k <= |a|
    requires forall i :: k <= i < |a| ==> !opens(a[i])
    requires opens(q) && closes(e)
    requires forall i :: 0 <= i < |s| ==> !closes(s[i]) && s[i] != '\n'
    ensures QuotedFrom(a + [q] + s + [e] + b, opens, closes, k) == Some(s)
    decreases |a| - k
  {
    var t := a + [q] + s + [e] + b;
    if k == |a| {
      assert t[k] == q;
      var j := CloseAfter(t, closes, k + 1);
      forall i | k + 1 <= i < k + 1 + |s|
        ensures t[i] == s[i - k - 1]
      {
      }
      assert t[k + 1 + |s|] == e;
      assert j == k + 1 + |s|;
      assert t[k + 1..j] == s;
    } else {
      assert t[k] == a[k];
      QuotedFindsFirst(a, q, s, e, b, opens, closes, k + 1);
    }
  }

  /** `s[:n]`. */
  function Take(s: string, n: nat): (r: string)
    ensures |r| == if |s| < n then |s| else n
    ensures StartsWith(s, r)
  {
    if |s| <= n then s else s[..n]
  }

  /** The characters of `s` that are not whitespace, in order. */
  function NonSpace(s: string): string {
    if s == [] then []
    else (if IsPySpace(s[0]) then [] else [s[0]]) + NonSpace(s[1..])
  }

  lemma {:induction false} NonSpaceConcat(a: string, b: string)
    ensures NonSpace(a + b) == NonSpace(a) + NonSpace(b)
    decreases |a|
  {
    if a != [] {
      assert (a + b)[1..] == a[1..] + b;
      NonSpaceConcat(a[1..], b);
    } else {
      assert a + b == b;
    }
  }

  lemma {:induction false} NonSpaceEmpty(s: string)
    ensures NonSpace(s) == [] <==> forall i :: 0 <= i < |s| ==> IsPySpace(s[i])
    decreases |s|
  {
    if s != [] {
      NonSpaceEmpty(s[1..]);
      assert forall i :: 1 <= i < |s| ==> s[i] == s[1..][i - 1];
    }
  }

  /** Collapsing whitespace runs keeps every other character, in order. */
  lemma {:induction false} NonSpaceCollapse(s: string)
    ensures NonSpace(CollapseSpaces(s)) == NonSpace(s)
    decreases |s|
  {
    if s != [] {
      if IsPySpace(s[0]) {
        var n := SkipFrom(s, IsPySpace, 0);
        NonSpaceCollapse(s[n..]);
        assert s == s[..n] + s[n..];
        NonSpaceConcat(s[..n], s[n..]);
        NonSpaceEmpty(s[..n]);
        NonSpaceConcat(" ", CollapseSpaces(s[n..]));
        assert NonSpace(" ") == [];
      } else {
        NonSpaceCollapse(s[1..]);
        NonSpaceConcat([s[0]], CollapseSpaces(s[1..]));
        assert NonSpace([s[0]]) == [s[0]];
      }
    }
  }

  /** `strip()` removes only whitespace. */
  lemma NonSpaceStrip(s: string)
    ensures NonSpace(PyStrip(s)) == NonSpace(s)
  {
    var a := StripStart(s, IsPySpace);
    var b := StripEnd(s, IsPySpace);
    var front, mid, back := s[..a], s[a..b], s[b..];
    assert PyStrip(s) == mid;
    assert s == front + mid + back;
    assert forall i :: 0 <= i < |front| ==> IsPySpace(front[i]);
    assert forall i :: 0 <= i < |back| ==> IsPySpace(back[i]) by {
      forall i | 0 <= i < |back| ensures IsPySpace(back[i]) {
        assert back[i] == s[b + i];
      }
    }
    NonSpaceEmpty(front);
    NonSpaceEmpty(back);
    NonSpaceBetween(front, mid, back);
  }

  /** Text around `mid` that holds only whitespace adds nothing. */
  lemma NonSpaceBetween(front: string, mid: string, back: string)
    requires NonSpace(front) == [] && NonSpace(back) == []
    ensures NonSpace(front + mid + back) == NonSpace(mid)
  {
    NonSpaceConcat(front + mid, back);
    NonSpaceConcat(front, mid);
  }

  /** Cutting keeps a prefix of the text. */
  lemma NonSpaceTake(s: string, n: nat)
    ensures NonSpace(Take(s, n)) <= NonSpace(s)
  {
    if |s| > n {
      assert s == s[..n] + s[n..];
      NonSpaceConcat(s[..n], s[n..]);
    }
  }

  /** Whitespace is plain single spaces, never two in a row, never leading. */
  ghost predicate Normalized(s: string) {
    && (forall i :: 0 <= i < |s| ==> IsPySpace(s[i]) ==> s[i] == ' ')
    && (forall i :: 0 <= i < |s| - 1 ==> !(s[i] == ' ' && s[i + 1] == ' '))
    && (s != [] ==> !IsPySpace(s[0]))
  }

  /** `re.sub(r"\s+", " ", c).strip()`, refused when empty, then `[:300]`. */
  function Sanitize(candidate: string): (r: Option<string>)
    ensures r.Some? ==> 0 < |r.value| <= MaxInstruction && Normalized(r.value)
  {
    var x := CollapseSpaces(candidate);
    var c := PyStrip(x);
    if c == "" then None
    else
      StripCollapsedNormalized(x);
      TakeNormalized(c, MaxInstruction);
      Some(Take(c, MaxInstruction))
  }

  /** Stripping a text whose whitespace is already collapsed leaves it
      normalised. */
  lemma StripCollapsedNormalized(x: string)
    requires forall i :: 0 <= i < |x| ==> IsPySpace(x[i]) ==> x[i] == ' '
    requires forall i :: 0 <= i < |x| - 1 ==> !(x[i] == ' ' && x[i + 1] == ' ')
    ensures Normalized(PyStrip(x))
  {
    var a := StripStart(x, IsPySpace);
    var b := StripEnd(x, IsPySpace);
    assert PyStrip(x) == x[a..b];
    forall i | 0 <= i < b - a ensures IsPySpace(x[a..b][i]) ==> x[a..b][i] == ' ' {
      assert x[a..b][i] == x[a + i];
    }
    forall i | 0 <= i && i + 1 < b - a ensures !(x[a..b][i] == ' ' && x[a..b][i + 1] == ' ') {
      assert x[a..b][i] == x[a + i] && x[a..b][i + 1] == x[a + i + 1];
    }
  }

  /** A prefix of a normalised text is normalised. */
  lemma TakeNormalized(c: string, n: nat)
    requires Normalized(c)
    ensures Normalized(Take(c, n))
  {
    var t := Take(c, n);
    forall i | 0 <= i < |t| ensures t[i] == c[i] {
      assert StartsWith(c, t);
    }
  }

  /** Sanitizing refuses exactly the blank candidates, and what it returns
      is the candidate's text, cut at the length bound. */
  lemma SanitizeKeepsText(candidate: string)
    ensures Sanitize(candidate).None? <==> NonSpace(candidate) == []
    ensures Sanitize(candidate).Some? ==> NonSpace(Sanitize(candidate).value) <= NonSpace(candidate)
    ensures Sanitize(candidate).Some? && |PyStrip(CollapseSpaces(candidate))| <= MaxInstruction ==>
      NonSpace(Sanitize(candidate).value) == NonSpace(candidate)
  {
    var c := PyStrip(CollapseSpaces(candidate));
    NonSpaceCollapse(candidate);
    NonSpaceStrip(CollapseSpaces(candidate));
    NonSpaceEmpty(c);
    NonSpaceTake(c, MaxInstruction);
  }

  /** The quote characters of the streaming bot, opening or closing. */
  predicate IsStreamQuote(c: char) {
    c == '"' || c == '\'' || c == '“' || c == '”'
  }

  /** `strip(" \t:-—,>\n\r\f\v")`. */
  predicate IsFallbackStrip(c: char) {
    c == ' ' || c == '\t' || c == ':' || c == '-' || c == '—' || c == ',' || c == '>'
    || c == '\n' || c == '\r' || c == '\U{000C}' || c == '\U{000B}'
  }

  /** What the streaming bot takes from the text after the mention: a
      non-blank quoted segment, else the rest stripped of separators. */
  function StreamCandidate(tail: string): string {
    var q := QuotedFrom(tail, IsStreamQuote, IsStreamQuote, 0);
    if q.Some? && PyStrip(q.value) != "" then PyStrip(q.value) else Strip(tail, IsFallbackStrip)
  }

  /** `_extract_instruction` of the streaming bot: the candidate after the
      first mention, whitespace collapsed, trimmed, at most 300 characters. */
  function ExtractStream(text: string): (r: Option<string>)
    ensures r.Some? ==> 0 < |r.value| <= MaxInstruction && Normalized(r.value)
  {
    if text == "" then None
    else
      var low := Lower(text);
      match MentionFrom(low, 0)
      case None => None
      case Some(_) =>
        var candidate := StreamCandidate(StreamTail(text));
        if candidate == "" then None else Sanitize(candidate)
  }

  /** Nothing is read from a comment without a mention, in any casing. */
  lemma StreamNeedsMention(text: string)
    requires ExtractStream(text).Some?
    ensures Contains(Lower(text), AtMention) || Contains(Lower(text), UserMention)
  {
    MentionFound(Lower(text));
  }

  /** A text that opens with the mention has it found at once. */
  lemma MentionAtStart(rest: string)
    ensures MentionFrom(Lower(AtMention + rest), 0) == Some(0)
    ensures MentionEnd(Lower(AtMention + rest), 0) == |AtMention|
  {
    LowerConcat(AtMention, rest);
    assert Lower(AtMention) == AtMention;
    assert Lower(AtMention + rest)[0..|AtMention|] == AtMention;
  }

  /** A quoted segment after quote-free text is the candidate. */
  lemma QuotedCandidate(a: string, q: char, s: string, e: char, b: string)
    requires forall i :: 0 <= i < |a| ==> !IsStreamQuote(a[i])
    requires IsStreamQuote(q) && IsStreamQuote(e)
    requires forall i :: 0 <= i < |s| ==> !IsStreamQuote(s[i]) && s[i] != '\n'
    requires PyStrip(s) != ""
    ensures StreamCandidate(a + [q] + s + [e] + b) == PyStrip(s)
  {
    QuotedFindsFirst(a, q, s, e, b, IsStreamQuote, IsStreamQuote, 0);
  }

  /** The text after the first mention, as the streaming bot cuts it. */
  function StreamTail(text: string): string
    requires MentionFrom(Lower(text), 0).Some?
  {
    text[MentionEnd(Lower(text), MentionFrom(Lower(text), 0).value)..]
  }

  /** A non-blank quoted segment in the tail after the first mention, with no
      quote before it, gives the instruction: the segment stripped, its
      whitespace collapsed, cut to 300 characters. */
  lemma StreamQuoteWins(text: string, a: string, q: char, s: string, e: char, b: string)
    requires MentionFrom(Lower(text), 0).Some?
    requires StreamTail(text) == a + [q] + s + [e] + b
    requires forall i :: 0 <= i < |a| ==> !IsStreamQuote(a[i])
    requires IsStreamQuote(q) && IsStreamQuote(e)
    requires forall i :: 0 <= i < |s| ==> !IsStreamQuote(s[i]) && s[i] != '\n'
    requires PyStrip(s) != ""
    ensures ExtractStream(text) == Sanitize(PyStrip(s))
    ensures ExtractStream(text).Some? && NonSpace(ExtractStream(text).value) <= NonSpace(s)
  {
    QuotedCandidate(a, q, s, e, b);
    NonSpaceStrip(s);
    NonSpaceEmpty(PyStrip(s));
    SanitizeKeepsText(PyStrip(s));
  }

  /** Without a non-blank quoted segment in the tail, the streaming bot reads
      the tail stripped of separators: nothing when that is empty or blank,
      else its text with whitespace collapsed and trimmed, cut to 300
      characters. */
  lemma StreamTailFallback(text: string)
    requires MentionFrom(Lower(text), 0).Some?
    requires var q := QuotedFrom(StreamTail(text), IsStreamQuote, IsStreamQuote, 0);
      q.None? || PyStrip(q.value) == ""
    ensures var c := Strip(StreamTail(text), IsFallbackStrip);
      && ExtractStream(text) == (if c == "" then None else Sanitize(c))
      && (ExtractStream(text).None? <==> NonSpace(c) == [])
      && (ExtractStream(text).Some? ==>
            Normalized(ExtractStream(text).value) && NonSpace(ExtractStream(text).value) <= NonSpace(c))
  {
    SanitizeKeepsText(Strip(StreamTail(text), IsFallbackStrip));
  }

  /** The batch runner's opening and closing quotes. */
  predicate IsBatchOpen(c: char) { c == '"' || c == '“' }
  predicate IsBatchClose(c: char) { c == '"' || c == '”' }

  /** `_extract_instruction` of the batch runner: a mention is required, a
      non-blank quoted segment anywhere in the text wins (stripped, at most
      300 characters), else the text after the first mention, whitespace
      collapsed and trimmed, at most 300 characters, or nothing. */
  function ExtractBatch(text: string): (r: Option<string>)
    ensures r.Some? ==> 0 < |r.value| <= MaxInstruction && !IsPySpace(r.value[0])
  {
    if text == "" then None
    else
      var low := Lower(text);
      match MentionFrom(low, 0)
      case None => None
      case Some(i) =>
        var q := QuotedFrom(text, IsBatchOpen, IsBatchClose, 0);
        if q.Some? && PyStrip(q.value) != "" then Some(Take(PyStrip(q.value), MaxInstruction))
        else Sanitize(text[MentionEnd(low, i)..])
  }

  /** Without a non-blank quoted segment the batch runner reads the text
      after the first mention: nothing when it is blank, else its text with
      whitespace collapsed and trimmed, cut at 300 characters. */
  lemma BatchTail(text: string)
    requires MentionFrom(Lower(text), 0).Some?
    requires var q := QuotedFrom(text, IsBatchOpen, IsBatchClose, 0); q.None? || PyStrip(q.value) == ""
    ensures var low := Lower(text);
      var tail := text[MentionEnd(low, MentionFrom(low, 0).value)..];
      && ExtractBatch(text) == Sanitize(tail)
      && (ExtractBatch(text).None? <==> NonSpace(tail) == [])
      && (ExtractBatch(text).Some? ==>
            Normalized(ExtractBatch(text).value) && NonSpace(ExtractBatch(text).value) <= NonSpace(tail))
  {
    var low := Lower(text);
    SanitizeKeepsText(text[MentionEnd(low, MentionFrom(low, 0).value)..]);
  }

  /** A non-blank quoted segment wins wherever it stands, before or after the
      mention, as long as no opening quote comes before it. */
  lemma BatchQuoteWins(a: string, q: char, s: string, e: char, b: string)
    requires forall i :: 0 <= i < |a| ==> !IsBatchOpen(a[i])
    requires IsBatchOpen(q) && IsBatchClose(e)
    requires forall i :: 0 <= i < |s| ==> !IsBatchClose(s[i]) && s[i] != '\n'
    requires PyStrip(s) != ""
    requires Contains(Lower(a + [q] + s + [e] + b), AtMention) || Contains(Lower(a + [q] + s + [e] + b), UserMention)
    ensures ExtractBatch(a + [q] + s + [e] + b) == Some(Take(PyStrip(s), MaxInstruction))
  {
    MentionFound(Lower(a + [q] + s + [e] + b));
    QuotedFindsFirst(a, q, s, e, b, IsBatchOpen, IsBatchClose, 0);
  }

  lemma BatchNeedsMention(text: string)
    requires ExtractBatch(text).Some?
    ensures Contains(Lower(text), AtMention) || Contains(Lower(text), UserMention)
  {
    MentionFound(Lower(text));
  }

  /** A text with the mention somewhere has a first mention. */
  lemma MentionInside(pre: string, b: string)
    ensures MentionFrom(Lower(pre + AtMention + b), 0).Some?
  {
    var text := pre + AtMention + b;
    LowerConcat(pre + AtMention, b);
    LowerConcat(pre, AtMention);
    assert Lower(AtMention) == AtMention;
    var low := Lower(text);
    assert low[|pre|..|pre| + |AtMention|] == AtMention;
    assert OccursAt(low, AtMention, |pre|);
  }

  /** Unlike the streaming bot, the batch runner takes a quoted segment even
      when it comes before the mention. */
  lemma BatchQuoteBeforeMention(s: string, b: string)
    requires forall i :: 0 <= i < |s| ==> !IsBatchClose(s[i]) && s[i] != '\n'
    requires PyStrip(s) != ""
    ensures ExtractBatch(['"'] + s + ['"'] + AtMention + b) == Some(Take(PyStrip(s), MaxInstruction))
  {
    var pre := ['"'] + s + ['"'];
    MentionInside(pre, b);
    assert pre + AtMention + b == [] + ['"'] + s + ['"'] + (AtMention + b);
    MentionFound(Lower(pre + AtMention + b));
    BatchQuoteWins([], '"', s, '"', AtMention + b);
  }
}
