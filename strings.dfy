/** String helpers with the semantics of the JavaScript and Python built-ins the
    source calls: `trim`/`strip`, `toLowerCase`/`lower`, `includes`/`in`,
    `split`, `rsplit`, `join`, `endsWith`, and `re.sub(r"\s+", " ", s)`. */
module Strings {

  /** ECMAScript WhiteSpace and LineTerminator: the characters `trim()` removes
      and `\s` matches. */
  predicate IsJsSpace(c: char) {
    c == ' ' || c == '\t' || c == '\n' || c == '\r' || c == '\U{000B}' || c == '\U{000C}'
    || c == '\U{00A0}' || c == '\U{1680}' || ('\U{2000}' <= c <= '\U{200A}')
    || c == '\U{2028}' || c == '\U{2029}' || c == '\U{202F}' || c == '\U{205F}'
    || c == '\U{3000}' || c == '\U{FEFF}'
  }

  /** Python `str.isspace()`: the characters `strip()` removes and `\s` matches. */
  predicate IsPySpace(c: char) {
    c == ' ' || ('\t' <= c <= '\r') || ('\U{001C}' <= c <= '\U{001F}')
    || c == '\U{0085}' || c == '\U{00A0}' || c == '\U{1680}' || ('\U{2000}' <= c <= '\U{200A}')
    || c == '\U{2028}' || c == '\U{2029}' || c == '\U{202F}' || c == '\U{205F}' || c == '\U{3000}'
  }

  predicate IsAsciiUpper(c: char) { 'A' <= c <= 'Z' }

  /** ASCII case mapping of `toLowerCase()` / `lower()`. */
  function LowerChar(c: char): (r: char)
    ensures !IsAsciiUpper(r)
    ensures IsAsciiUpper(c) ==> r as int == c as int + 32
    ensures !IsAsciiUpper(c) ==> r == c
  {
    if IsAsciiUpper(c) then (c as int + 32) as char else c
  }

  function Lower(s: string): (r: string)
    ensures |r| == |s|
    ensures forall i :: 0 <= i < |s| ==> r[i] == LowerChar(s[i])
  {
    seq(|s|, i requires 0 <= i < |s| => LowerChar(s[i]))
  }

  /** A string without upper-case letters is its own lower case. */
  lemma LowerOfLowerCase(s: string)
    requires forall i :: 0 <= i < |s| ==> !IsAsciiUpper(s[i])
    ensures Lower(s) == s
  {
    assert forall i :: 0 <= i < |s| ==> Lower(s)[i] == s[i];
  }

  lemma LowerConcat(a: string, b: string)
    ensures Lower(a + b) == Lower(a) + Lower(b)
  {
    assert forall i :: 0 <= i < |a + b| ==> Lower(a + b)[i] == (Lower(a) + Lower(b))[i];
  }

  predicate StartsWith(s: string, p: string) { |p| <= |s| && s[..|p|] == p }

  predicate EndsWith(s: string, p: string) { |p| <= |s| && s[|s| - |p|..] == p }

  /** A concatenation starts with its first part and ends with its second. */
  lemma ConcatEnds(a: string, b: string)
    ensures StartsWith(a + b, a) && EndsWith(a + b, b)
  {
    assert (a + b)[..|a|] == a;
    assert (a + b)[|a + b| - |b|..] == b;
  }

  /** A text that starts with `a + b` starts with `a`. */
  lemma StartsWithPrefix(s: string, a: string, b: string)
    requires StartsWith(s, a + b)
    ensures StartsWith(s, a)
  {
    assert s[..|a|] == (a + b)[..|a|];
  }

  lemma ConcatAssoc(a: string, b: string, c: string)
    ensures a + b + c == a + (b + c)
  {
  }

  /** `s.includes(sub)` / Python `sub in s`. */
  predicate Contains(s: string, sub: string) {
    exists i :: 0 <= i <= |s| - |sub| && OccursAt(s, sub, i)
  }

  /** `sub` appears in `s` starting at index `i`. */
  predicate OccursAt(s: string, sub: string, i: int) {
    0 <= i && i + |sub| <= |s| && s[i..i + |sub|] == sub
  }

  lemma ContainsAt(s: string, sub: string, i: nat)
    requires i + |sub| <= |s| && s[i..i + |sub|] == sub
    ensures Contains(s, sub)
  {
    assert OccursAt(s, sub, i);
  }

  /** Text that contains `sub` still contains it once more text is put around it. */
  lemma ContainsExtend(a: string, s: string, b: string, sub: string)
    requires Contains(s, sub)
    ensures Contains(a + s + b, sub)
  {
    var i :| 0 <= i <= |s| - |sub| && OccursAt(s, sub, i);
    assert (a + s + b)[|a| + i..|a| + i + |sub|] == s[i..i + |sub|];
    ContainsAt(a + s + b, sub, |a| + i);
  }

  /** Case-insensitive `includes` of an all-lower-case needle (a regular
      expression with the `i` flag and no metacharacters). */
  predicate ContainsIgnoreCase(s: string, lowerNeedle: string) {
    Contains(Lower(s), lowerNeedle)
  }

  /** The `i` flag: the test answers the same for a text and its lower case. */
  lemma ContainsIgnoreCaseOfLower(s: string, lowerNeedle: string)
    ensures ContainsIgnoreCase(Lower(s), lowerNeedle) == ContainsIgnoreCase(s, lowerNeedle)
  {
    LowerOfLowerCase(Lower(s));
  }

  /** No anchors: a match survives any text put around it. */
  lemma ContainsIgnoreCaseExtend(a: string, s: string, b: string, lowerNeedle: string)
    requires ContainsIgnoreCase(s, lowerNeedle)
    ensures ContainsIgnoreCase(a + s + b, lowerNeedle)
  {
    LowerConcat(a + s, b);
    LowerConcat(a, s);
    ContainsExtend(Lower(a), Lower(s), Lower(b), lowerNeedle);
  }

  /** The number of leading characters of `s[start..]` that satisfy `p`, plus `start`:
      the index of the first character at or after `start` that does not. */
  function SkipFrom(s: string, p: char -> bool, start: nat): (n: nat)
    requires start <= |s|
    ensures start <= n <= |s|
    ensures forall i :: start <= i < n ==> p(s[i])
    ensures n < |s| ==> !p(s[n])
    decreases |s| - start
  {
    if start == |s| || !p(s[start]) then start else SkipFrom(s, p, start + 1)
  }

  /** The end of `s[..hi]` once trailing characters that satisfy `p` are
      dropped, not going below `lo`. */
  function TrimEndFrom(s: string, p: char -> bool, lo: nat, hi: nat): (m: nat)
    requires lo <= hi <= |s|
    ensures lo <= m <= hi
    ensures forall i :: m <= i < hi ==> p(s[i])
    ensures m > lo ==> !p(s[m - 1])
    decreases hi
  {
    if hi == lo || !p(s[hi - 1]) then hi else TrimEndFrom(s, p, lo, hi - 1)
  }

  /** Where the stripped text starts inside the original. */
  function StripStart(s: string, p: char -> bool): nat
    ensures StripStart(s, p) <= |s|
  {
    SkipFrom(s, p, 0)
  }

  /** Where the stripped text ends inside the original. */
  function StripEnd(s: string, p: char -> bool): nat
    ensures StripStart(s, p) <= StripEnd(s, p) <= |s|
  {
    TrimEndFrom(s, p, StripStart(s, p), |s|)
  }

  /** Removes the characters that satisfy `p` from both ends
      (`trim()`, `strip()`, `strip(chars)`). */
  function Strip(s: string, p: char -> bool): (r: string)
    ensures r == s[StripStart(s, p)..StripEnd(s, p)]
    ensures forall i :: 0 <= i < StripStart(s, p) ==> p(s[i])
    ensures forall i :: StripEnd(s, p) <= i < |s| ==> p(s[i])
    ensures r == [] || (!p(r[0]) && !p(r[|r| - 1]))
    ensures r == [] <==> forall i :: 0 <= i < |s| ==> p(s[i])
  {
    var n := StripStart(s, p);
    var m := StripEnd(s, p);
    assert n < |s| ==> !p(s[n]);
    s[n..m]
  }

  /** JavaScript `s.trim()`. */
  function JsTrim(s: string): string { Strip(s, IsJsSpace) }

  /** Python `s.strip()`. */
  function PyStrip(s: string): string { Strip(s, IsPySpace) }

  /** Index of the first `c` in `s`, or `|s|` when there is none. */
  function FirstIndex(s: string, c: char): (i: nat)
    ensures i <= |s|
    ensures i < |s| ==> s[i] == c
    ensures forall j :: 0 <= j < i ==> s[j] != c
  {
    if s == [] then 0
    else if s[0] == c then 0
    else 1 + FirstIndex(s[1..], c)
  }

  /** Index of the last `c` in `s` (`lastIndexOf`), or -1 when there is none. */
  function LastIndex(s: string, c: char): (i: int)
    ensures -1 <= i < |s|
    ensures i >= 0 ==> s[i] == c
    ensures forall j :: i < j < |s| ==> s[j] != c
  {
    if s == [] then -1
    else if s[|s| - 1] == c then |s| - 1
    else LastIndex(s[..|s| - 1], c)
  }

  /** `s.split(c)[0]`: the text before the first `c`. */
  function BeforeFirst(s: string, c: char): (r: string)
    ensures StartsWith(s, r) && c !in r
    ensures |r| < |s| ==> s[|r|] == c
  {
    s[..FirstIndex(s, c)]
  }

  /** `s.rsplit(c, 1)[-1]`: the text after the last `c`, or all of `s`. */
  function AfterLast(s: string, c: char): (r: string)
    ensures EndsWith(s, r) && c !in r
    ensures |r| < |s| ==> s[|s| - |r| - 1] == c
  {
    s[LastIndex(s, c) + 1..]
  }

  /** `s.split(c)`: the pieces between the separators, in order. */
  function Split(s: string, c: char): (pieces: seq<string>)
    ensures |pieces| >= 1
    ensures forall k :: 0 <= k < |pieces| ==> c !in pieces[k]
    ensures pieces[0] == BeforeFirst(s, c)
    decreases |s|
  {
    var i := FirstIndex(s, c);
    if i == |s| then [s] else [s[..i]] + Split(s[i + 1..], c)
  }

  /** `sep.join(xs)`. */
  function Join(xs: seq<string>, sep: string): (r: string)
    ensures xs == [] ==> r == ""
    ensures |xs| == 1 ==> r == xs[0]
  {
    if xs == [] then "" else if |xs| == 1 then xs[0] else xs[0] + sep + Join(xs[1..], sep)
  }

  function DigitChar(d: nat): (c: char)
    requires d < 10
    ensures '0' <= c <= '9'
  {
    ('0' as int + d) as char
  }

  /** The decimal rendering of a status code inside an error message. */
  function NatToString(n: nat): (r: string)
    ensures |r| >= 1
    ensures forall i :: 0 <= i < |r| ==> '0' <= r[i] <= '9'
  {
    if n < 10 then [DigitChar(n)] else NatToString(n / 10) + [DigitChar(n % 10)]
  }

  /** Python `re.sub(r"\s+", " ", s)`: every maximal run of whitespace becomes
      one space. */
  function CollapseSpaces(s: string): (r: string)
    ensures forall i :: 0 <= i < |r| ==> IsPySpace(r[i]) ==> r[i] == ' '
    ensures forall i :: 0 <= i < |r| - 1 ==> !(r[i] == ' ' && r[i + 1] == ' ')
    ensures s != [] && !IsPySpace(s[0]) ==> r != [] && r[0] == s[0]
    ensures r == [] <==> s == []
    decreases |s|
  {
    if s == [] then []
    else if IsPySpace(s[0]) then " " + CollapseSpaces(s[SkipFrom(s, IsPySpace, 0)..])
    else [s[0]] + CollapseSpaces(s[1..])
  }

  /** A needle without `c` found in neither side is not found across a
      `c` between them. */
  lemma NotContainsAcross(a: string, c: char, b: string, needle: string)
    requires c !in needle && !Contains(a, needle) && !Contains(b, needle)
    ensures !Contains(a + [c] + b, needle)
  {
    var s := a + [c] + b;
    forall i | 0 <= i <= |s| - |needle|
      ensures !OccursAt(s, needle, i)
    {
      var w := s[i..i + |needle|];
      if i + |needle| <= |a| {
        assert w == a[i..i + |needle|];
        assert !OccursAt(a, needle, i);
      } else if i > |a| {
        assert w == b[i - |a| - 1..i - |a| - 1 + |needle|];
        assert !OccursAt(b, needle, i - |a| - 1);
      } else {
        assert w[|a| - i] == c;
      }
    }
  }

  /** A string that lacks a piece of the needle lacks the needle. */
  lemma NotContainsPart(s: string, needle: string, i: nat, j: nat)
    requires i <= j <= |needle| && !Contains(s, needle[i..j])
    ensures !Contains(s, needle)
  {
    forall k | 0 <= k <= |s| - |needle|
      ensures !OccursAt(s, needle, k)
    {
      var w := s[k..k + |needle|];
      assert forall t :: 0 <= t < j - i ==> w[i..j][t] == s[k + i..k + j][t];
      assert w[i..j] == s[k + i..k + j];
      assert !OccursAt(s, needle[i..j], k + i);
    }
  }

  /** Lower-casing two words joined by a space word by word. */
  lemma LowerAcrossSpace(a: string, w: string)
    ensures Lower(a + " " + w) == Lower(a) + " " + Lower(w)
  {
    LowerConcat(a + " ", w);
    LowerConcat(a, " ");
    assert Lower(" ") == " ";
  }
}
