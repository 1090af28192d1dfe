/** The gallery listing of the web app (`web/lib/github.ts`): the PNGs of a
    GitHub repository's root, each paired with the MP3 and the metadata file
    of the same base name, newest first by the time stamp in the file name. */
module Gallery {
  import opened Common
  import opened Strings

  /** One entry of the contents listing. */
  datatype Entry = Entry(name: string, downloadUrl: string, kind: string)

  /** The listing reply: its status and, when it is a success, the entries;
      or the error `fetch` threw instead of replying. */
  datatype Listing = Listing(status: nat, entries: seq<Entry>) | ListingThrew(error: string)

  /** The reply to a metadata fetch: its status and the parsed JSON (`None`
      when the body is not JSON), or a network failure. */
  datatype MetaReply = MetaReply(status: nat, json: Option<string>) | MetaNetworkFailure

  /** One gallery item; `mp3Url` and `meta` are absent when there is none. */
  datatype Item = Item(pngUrl: string, mp3Url: Option<string>, meta: Option<string>)

  // ---------------------------------------------------------------------
  // File names

  /** `stripExt`: the name without its last `.` and what follows it. */
  function StripExt(name: string): (r: string)
    ensures StartsWith(name, r)
    ensures '.' !in name ==> r == name
    ensures '.' in name ==> |r| < |name| && name[|r|] == '.' && '.' !in name[|r| + 1..]
  {
    var i := LastIndex(name, '.');
    if i >= 0 then name[..i] else name
  }

  /** Stripping a one-part extension gives back the base name. */
  lemma StripExtOfName(base: string, ext: string)
    requires '.' !in ext
    ensures StripExt(base + "." + ext) == base
  {
    var name := base + "." + ext;
    assert name[|base|] == '.';
    assert forall j :: |base| < j < |name| ==> name[j] == ext[j - |base| - 1];
    assert LastIndex(name, '.') == |base|;
    assert name[..|base|] == base;
  }

  const MetaSuffix: string := ".meta.json"

  /** `stripMeta`: the name without a trailing `.meta.json` (compared with
      its case). */
  function StripMeta(name: string): (r: string)
    ensures EndsWith(name, MetaSuffix) ==> r + MetaSuffix == name
    ensures !EndsWith(name, MetaSuffix) ==> r == name
  {
    if EndsWith(name, MetaSuffix) then name[..|name| - |MetaSuffix|] else name
  }

  lemma StripMetaOfName(base: string)
    ensures StripMeta(base + MetaSuffix) == base
  {
    assert (base + MetaSuffix)[|base|..] == MetaSuffix;
    assert (base + MetaSuffix)[..|base|] == base;
  }

  // ---------------------------------------------------------------------
  // Time stamps

  predicate IsDigitChar(c: char) { '0' <= c <= '9' }

  predicate AllDigits(s: string) { forall i :: 0 <= i < |s| ==> IsDigitChar(s[i]) }

  lemma AllDigitsConcat(a: string, b: string)
    requires AllDigits(a) && AllDigits(b)
    ensures AllDigits(a + b)
  {
    assert forall k :: |a| <= k < |a + b| ==> (a + b)[k] == b[k - |a|];
  }

  /** `Number` of a string of decimal digits. */
  function Num(s: string): (n: nat)
    requires AllDigits(s)
  {
    if s == [] then 0 else Num(s[..|s| - 1]) * 10 + (s[|s| - 1] as int - '0' as int)
  }

  /** The 14 digits of a stamp that starts at `i`: eight digits, an optional
      `_` or `-` (taken when the six digits follow it), then six digits. */
  function StampAt(s: string, i: nat): (r: Option<string>)
    ensures r.Some? ==> |r.value| == 14 && AllDigits(r.value)
  {
    if i + 8 <= |s| && AllDigits(s[i..i + 8]) then
      if i + 15 <= |s| && (s[i + 8] == '_' || s[i + 8] == '-') && AllDigits(s[i + 9..i + 15]) then
        AllDigitsConcat(s[i..i + 8], s[i + 9..i + 15]);
        Some(s[i..i + 8] + s[i + 9..i + 15])
      else if i + 14 <= |s| && AllDigits(s[i + 8..i + 14]) then
        AllDigitsConcat(s[i..i + 8], s[i + 8..i + 14]);
        assert s[i..i + 14] == s[i..i + 8] + s[i + 8..i + 14];
        Some(s[i..i + 14])
      else None
    else None
  }

  /** The leftmost position at or after `i` where a stamp starts, or `|s|`. */
  function FirstStamp(s: string, i: nat): (j: nat)
    requires i <= |s|
    ensures i <= j <= |s|
    ensures j < |s| ==> StampAt(s, j).Some?
    ensures forall k :: i <= k < j ==> StampAt(s, k).None?
    decreases |s| - i
  {
    if i == |s| then i else if StampAt(s, i).Some? then i else FirstStamp(s, i + 1)
  }

  /** ECMAScript `DayFromYear`: days from 1970-01-01 to January 1st of `y`. */
  function DayFromYear(y: int): int {
    365 * (y - 1970) + (y - 1969) / 4 - (y - 1901) / 100 + (y - 1601) / 400
  }

  predicate InLeapYear(y: int) { y % 4 == 0 && (y % 100 != 0 || y % 400 == 0) }

  /** Days in a year before the first of month `m` (0 = January). */
  function DaysBeforeMonth(m: nat, leap: bool): nat
    requires m < 12
  {
    var common := [0, 31, 59, 90, 120, 151, 181, 212, 243, 273, 304, 334];
    common[m] + (if leap && m >= 2 then 1 else 0)
  }

  /** `Date.UTC(y, m, d, hh, mi, ss)` in milliseconds: a year of 0..99 is
      read as 19yy, a month beyond December rolls into later years. */
  function DateUtc(y: int, m: int, d: int, hh: int, mi: int, ss: int): (ms: int)
    ensures (y == 1970 || y == 70) && m == 0 && d == 1 ==> ms == ((hh * 60 + mi) * 60 + ss) * 1000
    ensures y >= 1970 && m >= 0 && d >= 1 && hh >= 0 && mi >= 0 && ss >= 0 ==> ms >= 0
  {
    var year := if 0 <= y <= 99 then 1900 + y else y;
    var ym := year + m / 12;
    var mn := m % 12;
    DayFromYearFromEpoch(ym);
    var day := DayFromYear(ym) + DaysBeforeMonth(mn, InLeapYear(ym)) + d - 1;
    day * 86400000 + ((hh * 60 + mi) * 60 + ss) * 1000
  }

  /** `extractTs`: the time of the first stamp in `s`, read as
      yyyymmddhhmmss in UTC, or 0 without one. */
  function ExtractTs(s: string): (ts: int)
    ensures (forall k :: 0 <= k < |s| ==> StampAt(s, k).None?) ==> ts == 0
    ensures ts != 0 ==> exists k :: && 0 <= k < |s| && StampAt(s, k).Some?
                                    && ts == StampTime(StampAt(s, k).value)
                                    && forall j :: 0 <= j < k ==> StampAt(s, j).None?
  {
    var j := FirstStamp(s, 0);
    if j == |s| then 0 else StampTime(StampAt(s, j).value)
  }

  /** The time of 14 digits yyyymmddhhmmss, the month counted from 0 as
      `Date.UTC` takes it. */
  function StampTime(t: string): int
    requires |t| == 14 && AllDigits(t)
  {
    DateUtc(Num(t[0..4]), Num(t[4..6]) - 1, Num(t[6..8]), Num(t[8..10]), Num(t[10..12]), Num(t[12..14]))
  }

  /** A name without a stamp has time 0. */
  lemma NoStampIsZero(s: string)
    requires forall k :: 0 <= k < |s| ==> StampAt(s, k).None?
    ensures ExtractTs(s) == 0
  {
  }

  lemma DayFromYearAfterEpoch(y: int)
    requires y >= 1971
    ensures DayFromYear(y) >= 365
  {
    assert (y - 1901) / 100 <= (y - 1901) / 100;
    assert (y - 1901) / 100 * 100 <= y - 1901;
  }

  lemma DayFromYearFromEpoch(y: int)
    ensures y >= 1970 ==> DayFromYear(y) >= 0
  {
    if y >= 1971 {
      DayFromYearAfterEpoch(y);
    }
  }

  /** Any valid time from 1971 on is after the epoch, so a dated item is
      newer than every undated one. */
  lemma DateUtcAfterEpoch(y: int, m: int, d: int, hh: int, mi: int, ss: int)
    requires 1971 <= y && 0 <= m < 12 && 1 <= d && 0 <= hh && 0 <= mi && 0 <= ss
    ensures DateUtc(y, m, d, hh, mi, ss) > 0
  {
    DayFromYearAfterEpoch(y);
  }

  /** A stamp holding a valid date from 1971 on has a positive time. */
  lemma StampTimeAfterEpoch(t: string)
    requires |t| == 14 && AllDigits(t)
    requires Num(t[0..4]) >= 1971 && 1 <= Num(t[4..6]) <= 12 && Num(t[6..8]) >= 1
    ensures StampTime(t) > 0
  {
    DateUtcAfterEpoch(Num(t[0..4]), Num(t[4..6]) - 1, Num(t[6..8]), Num(t[8..10]), Num(t[10..12]), Num(t[12..14]));
  }

  /** A name whose first stamp is a valid date from 1971 on has a positive
      time. */
  lemma StampedNameIsDated(s: string)
    requires FirstStamp(s, 0) < |s|
    requires var t := StampAt(s, FirstStamp(s, 0)).value;
      Num(t[0..4]) >= 1971 && 1 <= Num(t[4..6]) <= 12 && Num(t[6..8]) >= 1
    ensures ExtractTs(s) > 0
  {
    StampTimeAfterEpoch(StampAt(s, FirstStamp(s, 0)).value);
  }

  // ---------------------------------------------------------------------
  // The order of the listing

  /** Code-point lexicographic order of two strings (`localeCompare` < 0). */
  predicate LexLess(a: string, b: string)
    decreases |a|
  {
    if a == [] then b != []
    else if b == [] then false
    else a[0] < b[0] || (a[0] == b[0] && LexLess(a[1..], b[1..]))
  }

  lemma {:induction false} LexLessIrreflexive(a: string)
    ensures !LexLess(a, a)
    decreases |a|
  {
    if a != [] {
      LexLessIrreflexive(a[1..]);
    }
  }

  lemma {:induction false} LexLessTotal(a: string, b: string)
    ensures a == b || LexLess(a, b) || LexLess(b, a)
    decreases |a|
  {
    if a != [] && b != [] && a[0] == b[0] {
      LexLessTotal(a[1..], b[1..]);
      if a[1..] == b[1..] {
        assert a == [a[0]] + a[1..] && b == [b[0]] + b[1..];
      }
    }
  }

  lemma {:induction false} LexLessTrans(a: string, b: string, c: string)
    requires LexLess(a, b) && LexLess(b, c)
    ensures LexLess(a, c)
    decreases |a|
  {
    if a != [] && b != [] && c != [] && a[0] == b[0] && b[0] == c[0] {
      LexLessTrans(a[1..], b[1..], c[1..]);
    }
  }

  /** `x` may stay before `y` under the comparator: a later time, or the
      same time and a URL that is not smaller. */
  predicate Before(x: Item, y: Item) {
    var tx := ExtractTs(x.pngUrl);
    var ty := ExtractTs(y.pngUrl);
    tx > ty || (tx == ty && !LexLess(x.pngUrl, y.pngUrl))
  }

  lemma LexLessAsymmetric(a: string, b: string)
    requires LexLess(a, b)
    ensures !LexLess(b, a)
  {
    if LexLess(b, a) {
      LexLessTrans(a, b, a);
      LexLessIrreflexive(a);
    }
  }

  lemma BeforeTotal(x: Item, y: Item)
    ensures Before(x, y) || Before(y, x)
  {
    LexLessTotal(x.pngUrl, y.pngUrl);
    LexLessIrreflexive(x.pngUrl);
    if LexLess(x.pngUrl, y.pngUrl) {
      LexLessAsymmetric(x.pngUrl, y.pngUrl);
    }
  }

  lemma BeforeTrans(x: Item, y: Item, z: Item)
    requires Before(x, y) && Before(y, z)
    ensures Before(x, z)
  {
    if ExtractTs(x.pngUrl) == ExtractTs(z.pngUrl) && LexLess(x.pngUrl, z.pngUrl) {
      LexLessTotal(x.pngUrl, y.pngUrl);
      if x.pngUrl == y.pngUrl {
      } else if LexLess(y.pngUrl, x.pngUrl) {
        LexLessTrans(y.pngUrl, x.pngUrl, z.pngUrl);
      }
    }
  }

  /** Newest first, and among items of the same time by descending URL. */
  predicate Sorted(s: seq<Item>) {
    SortedBy(s, Before)
  }

  /** In a sorted listing every dated item from 1971 on comes before every
      undated one. */
  lemma DatedBeforeUndated(s: seq<Item>, i: nat, j: nat)
    requires Sorted(s) && i < |s| && j < |s|
    requires ExtractTs(s[i].pngUrl) > 0 && ExtractTs(s[j].pngUrl) == 0
    ensures i < j
  {
  }

  /** In a sorted listing, an item named with a stamp from 1971 on comes
      before every item named without a stamp. */
  lemma StampedBeforeUnstamped(s: seq<Item>, i: nat, j: nat)
    requires Sorted(s) && i < |s| && j < |s|
    requires FirstStamp(s[i].pngUrl, 0) < |s[i].pngUrl|
    requires var t := StampAt(s[i].pngUrl, FirstStamp(s[i].pngUrl, 0)).value;
      Num(t[0..4]) >= 1971 && 1 <= Num(t[4..6]) <= 12 && Num(t[6..8]) >= 1
    requires forall k :: 0 <= k < |s[j].pngUrl| ==> StampAt(s[j].pngUrl, k).None?
    ensures i < j
  {
    StampedNameIsDated(s[i].pngUrl);
    NoStampIsZero(s[j].pngUrl);
    DatedBeforeUndated(s, i, j);
  }

  /** `before` orders every pair one way or the other, transitively: what
      a comparator must be for `sort` to be well defined. */
  ghost predicate IsTotalPreorder<T(!new)>(before: (T, T) -> bool) {
    && (forall x, y :: before(x, y) || before(y, x))
    && (forall x, y, z :: before(x, y) && before(y, z) ==> before(x, z))
  }

  predicate SortedBy<T>(s: seq<T>, before: (T, T) -> bool) {
    forall i, j :: 0 <= i < j < |s| ==> before(s[i], s[j])
  }

  /** One insertion: `a[i]` moves left past every element it strictly
      precedes, so that `a[..i + 1]` is sorted. */
  method Insert<T(!new)>(a: array<T>, i: nat, before: (T, T) -> bool)
    requires IsTotalPreorder(before)
    requires i < a.Length && SortedBy(a[..i], before)
    modifies a
    ensures SortedBy(a[..i + 1], before)
    ensures multiset(a[..]) == multiset(old(a[..]))
  {
    var j := i;
    while j > 0 && !before(a[j - 1], a[j])
      invariant 0 <= j <= i
      invariant forall k, m :: 0 <= k < m <= i && k != j && m != j ==> before(a[k], a[m])
      invariant forall m :: j < m <= i ==> before(a[j], a[m])
      invariant multiset(a[..]) == multiset(old(a[..]))
    {
      a[j - 1], a[j] := a[j], a[j - 1];
      j := j - 1;
    }
  }

  /** An in-place stable insertion sort by a comparator. */
  method SortBy<T(!new)>(a: array<T>, before: (T, T) -> bool)
    requires IsTotalPreorder(before)
    modifies a
    ensures SortedBy(a[..], before)
    ensures multiset(a[..]) == multiset(old(a[..]))
  {
    var i := 0;
    while i < a.Length
      invariant 0 <= i <= a.Length
      invariant SortedBy(a[..i], before)
      invariant multiset(a[..]) == multiset(old(a[..]))
    {
      Insert(a, i, before);
      i := i + 1;
    }
    assert a[..a.Length] == a[..];
  }

  lemma BeforeIsTotalPreorder()
    ensures IsTotalPreorder(Before)
  {
    forall x, y
      ensures Before(x, y) || Before(y, x)
    {
      BeforeTotal(x, y);
    }
    forall x, y, z | Before(x, y) && Before(y, z)
      ensures Before(x, z)
    {
      BeforeTrans(x, y, z);
    }
  }

  /** `out.sort(...)` with the listing's comparator. */
  method SortItems(a: array<Item>)
    modifies a
    ensures Sorted(a[..])
    ensures multiset(a[..]) == multiset(old(a[..]))
  {
    BeforeIsTotalPreorder();
    SortBy(a, Before);
  }

  // ---------------------------------------------------------------------
  // Pairing

  predicate IsFileWithExt(e: Entry, ext: string) { e.kind == "file" && EndsWith(Lower(e.name), ext) }

  /** The PNG entries in listing order. */
  function Pngs(entries: seq<Entry>): (r: seq<Entry>)
    ensures forall k :: 0 <= k < |r| ==> IsFileWithExt(r[k], ".png")
    ensures forall e :: e in entries && IsFileWithExt(e, ".png") ==> e in r
    ensures |r| <= |entries|
  {
    if entries == [] then []
    else
      var rest := Pngs(entries[1..]);
      assert forall e :: e in entries ==> e == entries[0] || e in entries[1..];
      if IsFileWithExt(entries[0], ".png") then [entries[0]] + rest else rest
  }

  /** `new Map(pairs)`: the key of each pair mapped to its value, a later
      pair overriding an earlier one with the same key. */
  function BuildMap(pairs: seq<(string, string)>): (m: map<string, string>)
    ensures pairs != [] ==> pairs[|pairs| - 1].0 in m && m[pairs[|pairs| - 1].0] == pairs[|pairs| - 1].1
  {
    if pairs == [] then map[]
    else BuildMap(pairs[..|pairs| - 1])[pairs[|pairs| - 1].0 := pairs[|pairs| - 1].1]
  }

  /** A key is in the map exactly when some pair has it. */
  lemma {:induction false} BuildMapKeys(pairs: seq<(string, string)>, k: string)
    ensures k in BuildMap(pairs) <==> exists i :: 0 <= i < |pairs| && pairs[i].0 == k
  {
    if pairs != [] {
      var init := pairs[..|pairs| - 1];
      BuildMapKeys(init, k);
      if k in BuildMap(init) {
        var i :| 0 <= i < |init| && init[i].0 == k;
        assert pairs[i].0 == k;
      }
      if exists i :: 0 <= i < |pairs| && pairs[i].0 == k {
        var i :| 0 <= i < |pairs| && pairs[i].0 == k;
        if i < |pairs| - 1 {
          assert init[i].0 == k;
        }
      }
    }
  }

  /** The last pair with a key decides its value. */
  lemma {:induction false} BuildMapLastWins(pairs: seq<(string, string)>, i: nat)
    requires i < |pairs|
    requires forall j :: i < j < |pairs| ==> pairs[j].0 != pairs[i].0
    ensures pairs[i].0 in BuildMap(pairs) && BuildMap(pairs)[pairs[i].0] == pairs[i].1
  {
    if i < |pairs| - 1 {
      var init := pairs[..|pairs| - 1];
      assert init[i] == pairs[i];
      assert forall j :: i < j < |init| ==> init[j] == pairs[j];
      BuildMapLastWins(init, i);
    }
  }

  /** The MP3 entries keyed by their name without the extension. */
  function Mp3Pairs(entries: seq<Entry>): (r: seq<(string, string)>)
    ensures |r| <= |entries|
  {
    if entries == [] then []
    else
      var rest := Mp3Pairs(entries[1..]);
      if IsFileWithExt(entries[0], ".mp3") then [(StripExt(entries[0].name), entries[0].downloadUrl)] + rest
      else rest
  }

  /** The metadata entries keyed by their name without `.meta.json`. */
  function MetaPairs(entries: seq<Entry>): (r: seq<(string, string)>)
    ensures |r| <= |entries|
  {
    if entries == [] then []
    else
      var rest := MetaPairs(entries[1..]);
      if IsFileWithExt(entries[0], MetaSuffix) then [(StripMeta(entries[0].name), entries[0].downloadUrl)] + rest
      else rest
  }

  /** The metadata URL of a base name, `""` when there is none. */
  function MetaUrl(metas: map<string, string>, base: string): string {
    if base in metas then metas[base] else ""
  }

  /** The metadata of an item: fetched only when it has a URL, and kept
      only from a successful reply with a JSON body. */
  function MetaOf(metaUrl: string, reply: MetaReply): (r: Option<string>)
    ensures r.Some? ==> metaUrl != "" && reply.MetaReply? && IsOkStatus(reply.status)
  {
    if metaUrl == "" then None
    else
      match reply
      case MetaNetworkFailure => None
      case MetaReply(status, json) => if IsOkStatus(status) then json else None
  }

  /** The item of one PNG entry. */
  function ItemFor(p: Entry, mp3s: map<string, string>, metas: map<string, string>,
                   metaFetch: string -> MetaReply): (item: Item)
    ensures item.pngUrl == p.downloadUrl
    ensures item.mp3Url.Some? <==> StripExt(p.name) in mp3s
  {
    var base := StripExt(p.name);
    var metaUrl := MetaUrl(metas, base);
    Item(p.downloadUrl, if base in mp3s then Some(mp3s[base]) else None, MetaOf(metaUrl, metaFetch(metaUrl)))
  }

  /** The items in listing order, before sorting. */
  function Items(pngs: seq<Entry>, mp3s: map<string, string>, metas: map<string, string>,
                 metaFetch: string -> MetaReply): (r: seq<Item>)
    ensures |r| == |pngs|
    ensures forall k :: 0 <= k < |pngs| ==> r[k] == ItemFor(pngs[k], mp3s, metas, metaFetch)
  {
    seq(|pngs|, k requires 0 <= k < |pngs| => ItemFor(pngs[k], mp3s, metas, metaFetch))
  }

  /** The metadata URLs fetched, in PNG order. */
  function MetaFetches(pngs: seq<Entry>, metas: map<string, string>): (r: seq<string>)
    ensures |r| <= |pngs|
    ensures forall k :: 0 <= k < |r| ==> r[k] != ""
  {
    if pngs == [] then []
    else
      var init := MetaFetches(pngs[..|pngs| - 1], metas);
      var u := MetaUrl(metas, StripExt(pngs[|pngs| - 1].name));
      if u == "" then init else init + [u]
  }

  /** The items of a listing, as produced by the loop. */
  function ListingItems(entries: seq<Entry>, metaFetch: string -> MetaReply): seq<Item> {
    Items(Pngs(entries), BuildMap(Mp3Pairs(entries)), BuildMap(MetaPairs(entries)), metaFetch)
  }

  /** Every PNG file of the listing has exactly one item, whatever is
      paired with it. */
  lemma EveryPngListed(entries: seq<Entry>, metaFetch: string -> MetaReply, e: Entry)
    requires e in entries && IsFileWithExt(e, ".png")
    ensures exists k :: 0 <= k < |ListingItems(entries, metaFetch)| && ListingItems(entries, metaFetch)[k].pngUrl == e.downloadUrl
  {
    var pngs := Pngs(entries);
    var k :| 0 <= k < |pngs| && pngs[k] == e;
    assert ListingItems(entries, metaFetch)[k].pngUrl == e.downloadUrl;
  }

  /** An item gets the MP3 of the same base name; when several MP3 files
      share it, the last one listed. */
  lemma Mp3OfSameBase(entries: seq<Entry>, i: nat, metaFetch: string -> MetaReply, k: nat)
    requires i < |Mp3Pairs(entries)|
    requires forall j :: i < j < |Mp3Pairs(entries)| ==> Mp3Pairs(entries)[j].0 != Mp3Pairs(entries)[i].0
    requires k < |Pngs(entries)| && StripExt(Pngs(entries)[k].name) == Mp3Pairs(entries)[i].0
    ensures ListingItems(entries, metaFetch)[k].mp3Url == Some(Mp3Pairs(entries)[i].1)
  {
    BuildMapLastWins(Mp3Pairs(entries), i);
  }

  // ---------------------------------------------------------------------
  // The listing

  /** The body of the loop for one PNG: its MP3, and its metadata when
      it has a URL; `fetched` is that URL when it was requested. */
  method MakeItem(p: Entry, mp3s: map<string, string>, metas: map<string, string>,
                  metaFetch: string -> MetaReply)
    returns (item: Item, fetched: seq<string>)
    ensures item == ItemFor(p, mp3s, metas, metaFetch)
    ensures fetched == MetaFetches([p], metas)
  {
    var base := StripExt(p.name);
    var mp3Url := if base in mp3s then Some(mp3s[base]) else None;
    var meta: Option<string> := None;
    var metaUrl := MetaUrl(metas, base);
    fetched := [];
    if metaUrl != "" {
      fetched := [metaUrl];
      var reply := metaFetch(metaUrl);
      if reply.MetaReply? && IsOkStatus(reply.status) {
        meta := reply.json;
      }
    }
    assert [p][..0] == [];
    item := Item(p.downloadUrl, mp3Url, meta);
  }

  lemma MetaFetchesSnoc(pngs: seq<Entry>, p: Entry, metas: map<string, string>)
    ensures MetaFetches(pngs + [p], metas) == MetaFetches(pngs, metas) + MetaFetches([p], metas)
  {
    assert (pngs + [p])[..|pngs|] == pngs;
    assert [p][..0] == [];
  }

  /** The loop of `listGallery`: one item per PNG, fetching the metadata
      of those that have some. */
  method CollectItems(pngs: seq<Entry>, mp3s: map<string, string>, metas: map<string, string>,
                      metaFetch: string -> MetaReply)
    returns (out: seq<Item>, fetched: seq<string>)
    ensures out == Items(pngs, mp3s, metas, metaFetch)
    ensures fetched == MetaFetches(pngs, metas)
  {
    out := [];
    fetched := [];
    var k := 0;
    while k < |pngs|
      invariant 0 <= k <= |pngs|
      invariant |out| == k && forall j :: 0 <= j < k ==> out[j] == ItemFor(pngs[j], mp3s, metas, metaFetch)
      invariant fetched == MetaFetches(pngs[..k], metas)
    {
      var item, urls := MakeItem(pngs[k], mp3s, metas, metaFetch);
      MetaFetchesSnoc(pngs[..k], pngs[k], metas);
      assert pngs[..k + 1] == pngs[..k] + [pngs[k]];
      out := out + [item];
      fetched := fetched + urls;
      k := k + 1;
    }
    assert pngs[..k] == pngs;
  }

  /** `listGallery`: a listing `fetch` that throws rejects with its error,
      a failed listing throws with its status; otherwise the items of every
      PNG, newest first. `fetched` lists the metadata URLs requested. */
  method ListGallery(listing: Listing, metaFetch: string -> MetaReply)
    returns (r: Result<seq<Item>>, fetched: seq<string>)
    ensures r.Err? <==> listing.ListingThrew? || !IsOkStatus(listing.status)
    ensures r.Err? ==> fetched == []
    ensures listing.ListingThrew? ==> r == Err(listing.error)
    ensures listing.Listing? && !IsOkStatus(listing.status) ==>
              r == Err("GitHub API error: " + NatToString(listing.status))
    ensures r.Ok? ==> listing.Listing?
    ensures r.Ok? ==> Sorted(r.value)
    ensures r.Ok? ==> multiset(r.value) == multiset(ListingItems(listing.entries, metaFetch))
    ensures r.Ok? ==> fetched == MetaFetches(Pngs(listing.entries), BuildMap(MetaPairs(listing.entries)))
  {
    if listing.ListingThrew? {
      return Err(listing.error), [];
    }
    if !IsOkStatus(listing.status) {
      return Err("GitHub API error: " + NatToString(listing.status)), [];
    }
    var items := listing.entries;
    var pngs := Pngs(items);
    var mp3s := BuildMap(Mp3Pairs(items));
    var metas := BuildMap(MetaPairs(items));
    var out;
    out, fetched := CollectItems(pngs, mp3s, metas, metaFetch);
    var a := new Item[|out|](k requires 0 <= k < |out| => out[k]);
    assert a[..] == out;
    SortItems(a);
    r := Ok(a[..]);
  }
}
