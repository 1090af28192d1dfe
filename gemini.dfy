/** The Gemini adapter of the web app (`web/lib/gemini.ts`): the PNG
    directive guard, the request bodies of edit, blend and comic, the call
    with its single retry after a media-type rejection, and the order in
    which an image is looked for in the reply. */
module Gemini {
  import opened Common
  import opened Strings
  import opened Base64
  import opened Images

  /** The phrase whose presence tells the guard a prompt already asks for a
      PNG. */
  const Marker: string := "Output only a PNG image"

  const GuardSuffix: string :=
    " " + Marker + "; no text in the response; keep resolution similar to input."

  lemma GuardSuffixHasMarker()
    ensures Contains(GuardSuffix, Marker)
  {
    assert GuardSuffix[1..1 + |Marker|] == Marker;
    ContainsAt(GuardSuffix, Marker, 1);
  }

  /** A trimmed text with the suffix appended holds the marker. */
  lemma GuardedHasMarker(text: string)
    ensures Contains(JsTrim(text) + GuardSuffix, Marker)
  {
    GuardSuffixHasMarker();
    ContainsExtend(JsTrim(text), GuardSuffix, "", Marker);
    assert JsTrim(text) + GuardSuffix + "" == JsTrim(text) + GuardSuffix;
  }

  /** `instructionGuard`: a text that already holds the marker is kept as it
      is; any other text is trimmed and gets the PNG directive appended (the
      extra removal of trailing whitespace after `trim()` changes nothing). */
  function InstructionGuard(text: string): (r: string)
    ensures Contains(r, Marker)
    ensures Contains(text, Marker) ==> r == text
    ensures !Contains(text, Marker) ==> StartsWith(r, JsTrim(text)) && EndsWith(r, GuardSuffix)
  {
    if Contains(text, Marker) then text
    else
      GuardedHasMarker(text);
      JsTrim(text) + GuardSuffix
  }

  /** Text with the marker written into it holds the marker. */
  lemma MarkerInside(a: string, b: string)
    ensures Contains(a + Marker + b, Marker)
  {
    assert (a + Marker + b)[|a|..|a| + |Marker|] == Marker;
    ContainsAt(a + Marker + b, Marker, |a|);
  }

  /** Guarding twice is guarding once. */
  lemma InstructionGuardIdempotent(text: string)
    ensures InstructionGuard(InstructionGuard(text)) == InstructionGuard(text)
  {
  }

  /** One part of a request: a text, or an image given inline as base64. */
  datatype Part = TextPart(text: string) | InlinePart(mime: string, data: string)

  /** A `generateContent` request: its parts, and whether `generationConfig`
      asks for `response_mime_type: image/png`. */
  datatype Request = Request(parts: seq<Part>, pngOnly: bool)

  /** The body `edit` sends: the guarded instruction, then the image. */
  function EditRequest(imageBytes: seq<byte>, mime: string, instruction: string): (r: Request)
    ensures |r.parts| == 2 && r.pngOnly
    ensures r.parts[0].TextPart? && Contains(r.parts[0].text, Marker)
    ensures r.parts[1].InlinePart? && r.parts[1].mime == mime
    ensures Decode(r.parts[1].data) == Some(imageBytes)
  {
    DecodeEncode(imageBytes);
    Request([TextPart(InstructionGuard(instruction)), InlinePart(mime, Encode(imageBytes))], true)
  }

  /** The body `blend` sends: the guarded instruction, the base image, then
      the reference image. */
  function BlendRequest(baseBytes: seq<byte>, baseMime: string, refBytes: seq<byte>, refMime: string,
                        instruction: string): (r: Request)
    ensures |r.parts| == 3 && r.pngOnly
    ensures r.parts[0].TextPart? && Contains(r.parts[0].text, Marker)
    ensures r.parts[1].InlinePart? && r.parts[1].mime == baseMime
    ensures Decode(r.parts[1].data) == Some(baseBytes)
    ensures r.parts[2].InlinePart? && r.parts[2].mime == refMime
    ensures Decode(r.parts[2].data) == Some(refBytes)
  {
    DecodeEncode(baseBytes);
    DecodeEncode(refBytes);
    Request([TextPart(InstructionGuard(instruction)), InlinePart(baseMime, Encode(baseBytes)),
             InlinePart(refMime, Encode(refBytes))], true)
  }

  const ComicLead: string := "Using the SAME PERSON as the reference, generate a comic panel in "
  const ComicTail: string := ". Keep face shape, eyes, hair, and skin consistent. " + Marker + "; no text."
  const ComicTailLead: string := ". Keep face shape, eyes, hair, and skin consistent. "

  /** The prompt of one comic panel; it is sent without the guard. */
  function ComicPrompt(style: string, panel: string): (p: string)
    ensures StartsWith(p, ComicLead) && EndsWith(p, ComicTail)
    ensures Contains(p, panel) && Contains(p, Marker)
  {
    var p := ComicLead + style + " where they: " + panel + ComicTail;
    assert p[|p| - |ComicTail|..] == ComicTail;
    assert p == (ComicLead + style + " where they: ") + panel + ComicTail;
    ContainsAt(panel, panel, 0);
    ContainsExtend(ComicLead + style + " where they: ", panel, ComicTail, panel);
    assert ComicTail == ComicTailLead + Marker + "; no text.";
    assert ComicTail[|ComicTailLead|..|ComicTailLead| + |Marker|] == Marker;
    ContainsAt(ComicTail, Marker, |ComicTailLead|);
    ContainsExtend(ComicLead + style + " where they: " + panel, ComicTail, "", Marker);
    assert p + "" == p;
    p
  }

  /** The body of one comic panel: its prompt, then the persona image. */
  function ComicRequest(personaBytes: seq<byte>, personaMime: string, style: string, panel: string): (r: Request)
    ensures |r.parts| == 2 && r.pngOnly
    ensures r.parts[0] == TextPart(ComicPrompt(style, panel))
    ensures r.parts[1].InlinePart? && r.parts[1].mime == personaMime
    ensures r.parts[1].data == Encode(personaBytes)
  {
    Request([TextPart(ComicPrompt(style, panel)), InlinePart(personaMime, Encode(personaBytes))], true)
  }

  /** The persona image can be read back out of every panel's request. */
  lemma ComicRequestCarriesPersona(personaBytes: seq<byte>, personaMime: string, style: string, panel: string)
    ensures Decode(ComicRequest(personaBytes, personaMime, style, panel).parts[1].data) == Some(personaBytes)
  {
    DecodeEncode(personaBytes);
  }

  /** One part of the first candidate of a reply. `snakeInline` and
      `camelInline` are the `data` of an `inline_data` / `inlineData` object
      when the part has one (`""` when it has no `data`); `text` is the part's
      text when it is a string. */
  datatype ReplyPart = ReplyPart(snakeInline: Option<string>, camelInline: Option<string>, text: Option<string>)

  /** A reply of the Gemini endpoint: its status, its body as text, and the
      parts of its first candidate (empty when there are none); or the error
      `fetch` threw instead of replying (`fetch failed` on a network
      failure). */
  datatype Reply =
    | Reply(status: nat, body: string, parts: seq<ReplyPart>)
    | FetchThrew(error: string)

  /** The replies to the request and to its retry, should there be one. */
  datatype Exchange = Exchange(first: Reply, retry: Reply)

  predicate HasInline(p: ReplyPart) { p.snakeInline.Some? || p.camelInline.Some? }

  /** The base64 of an inline part: the snake-case data when it is not
      empty, otherwise the camel-case data. */
  function InlineData(p: ReplyPart): string {
    if p.snakeInline.Some? && p.snakeInline.value != "" then p.snakeInline.value
    else if p.camelInline.Some? then p.camelInline.value
    else ""
  }

  /** Index of the first part with inline data, or `|parts|`. */
  function FirstInline(parts: seq<ReplyPart>): (i: nat)
    ensures i <= |parts|
    ensures i < |parts| ==> HasInline(parts[i])
    ensures forall j :: 0 <= j < i ==> !HasInline(parts[j])
  {
    if parts == [] then 0
    else if HasInline(parts[0]) then 0
    else 1 + FirstInline(parts[1..])
  }

  /** Index of the first part whose text is a string, or `|parts|`. */
  function FirstText(parts: seq<ReplyPart>): (i: nat)
    ensures i <= |parts|
    ensures i < |parts| ==> parts[i].text.Some?
    ensures forall j :: 0 <= j < i ==> parts[j].text.None?
  {
    if parts == [] then 0
    else if parts[0].text.Some? then 0
    else 1 + FirstText(parts[1..])
  }

  /** The characters of `[A-Za-z0-9+/=]`. */
  predicate IsBase64Char(c: char) { IsDigit(c) || c == '=' }

  /** The characters of `[\w+/=]`. */
  predicate IsWordBase64Char(c: char) { IsBase64Char(c) || c == '_' }

  const DataUrlPng: string := "data:image/png;base64,"
  const DataUrlJpeg: string := "data:image/jpeg;base64,"
  const DataUrlJpg: string := "data:image/jpg;base64,"

  /** The length of the `data:image/(png|jpeg|jpg);base64,` head that starts
      at `i`, or 0 when none does. */
  function DataUrlHeadAt(text: string, i: nat): (n: nat)
    ensures n > 0 ==> i + n <= |text|
  {
    if OccursAt(text, DataUrlPng, i) then |DataUrlPng|
    else if OccursAt(text, DataUrlJpeg, i) then |DataUrlJpeg|
    else if OccursAt(text, DataUrlJpg, i) then |DataUrlJpg|
    else 0
  }

  /** The payload of a data URL matched at `i`: the longest non-empty run of
      `[A-Za-z0-9+/=]` after the head. */
  function DataUrlAt(text: string, i: nat): (r: Option<string>)
    ensures r.Some? ==> r.value != [] && forall k :: 0 <= k < |r.value| ==> IsBase64Char(r.value[k])
  {
    var n := DataUrlHeadAt(text, i);
    if n == 0 then None
    else
      var e := SkipFrom(text, IsBase64Char, i + n);
      if e == i + n then None else Some(text[i + n..e])
  }

  /** The PNG signature in base64. */
  const PngMagic: string := "iVBORw0KGgo"

  /** A base64 PNG matched at `i`: the signature followed by a longest run of
      at least 100 characters of `[\w+/=]`. */
  function PngRunAt(text: string, i: nat): (r: Option<string>)
    ensures r.Some? ==> StartsWith(r.value, PngMagic) && |r.value| >= |PngMagic| + 100
    ensures r.Some? ==> forall k :: 0 <= k < |r.value| ==> IsWordBase64Char(r.value[k])
  {
    if !OccursAt(text, PngMagic, i) then None
    else
      var e := SkipFrom(text, IsWordBase64Char, i + |PngMagic|);
      if e - (i + |PngMagic|) < 100 then None
      else
        assert forall k :: 0 <= k < |PngMagic| ==> IsWordBase64Char(PngMagic[k]);
        Some(text[i..e])
  }

  /** The leftmost position at or after `i` where a data URL matches, or
      `|text| + 1`. */
  function FirstDataUrl(text: string, i: nat): (j: nat)
    requires i <= |text| + 1
    ensures i <= j <= |text| + 1
    ensures j <= |text| ==> DataUrlAt(text, j).Some?
    ensures forall k :: i <= k < j && k <= |text| ==> DataUrlAt(text, k).None?
    decreases |text| + 1 - i
  {
    if i == |text| + 1 then i
    else if DataUrlAt(text, i).Some? then i
    else FirstDataUrl(text, i + 1)
  }

  /** The leftmost position at or after `i` where a base64 PNG matches, or
      `|text| + 1`. */
  function FirstPngRun(text: string, i: nat): (j: nat)
    requires i <= |text| + 1
    ensures i <= j <= |text| + 1
    ensures j <= |text| ==> PngRunAt(text, j).Some?
    ensures forall k :: i <= k < j && k <= |text| ==> PngRunAt(text, k).None?
    decreases |text| + 1 - i
  {
    if i == |text| + 1 then i
    else if PngRunAt(text, i).Some? then i
    else FirstPngRun(text, i + 1)
  }

  /** No data URL before a match: the search from the start stops there. */
  lemma FirstDataUrlLeftmost(text: string)
    ensures forall j :: (0 <= j <= |text| && DataUrlAt(text, j).Some?
                         && (forall k :: 0 <= k < j ==> DataUrlAt(text, k).None?)) ==> FirstDataUrl(text, 0) == j
  {
    forall j | 0 <= j <= |text| && DataUrlAt(text, j).Some? && (forall k :: 0 <= k < j ==> DataUrlAt(text, k).None?)
      ensures FirstDataUrl(text, 0) == j
    {
    }
  }

  /** No base64 PNG before a match: the search from the start stops there. */
  lemma FirstPngRunLeftmost(text: string)
    ensures forall j :: (0 <= j <= |text| && PngRunAt(text, j).Some?
                         && (forall k :: 0 <= k < j ==> PngRunAt(text, k).None?)) ==> FirstPngRun(text, 0) == j
  {
    forall j | 0 <= j <= |text| && PngRunAt(text, j).Some? && (forall k :: 0 <= k < j ==> PngRunAt(text, k).None?)
      ensures FirstPngRun(text, 0) == j
    {
    }
  }

  /** `extractBase64Image`: the payload of the leftmost data URL; failing
      that, the leftmost base64 PNG; failing that, nothing. */
  function ExtractBase64Image(text: string): (r: Option<string>)
    ensures r.Some? ==> r.value != [] && forall k :: 0 <= k < |r.value| ==> IsWordBase64Char(r.value[k])
    ensures forall j :: (0 <= j <= |text| && DataUrlAt(text, j).Some?
                         && (forall k :: 0 <= k < j ==> DataUrlAt(text, k).None?)) ==> r == DataUrlAt(text, j)
    ensures (forall k :: 0 <= k <= |text| ==> DataUrlAt(text, k).None?) ==>
      forall j :: (0 <= j <= |text| && PngRunAt(text, j).Some?
                   && (forall k :: 0 <= k < j ==> PngRunAt(text, k).None?)) ==> r == PngRunAt(text, j)
    ensures r.None? <==> (forall k :: 0 <= k <= |text| ==> DataUrlAt(text, k).None? && PngRunAt(text, k).None?)
  {
    FirstDataUrlLeftmost(text);
    FirstPngRunLeftmost(text);
    var j := FirstDataUrl(text, 0);
    if j <= |text| then DataUrlAt(text, j)
    else
      var m := FirstPngRun(text, 0);
      if m <= |text| then PngRunAt(text, m) else None
  }

  /** Every character of a base64 text is one of `[A-Za-z0-9+/=]`. */
  lemma EncodeCharacters(b: seq<byte>)
    ensures forall k :: 0 <= k < |Encode(b)| ==> IsBase64Char(Encode(b)[k])
  {
    var g := EncodeGroups(b);
    var s := Encode(b);
    forall k | 0 <= k < |s| ensures IsBase64Char(s[k]) {
      if k < |g| { assert s[k] == g[k]; } else { assert s[k] == '='; }
    }
  }

  lemma SkipToEnd(s: string, p: char -> bool, start: nat)
    requires start <= |s|
    requires forall k :: start <= k < |s| ==> p(s[k])
    ensures SkipFrom(s, p, start) == |s|
  {
  }

  /** A PNG data URI handed back in a text part is found again, payload and
      all. */
  lemma ExtractFromDataUri(b: seq<byte>)
    requires |b| > 0
    ensures ExtractBase64Image(DataUrlPng + Encode(b)) == Some(Encode(b))
  {
    DataUriAtStart(b);
  }

  lemma DataUriAtStart(b: seq<byte>)
    requires |b| > 0
    ensures DataUrlAt(DataUrlPng + Encode(b), 0) == Some(Encode(b))
  {
    var s := DataUrlPng + Encode(b);
    var n := |DataUrlPng|;
    DataUriHead(Encode(b));
    PayloadRunsToEnd(b);
    assert s[n..|s|] == Encode(b);
  }

  lemma DataUriHead(payload: string)
    ensures DataUrlHeadAt(DataUrlPng + payload, 0) == |DataUrlPng|
  {
    var s := DataUrlPng + payload;
    assert s[0..|DataUrlPng|] == DataUrlPng;
    assert OccursAt(s, DataUrlPng, 0);
  }

  lemma PayloadRunsToEnd(b: seq<byte>)
    requires |b| > 0
    ensures Encode(b) != []
    ensures SkipFrom(DataUrlPng + Encode(b), IsBase64Char, |DataUrlPng|) == |DataUrlPng + Encode(b)|
  {
    var s := DataUrlPng + Encode(b);
    var n := |DataUrlPng|;
    EncodeCharacters(b);
    assert |EncodeGroups(b)| > 0;
    assert forall k :: n <= k < |s| ==> s[k] == Encode(b)[k - n];
    SkipToEnd(s, IsBase64Char, n);
  }

  /** `extractImage`: the first inline part's data when it is not empty;
      otherwise an image found in the first text part; otherwise the error. */
  function ExtractImage(parts: seq<ReplyPart>): (r: Result<seq<byte>>)
    ensures r.Ok? ==> exists s :: Decode(s) == Some(r.value)
    ensures r.Err? ==> r.msg == "No image in response" || r.msg == "The string to be decoded is not correctly encoded."
    ensures (forall j :: 0 <= j < |parts| ==> !HasInline(parts[j]) && parts[j].text.None?) ==>
      r == Err("No image in response")
  {
    var i := FirstInline(parts);
    var bin := if i < |parts| then InlineData(parts[i]) else "";
    if bin != "" then AtobBytes(bin) else TextImage(parts)
  }

  /** The fallback: an image found in the first text part, or the error. */
  function TextImage(parts: seq<ReplyPart>): Result<seq<byte>>
  {
    var k := FirstText(parts);
    if k < |parts| && parts[k].text.value != "" && ExtractBase64Image(parts[k].text.value).Some? then
      AtobBytes(ExtractBase64Image(parts[k].text.value).value)
    else Err("No image in response")
  }

  /** An image sent back inline comes out as the bytes it encodes, whatever
      parts follow. */
  lemma ExtractInlineImage(b: seq<byte>, rest: seq<ReplyPart>)
    requires |b| > 0
    ensures ExtractImage([ReplyPart(Some(Encode(b)), None, None)] + rest) == Ok(b)
  {
    var parts := [ReplyPart(Some(Encode(b)), None, None)] + rest;
    assert |EncodeGroups(b)| > 0;
    assert FirstInline(parts) == 0;
    DecodeEncode(b);
  }

  /** Inline data comes first: a text part, even an earlier one, is not
      looked at when the first inline part has data. */
  lemma InlineBeatsText(parts: seq<ReplyPart>)
    requires FirstInline(parts) < |parts| && InlineData(parts[FirstInline(parts)]) != ""
    ensures ExtractImage(parts) == AtobBytes(InlineData(parts[FirstInline(parts)]))
  {
    var bin := InlineData(parts[FirstInline(parts)]);
    assert bin != "";
  }

  /** An image sent back as a PNG data URI in a text part is recovered. */
  lemma ExtractTextImage(b: seq<byte>)
    requires |b| > 0
    ensures ExtractImage([ReplyPart(None, None, Some(DataUrlPng + Encode(b)))]) == Ok(b)
  {
    ExtractFromDataUri(b);
    DecodeEncode(b);
    var parts := [ReplyPart(None, None, Some(DataUrlPng + Encode(b)))];
    assert FirstInline(parts) == 1;
    assert FirstText(parts) == 0;
  }

  /** A reply with no inline data and no text fails with the fixed message. */
  lemma NoImageInEmptyReply(parts: seq<ReplyPart>)
    requires forall j :: 0 <= j < |parts| ==> parts[j] == ReplyPart(None, None, None)
    ensures ExtractImage(parts) == Err("No image in response")
  {
    assert FirstInline(parts) == |parts|;
    assert FirstText(parts) == |parts|;
  }

  /** What `truncate` appends: the three characters U+00E2 U+20AC U+00A6 as
      the source spells them (the UTF-8 bytes of an ellipsis read as
      Windows-1252), not the single character U+2026. */
  const Ellipsis: string := "\U{00E2}\U{20AC}\U{00A6}"

  /** `truncate`: at most `n` characters of `s`, with an ellipsis when some
      were cut. */
  function Truncate(s: string, n: nat): (r: string)
    ensures |s| <= n ==> r == s
    ensures |s| > n ==> |r| == n + 3 && StartsWith(r, s[..n]) && EndsWith(r, Ellipsis)
    ensures |r| <= n + 3
  {
    if |s| > n then s[..n] + Ellipsis else s
  }

  /** Truncating twice is truncating once. */
  lemma TruncateIdempotent(s: string, n: nat)
    ensures Truncate(Truncate(s, n), n) == Truncate(s, n)
  {
    if |s| > n {
      var r := s[..n] + Ellipsis;
      assert r[..n] == s[..n];
    }
  }

  /** `/allowed mimetypes/i` on a 400 reply: the endpoint refuses
      `response_mime_type` for this key. */
  predicate IsMimeRejection(reply: Reply) {
    reply.Reply? && reply.status == 400 && ContainsIgnoreCase(reply.body, "allowed mimetypes")
  }

  /** What `generateImage` yields for a key and the replies it gets. A
      `fetch` that throws, for the request or for its retry, fails the call
      with the thrown error. */
  function Generate(apiKey: string, ex: Exchange): (r: Result<seq<byte>>)
    ensures apiKey != "" && ex.first.FetchThrew? ==> r == Err(ex.first.error)
    ensures apiKey != "" && IsMimeRejection(ex.first) && ex.retry.FetchThrew? ==> r == Err(ex.retry.error)
  {
    if apiKey == "" then Err("Missing Gemini API key")
    else
      match ex.first
      case FetchThrew(error) => Err(error)
      case Reply(status, body, parts) =>
        if IsOkStatus(status) then ExtractImage(parts)
        else if !IsMimeRejection(ex.first) then
          Err("Gemini error " + NatToString(status) + ": " + Truncate(body, 400))
        else
          match ex.retry
          case FetchThrew(error) => Err(error)
          case Reply(_, _, retryParts) => ExtractImage(retryParts)
  }

  /** The status of the retry is never looked at: a failing retry is read
      as if it had succeeded. */
  lemma RetryStatusIgnored(apiKey: string, first: Reply, retry1: Reply, retry2: Reply)
    requires IsMimeRejection(first) && retry1.Reply? && retry2.Reply? && retry1.parts == retry2.parts
    ensures Generate(apiKey, Exchange(first, retry1)) == Generate(apiKey, Exchange(first, retry2))
  {
  }

  /** A reply that fails other than by a media-type rejection gives an error
      naming its status, with at most 400 characters of its body and the
      three appended characters. */
  lemma GenerateErrorBounded(apiKey: string, ex: Exchange)
    requires apiKey != "" && ex.first.Reply? && !IsOkStatus(ex.first.status) && !IsMimeRejection(ex.first)
    ensures Generate(apiKey, ex).Err?
    ensures StartsWith(Generate(apiKey, ex).msg, "Gemini error " + NatToString(ex.first.status) + ": ")
    ensures |Generate(apiKey, ex).msg| <= |"Gemini error " + NatToString(ex.first.status) + ": "| + 403
  {
    var head := "Gemini error " + NatToString(ex.first.status) + ": ";
    var m := Generate(apiKey, ex).msg;
    assert m == head + Truncate(ex.first.body, 400);
    assert m[..|head|] == head;
  }

  /** `base64ToBytes` (browser branch): `atob`, then a `Uint8Array` filled
      with the character codes; fails where `atob` throws. */
  method Base64ToBytes(b64: string) returns (r: Result<seq<byte>>)
    ensures r == AtobBytes(b64)
  {
    var bin := Atob(b64);
    if bin.Err? {
      return Err(bin.msg);
    }
    var text := bin.value;
    var bytes := new byte[|text|];
    var i := 0;
    while i < |text|
      invariant 0 <= i <= |text|
      invariant forall j :: 0 <= j < i ==> bytes[j] as int == text[j] as int
    {
      bytes[i] := text[i] as int as byte;
      i := i + 1;
    }
    CharCodesOfBinary(Decode(b64).value);
    assert bytes[..] == CharCodes(text);
    r := Ok(bytes[..]);
  }

  /** `generateImage`: no request without a key; one request, and exactly
      one more without `generationConfig` when the first is refused for its
      media type; then the image is looked for in the reply. `sent` lists
      the requests in the order they go out. */
  method GenerateImage(apiKey: string, body: Request, ex: Exchange) returns (r: Result<seq<byte>>, sent: seq<Request>)
    ensures r == Generate(apiKey, ex)
    ensures apiKey == "" ==> sent == []
    ensures apiKey != "" ==> 1 <= |sent| <= 2 && sent[0] == body
    ensures |sent| == 2 <==> apiKey != "" && IsMimeRejection(ex.first)
    ensures |sent| == 2 ==> sent[1] == body.(pngOnly := false)
  {
    if apiKey == "" {
      return Err("Missing Gemini API key"), [];
    }
    sent := [body];
    var res := ex.first;
    if res.FetchThrew? {
      return Err(res.error), sent;
    }
    if !IsOkStatus(res.status) {
      if IsMimeRejection(res) {
        var bodyNoMime := body.(pngOnly := false);
        sent := sent + [bodyNoMime];
        res := ex.retry;
        if res.FetchThrew? {
          return Err(res.error), sent;
        }
      } else {
        return Err("Gemini error " + NatToString(res.status) + ": " + Truncate(res.body, 400)), sent;
      }
    }
    var parts := res.parts;
    var i := FirstInline(parts);
    var bin := if i < |parts| then InlineData(parts[i]) else "";
    if bin != "" {
      r := Base64ToBytes(bin);
      return;
    }
    var k := FirstText(parts);
    if k < |parts| && parts[k].text.value != "" {
      var b64 := ExtractBase64Image(parts[k].text.value);
      if b64.Some? {
        r := Base64ToBytes(b64.value);
        return;
      }
    }
    r := Err("No image in response");
  }

  /** `edit`: the image and the guarded instruction in one request. */
  method Edit(imageBytes: seq<byte>, mime: string, instruction: string, apiKey: string, ex: Exchange)
    returns (r: Result<seq<byte>>, sent: seq<Request>)
    ensures r == Generate(apiKey, ex)
    ensures apiKey == "" ==> sent == []
    ensures apiKey != "" ==> 1 <= |sent| <= 2 && sent[0] == EditRequest(imageBytes, mime, instruction)
  {
    var data := ToBase64(imageBytes);
    var body := Request([TextPart(InstructionGuard(instruction)), InlinePart(mime, data)], true);
    r, sent := GenerateImage(apiKey, body, ex);
  }

  /** `blend`: the guarded instruction, the base image, then the reference. */
  method Blend(baseBytes: seq<byte>, baseMime: string, refBytes: seq<byte>, refMime: string,
               instruction: string, apiKey: string, ex: Exchange)
    returns (r: Result<seq<byte>>, sent: seq<Request>)
    ensures r == Generate(apiKey, ex)
    ensures apiKey == "" ==> sent == []
    ensures apiKey != "" ==> 1 <= |sent| <= 2
                             && sent[0] == BlendRequest(baseBytes, baseMime, refBytes, refMime, instruction)
  {
    var baseData := ToBase64(baseBytes);
    var refData := ToBase64(refBytes);
    var body := Request([TextPart(InstructionGuard(instruction)), InlinePart(baseMime, baseData),
                         InlinePart(refMime, refData)], true);
    r, sent := GenerateImage(apiKey, body, ex);
  }

  /** The outcome of the call for panel `i`. */
  function PanelOutcomeOf(apiKey: string, exchanges: nat -> Exchange): nat -> Result<seq<byte>> {
    (i: nat) => Generate(apiKey, exchanges(i))
  }

  /** The outcome of every panel's call, in panel order. */
  function PanelResults(apiKey: string, panelCount: nat, exchanges: nat -> Exchange): (rs: seq<Result<seq<byte>>>)
    ensures |rs| == panelCount
    ensures forall i :: 0 <= i < panelCount ==> rs[i] == Generate(apiKey, exchanges(i))
  {
    Tabulate(panelCount, PanelOutcomeOf(apiKey, exchanges))
  }

  /** The panels come back in order and all of them, or the call fails; with
      no key and at least one panel it fails with the key error, while an
      empty panel list succeeds even without a key. */
  lemma ComicOutcome(apiKey: string, panelCount: nat, exchanges: nat -> Exchange)
    ensures var r := AllOrNothing(PanelResults(apiKey, panelCount, exchanges));
      && (r.Ok? ==> |r.value| == panelCount)
      && (r.Ok? ==> forall i :: 0 <= i < panelCount ==> r.value[i] == Generate(apiKey, exchanges(i)).value)
      && (r.Err? <==> exists i :: 0 <= i < panelCount && Generate(apiKey, exchanges(i)).Err?)
      && (apiKey == "" && panelCount > 0 ==> r == Err("Missing Gemini API key"))
      && (panelCount == 0 ==> r == Ok([]))
  {
    var rs := PanelResults(apiKey, panelCount, exchanges);
    var r := AllOrNothing(rs);
    if r.Err? {
      var i :| 0 <= i < |rs| && rs[i] == Err(r.msg) && forall j :: 0 <= j < i ==> rs[j].Ok?;
      assert Generate(apiKey, exchanges(i)).Err?;
    }
    if apiKey == "" && panelCount > 0 {
      assert rs[0].Err?;
    }
  }

  /** The request for one panel, sent with `generateImage`; `first` is the
      first request made when there is a key. */
  method ComicPanel(personaBytes: seq<byte>, personaMime: string, data: string, style: string, panel: string,
                    apiKey: string, ex: Exchange)
    returns (out: Result<seq<byte>>, first: Request)
    requires data == Encode(personaBytes)
    ensures out == Generate(apiKey, ex)
    ensures apiKey != "" ==> first == ComicRequest(personaBytes, personaMime, style, panel)
  {
    var body := Request([TextPart(ComicPrompt(style, panel)), InlinePart(personaMime, data)], true);
    var sent;
    out, sent := GenerateImage(apiKey, body, ex);
    first := if apiKey != "" then sent[0] else body;
  }

  /** The first request of every panel, in panel order. */
  function ComicRequests(personaBytes: seq<byte>, personaMime: string, style: string, panels: seq<string>): seq<Request>
  {
    if panels == [] then []
    else ComicRequests(personaBytes, personaMime, style, panels[..|panels| - 1])
         + [ComicRequest(personaBytes, personaMime, style, panels[|panels| - 1])]
  }

  /** One request per panel, panel `i` asking for panel `i`'s text. */
  lemma {:induction false} ComicRequestsPerPanel(personaBytes: seq<byte>, personaMime: string, style: string, panels: seq<string>)
    ensures |ComicRequests(personaBytes, personaMime, style, panels)| == |panels|
    ensures forall i :: 0 <= i < |panels| ==>
      ComicRequests(personaBytes, personaMime, style, panels)[i] == ComicRequest(personaBytes, personaMime, style, panels[i])
    decreases |panels|
  {
    if panels != [] {
      var init := panels[..|panels| - 1];
      ComicRequestsPerPanel(personaBytes, personaMime, style, init);
      var front := ComicRequests(personaBytes, personaMime, style, init);
      var last := ComicRequest(personaBytes, personaMime, style, panels[|panels| - 1]);
      var rs := ComicRequests(personaBytes, personaMime, style, panels);
      assert rs == front + [last];
      forall i | 0 <= i < |panels|
        ensures rs[i] == ComicRequest(personaBytes, personaMime, style, panels[i])
      {
        if i < |init| {
          assert rs[i] == front[i] && panels[i] == init[i];
        }
      }
    }
  }

  /** `comic`: one request per panel, all of them issued, read back in panel
      order; one failure fails the whole call. `firsts[i]` is the first
      request made for panel `i`. */
  method Comic(personaBytes: seq<byte>, personaMime: string, style: string, panels: seq<string>,
               apiKey: string, exchanges: nat -> Exchange)
    returns (r: Result<seq<seq<byte>>>, firsts: seq<Request>)
    ensures r == AllOrNothing(PanelResults(apiKey, |panels|, exchanges))
    ensures apiKey != "" ==> firsts == ComicRequests(personaBytes, personaMime, style, panels)
  {
    var data := ToBase64(personaBytes);
    var outs: seq<Result<seq<byte>>> := [];
    firsts := [];
    var i := 0;
    while i < |panels|
      invariant 0 <= i <= |panels|
      invariant outs == Tabulate(i, PanelOutcomeOf(apiKey, exchanges))
      invariant apiKey != "" ==> firsts == ComicRequests(personaBytes, personaMime, style, panels[..i])
    {
      var out, first := ComicPanel(personaBytes, personaMime, data, style, panels[i], apiKey, exchanges(i));
      TabulateSnoc(i, PanelOutcomeOf(apiKey, exchanges));
      outs := outs + [out];
      if apiKey != "" {
        assert panels[..i + 1][..i] == panels[..i];
        firsts := firsts + [first];
      }
      i := i + 1;
    }
    assert panels[..i] == panels;
    r := AllOrNothing(outs);
  }
}
