/** `POST /api/edit` (`web/app/api/edit/route.ts`): one image and an
    instruction in, one to three edited PNGs out, with known user errors
    answered 400 and upstream network failures 502. */
module EditRoute {
  import opened Common
  import opened Strings
  import opened Images
  import opened Routes
  import Gemini
  import Fal

  /** The request as the route reads it: the fields of a multipart form or
      of a JSON body. `""` stands for a missing form field or URL and 0 for
      a missing count; a JSON body's instruction may be absent altogether
      (`undefined`), where a form's reads as `""`. */
  datatype EditInput =
    | Multipart(instruction: string, providerField: string, variants: int, imageFile: Option<Upload>)
    | Json(jsonInstruction: Option<string>, providerField: string, variants: int, imageUrl: string)

  /** The answer: the images with the provider used, or an error status with
      its message. */
  datatype EditResponse =
    | Images(images: seq<string>, provider: Provider)
    | Failure(status: nat, error: string)

  /** `ensureDirective`: the same guard as the Gemini adapter's, applied by
      the route before either provider sees the prompt. */
  function EnsureDirective(s: string): (r: string)
    ensures Contains(r, Gemini.Marker)
    ensures Contains(s, Gemini.Marker) ==> r == s
    ensures !Contains(s, Gemini.Marker) ==> StartsWith(r, JsTrim(s))
  {
    if Contains(s, Gemini.Marker) then s
    else
      Gemini.GuardedHasMarker(s);
      JsTrim(s) + Gemini.GuardSuffix
  }

  lemma EnsureDirectiveIdempotent(s: string)
    ensures EnsureDirective(EnsureDirective(s)) == EnsureDirective(s)
  {
  }

  /** The adapter's own guard leaves the route's prompt as it is, so the
      directive is never appended twice. */
  lemma GuardKeepsRoutePrompt(s: string)
    ensures Gemini.InstructionGuard(EnsureDirective(s)) == EnsureDirective(s)
  {
  }

  /** The known user errors: `/missing|unsupported|too large|invalid/i`. */
  predicate IsUserError(msg: string): (user: bool)
    ensures user ==> |msg| >= |"missing"|
  {
    ContainsIgnoreCase(msg, "missing") || ContainsIgnoreCase(msg, "unsupported")
    || ContainsIgnoreCase(msg, "too large") || ContainsIgnoreCase(msg, "invalid")
  }

  /** Network failures: `/fetch failed|ENOTFOUND|ECONN|EAI_AGAIN|ETIMEDOUT/i`. */
  predicate IsNetworkError(msg: string): (network: bool)
    ensures network ==> |msg| >= |"econn"|
  {
    ContainsIgnoreCase(msg, "fetch failed") || ContainsIgnoreCase(msg, "enotfound")
    || ContainsIgnoreCase(msg, "econn") || ContainsIgnoreCase(msg, "eai_again")
    || ContainsIgnoreCase(msg, "etimedout")
  }

  /** The `i` flag: a message is a user error iff its lower case is. */
  lemma UserErrorIgnoresCase(msg: string)
    ensures IsUserError(Lower(msg)) == IsUserError(msg)
  {
    ContainsIgnoreCaseOfLower(msg, "missing");
    ContainsIgnoreCaseOfLower(msg, "unsupported");
    ContainsIgnoreCaseOfLower(msg, "too large");
    ContainsIgnoreCaseOfLower(msg, "invalid");
  }

  /** No anchors: a user error stays one whatever text surrounds it, so a
      wrapped message is still answered 400. */
  lemma UserErrorInContext(a: string, msg: string, b: string)
    requires IsUserError(msg)
    ensures IsUserError(a + msg + b)
  {
    if ContainsIgnoreCase(msg, "missing") {
      ContainsIgnoreCaseExtend(a, msg, b, "missing");
    } else if ContainsIgnoreCase(msg, "unsupported") {
      ContainsIgnoreCaseExtend(a, msg, b, "unsupported");
    } else if ContainsIgnoreCase(msg, "too large") {
      ContainsIgnoreCaseExtend(a, msg, b, "too large");
    } else {
      ContainsIgnoreCaseExtend(a, msg, b, "invalid");
    }
  }

  /** The `i` flag: a message is a network error iff its lower case is. */
  lemma NetworkErrorIgnoresCase(msg: string)
    ensures IsNetworkError(Lower(msg)) == IsNetworkError(msg)
  {
    ContainsIgnoreCaseOfLower(msg, "fetch failed");
    ContainsIgnoreCaseOfLower(msg, "enotfound");
    ContainsIgnoreCaseOfLower(msg, "econn");
    ContainsIgnoreCaseOfLower(msg, "eai_again");
    ContainsIgnoreCaseOfLower(msg, "etimedout");
  }

  /** No anchors: a network error stays one whatever text surrounds it. */
  lemma NetworkErrorInContext(a: string, msg: string, b: string)
    requires IsNetworkError(msg)
    ensures IsNetworkError(a + msg + b)
  {
    if ContainsIgnoreCase(msg, "fetch failed") {
      ContainsIgnoreCaseExtend(a, msg, b, "fetch failed");
    } else if ContainsIgnoreCase(msg, "enotfound") {
      ContainsIgnoreCaseExtend(a, msg, b, "enotfound");
    } else if ContainsIgnoreCase(msg, "econn") {
      ContainsIgnoreCaseExtend(a, msg, b, "econn");
    } else if ContainsIgnoreCase(msg, "eai_again") {
      ContainsIgnoreCaseExtend(a, msg, b, "eai_again");
    } else {
      ContainsIgnoreCaseExtend(a, msg, b, "etimedout");
    }
  }

  const UpstreamMessage: string := "Upstream fetch failed (Gemini/Fal). Check local network/proxy/SSL."

  /** `_err?.message || String(_err)`: the error's message, or, for an
      error without one, its text, which is the bare name "Error" for the
      `Error`s the route and the adapters throw. */
  function RawMessage(msg: string): (raw: string)
    ensures raw != ""
    ensures msg != "" ==> raw == msg
  {
    if msg == "" then "Error" else msg
  }

  /** The `catch` block on the raw message: user errors are 400, network
      failures 502 with a fixed message, anything else 500 with the raw
      message itself. The user test comes first, so a message that is both
      is a 400 that still carries the network text. */
  function ErrorResponse(msg: string): (r: EditResponse)
    ensures r.Failure? && r.error != ""
    ensures r.status == 400 <==> IsUserError(RawMessage(msg))
    ensures r.status == 502 <==> !IsUserError(RawMessage(msg)) && IsNetworkError(RawMessage(msg))
    ensures r.status == 500 <==> !IsUserError(RawMessage(msg)) && !IsNetworkError(RawMessage(msg))
    ensures IsNetworkError(RawMessage(msg)) ==> r.error == UpstreamMessage
    ensures !IsNetworkError(RawMessage(msg)) ==> r.error == RawMessage(msg)
  {
    var raw := RawMessage(msg);
    var status := if IsUserError(raw) then 400 else if IsNetworkError(raw) then 502 else 500;
    Failure(status, if IsNetworkError(raw) then UpstreamMessage else raw)
  }

  /** An error without a message is answered 500 with its bare name: "Error"
      is neither a user error nor a network failure. */
  lemma EmptyMessageIs500()
    ensures ErrorResponse("") == Failure(500, "Error")
  {
    assert LowerChar('E') == 'e';
    assert forall k :: 0 <= k < 5 ==> Lower("Error")[k] == "error"[k];
    assert Lower("Error") == "error";
    NotContainsChar("error", "missing", 0);
    NotContainsChar("error", "unsupported", 0);
    NotContainsChar("error", "too large", 0);
    NotContainsChar("error", "invalid", 0);
    NotContainsChar("error", "fetch failed", 0);
    NotContainsChar("error", "enotfound", 1);
    NotContainsChar("error", "econn", 1);
    NotContainsChar("error", "eai_again", 1);
    NotContainsChar("error", "etimedout", 1);
  }

  lemma ContainsLowerAt(s: string, needle: string, i: nat)
    requires i + |needle| <= |s| && Lower(s[i..i + |needle|]) == needle
    ensures ContainsIgnoreCase(s, needle)
  {
    assert Lower(s)[i..i + |needle|] == Lower(s[i..i + |needle|]);
    ContainsAt(Lower(s), needle, i);
  }

  /** A body over the ceiling is the user's fault. */
  lemma TooLargeIsUserError(n: nat)
    ensures ErrorResponse("Image too large: " + NatToString(n) + " bytes").status == 400
  {
    var s := "Image too large: " + NatToString(n) + " bytes";
    assert s[6..15] == "too large";
    ContainsLowerAt(s, "too large", 6);
  }

  /** An image of another type is the user's fault. */
  lemma UnsupportedIsUserError()
    ensures ErrorResponse("Unsupported image type").status == 400
  {
    ContainsLowerAt("Unsupported image type", "unsupported", 0);
  }

  /** The adapters' own key errors are the user's fault as well. */
  lemma AdapterKeyErrorsAreUserErrors()
    ensures ErrorResponse("Missing Gemini API key").status == 400
    ensures ErrorResponse("Missing Fal.ai API key").status == 400
  {
    var word := "Missing";
    assert LowerChar('M') == 'm';
    assert forall k :: 0 <= k < |word| ==> Lower(word)[k] == "missing"[k];
    assert Lower(word) == "missing";
    assert "Missing Gemini API key"[0..7] == word;
    assert "Missing Fal.ai API key"[0..7] == word;
    ContainsLowerAt("Missing Gemini API key", "missing", 0);
    ContainsLowerAt("Missing Fal.ai API key", "missing", 0);
  }

  /** Text without some character of `needle` does not contain it. */
  lemma NotContainsChar(s: string, needle: string, j: nat)
    requires j < |needle| && needle[j] !in s
    ensures !Contains(s, needle)
  {
    forall i | 0 <= i <= |s| - |needle|
      ensures !OccursAt(s, needle, i)
    {
      assert s[i..i + |needle|][j] == s[i + j];
    }
  }

  /** A failed `fetch` that is nothing else is answered 502. */
  lemma FetchFailedIs502()
    ensures ErrorResponse("fetch failed") == Failure(502, UpstreamMessage)
  {
    var s := "fetch failed";
    assert Lower(s) == s;
    ContainsLowerAt(s, "fetch failed", 0);
    NotContainsChar(s, "missing", 0);
    NotContainsChar(s, "unsupported", 0);
    NotContainsChar(s, "too large", 1);
    NotContainsChar(s, "invalid", 2);
  }

  predicate InputMissing(input: EditInput) {
    match input
    case Multipart(_, _, _, file) => file.None?
    case Json(_, _, _, url) => url == ""
  }

  function MissingInputMessage(input: EditInput): string {
    if input.Multipart? then "imageFile is required" else "imageUrl is required"
  }

  /** The image the route goes on with: the checked upload, or the download
      with its guessed type checked. */
  function LoadImage(input: EditInput, download: Download): (r: Result<Image>)
    requires !InputMissing(input)
    ensures r.Ok? ==> IsSupportedMime(r.value.mime)
  {
    match input
    case Multipart(_, _, _, file) => FileToBuffer(file.value, MaxImageBytes)
    case Json(_, _, _, url) =>
      match DownloadToBuffer(url, download, MaxImageBytes)
      case Err(msg) => Err(msg)
      case Ok(img) => if !IsSupportedMime(img.mime) then Err("Unsupported image type") else Ok(img)
  }

  /** The key the chosen provider needs. The route's two checks, one per
      provider, are one check on this key, since there are two providers. */
  function KeyFor(p: Provider, gemKey: string, falKey: string): string {
    if p == FalProvider then falKey else gemKey
  }

  function MissingKeyMessage(p: Provider): string {
    if p == FalProvider then "Missing Fal.ai API key. Set header x-fal-key or add it via BYOK."
    else "Missing Gemini API key. Set header x-gemini-key or add it via BYOK."
  }

  /** The outcome of the `i`-th provider call. */
  function VariantOutcome(p: Provider, gemKey: string, falKey: string,
                          gemini: nat -> Gemini.Exchange, fal: nat -> Fal.Run, i: nat): Result<seq<byte>>
  {
    if p == FalProvider then Fal.EditOutcome(falKey, fal(i)) else Gemini.Generate(gemKey, gemini(i))
  }

  function VariantOutcomes(p: Provider, gemKey: string, falKey: string,
                           gemini: nat -> Gemini.Exchange, fal: nat -> Fal.Run, n: nat): (rs: seq<Result<seq<byte>>>)
    ensures |rs| == n
    ensures forall i :: 0 <= i < n ==> rs[i] == VariantOutcome(p, gemKey, falKey, gemini, fal, i)
  {
    seq(n, i requires 0 <= i < n => VariantOutcome(p, gemKey, falKey, gemini, fal, i))
  }

  /** The prompt the route sends: the instruction under `ensureDirective`.
      An absent JSON instruction makes `ensureDirective` throw the
      `TypeError` of reading `includes` of `undefined`. */
  function RoutePrompt(input: EditInput): (r: Result<string>)
    ensures r.Err? <==> input.Json? && input.jsonInstruction.None?
    ensures r.Err? ==> r.msg == IncludesOfUndefined
    ensures r.Ok? ==> Contains(r.value, Gemini.Marker)
  {
    match input
    case Multipart(instruction, _, _, _) => Ok(EnsureDirective(instruction))
    case Json(None, _, _, _) => Err(IncludesOfUndefined)
    case Json(Some(instruction), _, _, _) => Ok(EnsureDirective(instruction))
  }

  /** What the route answers. */
  function EditResult(input: EditInput, gemKey: string, falKey: string, download: Download,
                      gemini: nat -> Gemini.Exchange, fal: nat -> Fal.Run): EditResponse
  {
    if InputMissing(input) then Failure(400, MissingInputMessage(input))
    else
      match LoadImage(input, download)
      case Err(msg) => ErrorResponse(msg)
      case Ok(img) =>
        var p := NormalizeProvider(input.providerField);
        if KeyFor(p, gemKey, falKey) == "" then Failure(400, MissingKeyMessage(p))
        else
          match RoutePrompt(input)
          case Err(msg) => ErrorResponse(msg)
          case Ok(_) => Answer(p, gemKey, falKey, gemini, fal, ClampVariants(input.variants))
  }

  /** The answer once the key is there: the first failed call's message, or
      every variant as a PNG data URI. */
  function Answer(p: Provider, gemKey: string, falKey: string,
                  gemini: nat -> Gemini.Exchange, fal: nat -> Fal.Run, n: nat): EditResponse
  {
    match AllOrNothing(VariantOutcomes(p, gemKey, falKey, gemini, fal, n))
    case Err(msg) => ErrorResponse(msg)
    case Ok(outs) => Images(DataUris(outs), p)
  }

  /** The steps the route takes towards the outside world: the download of
      a JSON request's image, then one provider call per variant made. */
  function EditTrace(input: EditInput, gemKey: string, falKey: string, download: Download,
                     gemini: nat -> Gemini.Exchange, fal: nat -> Fal.Run): seq<Step>
  {
    if InputMissing(input) then []
    else
      var loads := if input.Json? then [Downloaded(input.imageUrl)] else [];
      match LoadImage(input, download)
      case Err(_) => loads
      case Ok(img) =>
        var p := NormalizeProvider(input.providerField);
        if KeyFor(p, gemKey, falKey) == "" then loads
        else
          match RoutePrompt(input)
          case Err(_) => loads
          case Ok(prompt) =>
            var n := CallCount(VariantOutcomes(p, gemKey, falKey, gemini, fal, ClampVariants(input.variants)));
            loads + Repeat(ProviderCalled(p, prompt, [img.bytes]), n)
  }

  /** A successful answer holds one PNG data URI per variant, in call order,
      and names the provider asked for. */
  lemma EditImagesInOrder(input: EditInput, gemKey: string, falKey: string, download: Download,
                          gemini: nat -> Gemini.Exchange, fal: nat -> Fal.Run)
    requires EditResult(input, gemKey, falKey, download, gemini, fal).Images?
    ensures var r := EditResult(input, gemKey, falKey, download, gemini, fal);
      && |r.images| == ClampVariants(input.variants)
      && r.provider == NormalizeProvider(input.providerField)
      && forall i :: 0 <= i < |r.images| ==>
           VariantOutcome(r.provider, gemKey, falKey, gemini, fal, i).Ok?
           && r.images[i] == PngDataUri(VariantOutcome(r.provider, gemKey, falKey, gemini, fal, i).value)
  {
  }

  /** Nothing is fetched for a request without an image; a JSON request
      downloads first; no provider is called without a usable image or
      without its key. */
  lemma EditTraceGuards(input: EditInput, gemKey: string, falKey: string, download: Download,
                       gemini: nat -> Gemini.Exchange, fal: nat -> Fal.Run)
    ensures var t := EditTrace(input, gemKey, falKey, download, gemini, fal);
      && (InputMissing(input) ==> t == [])
      && (input.Json? && !InputMissing(input) ==> |t| >= 1 && t[0] == Downloaded(input.imageUrl))
      && (InputMissing(input) || LoadImage(input, download).Err? ==> NoProviderCall(t))
      && ((!InputMissing(input) && LoadImage(input, download).Ok?
           && KeyFor(NormalizeProvider(input.providerField), gemKey, falKey) == "") ==> NoProviderCall(t))
      && (RoutePrompt(input).Err? ==> NoProviderCall(t))
  {
  }

  /** Every provider call gets the chosen provider, the guarded prompt and
      the loaded image. */
  lemma EditTraceCalls(input: EditInput, gemKey: string, falKey: string, download: Download,
                       gemini: nat -> Gemini.Exchange, fal: nat -> Fal.Run)
    ensures var t := EditTrace(input, gemKey, falKey, download, gemini, fal);
      forall i :: 0 <= i < |t| && t[i].ProviderCalled? ==>
            !InputMissing(input) && LoadImage(input, download).Ok?
            && t[i].provider == NormalizeProvider(input.providerField)
            && RoutePrompt(input) == Ok(t[i].prompt)
            && t[i].images == [LoadImage(input, download).value.bytes]
  {
    var t := EditTrace(input, gemKey, falKey, download, gemini, fal);
    if !InputMissing(input) && LoadImage(input, download).Ok? {
      var img := LoadImage(input, download).value;
      var p := NormalizeProvider(input.providerField);
      var loads := if input.Json? then [Downloaded(input.imageUrl)] else [];
      if KeyFor(p, gemKey, falKey) != "" && RoutePrompt(input).Ok? {
        var n := CallCount(VariantOutcomes(p, gemKey, falKey, gemini, fal, ClampVariants(input.variants)));
        var call := ProviderCalled(p, RoutePrompt(input).value, [img.bytes]);
        assert t == loads + Repeat(call, n);
        forall i | 0 <= i < |t| && t[i].ProviderCalled? ensures t[i] == call {
          if i >= |loads| {
            assert t[i] == Repeat(call, n)[i - |loads|];
          }
        }
      } else {
        assert t == loads;
      }
    } else if !InputMissing(input) {
      assert t == (if input.Json? then [Downloaded(input.imageUrl)] else []);
    }
  }

  /** A success made one call per variant, after the download if any. */
  lemma EditTraceLength(input: EditInput, gemKey: string, falKey: string, download: Download,
                       gemini: nat -> Gemini.Exchange, fal: nat -> Fal.Run)
    ensures EditResult(input, gemKey, falKey, download, gemini, fal).Images? ==>
      |EditTrace(input, gemKey, falKey, download, gemini, fal)| == (if input.Json? then 1 else 0) + ClampVariants(input.variants)
  {
  }

  /** A JSON body without an instruction, once its image has loaded and the
      key is there, is answered 500 with the `TypeError`'s message, and no
      provider is called: the message is neither a known user error nor a
      network failure. */
  lemma MissingJsonInstructionIs500(input: EditInput, gemKey: string, falKey: string, download: Download,
                                    gemini: nat -> Gemini.Exchange, fal: nat -> Fal.Run)
    requires input.Json? && input.jsonInstruction.None? && input.imageUrl != ""
    requires LoadImage(input, download).Ok?
    requires KeyFor(NormalizeProvider(input.providerField), gemKey, falKey) != ""
    ensures EditResult(input, gemKey, falKey, download, gemini, fal) == Failure(500, IncludesOfUndefined)
    ensures EditTrace(input, gemKey, falKey, download, gemini, fal) == [Downloaded(input.imageUrl)]
  {
    TypeErrorIs500();
  }

  /** A provider `fetch` that fails on the network in the first variant's
      call (Gemini's request, or Fal's submit) ends the request with a 502
      and the friendly message, after that one call. */
  lemma ProviderFetchFailureIs502(input: EditInput, gemKey: string, falKey: string, download: Download,
                                  gemini: nat -> Gemini.Exchange, fal: nat -> Fal.Run)
    requires !InputMissing(input) && LoadImage(input, download).Ok? && RoutePrompt(input).Ok?
    requires KeyFor(NormalizeProvider(input.providerField), gemKey, falKey) != ""
    requires NormalizeProvider(input.providerField) == GeminiProvider ==>
               gemini(0).first == Gemini.FetchThrew("fetch failed")
    requires NormalizeProvider(input.providerField) == FalProvider ==>
               fal(0).submit == Fal.SubmitThrew("fetch failed")
    ensures EditResult(input, gemKey, falKey, download, gemini, fal) == Failure(502, UpstreamMessage)
    ensures var t := EditTrace(input, gemKey, falKey, download, gemini, fal);
      && |t| == (if input.Json? then 1 else 0) + 1
      && t[|t| - 1] == ProviderCalled(NormalizeProvider(input.providerField), RoutePrompt(input).value,
                                      [LoadImage(input, download).value.bytes])
  {
    var p := NormalizeProvider(input.providerField);
    var all := VariantOutcomes(p, gemKey, falKey, gemini, fal, ClampVariants(input.variants));
    assert all[0] == Err("fetch failed");
    AllOrNothingFirstErr(all, 0);
    CallCountAtFirstErr(all, 0);
    FetchFailedIs502();
  }

  /** The message of the `TypeError`, and its lower-case form, built word by
      word. */
  const IncludesOfUndefined: string :=
    "Cannot" + " " + "read" + " " + "properties" + " " + "of" + " " + "undefined" + " " + "(reading" + " " + "'includes')"
  const LowerWords: string :=
    "cannot" + " " + "read" + " " + "properties" + " " + "of" + " " + "undefined" + " " + "(reading" + " " + "'includes')"

  lemma LowerMessage()
    ensures Lower(IncludesOfUndefined) == LowerWords
  {
    assert Lower("Cannot") == "cannot";
    LowerOfLowerCase("read");
    LowerOfLowerCase("properties");
    LowerOfLowerCase("of");
    LowerOfLowerCase("undefined");
    LowerOfLowerCase("(reading");
    LowerOfLowerCase("'includes')");
    var p, q := "Cannot", "cannot";
    LowerAcrossSpace(p, "read");
    p, q := p + " " + "read", q + " " + "read";
    LowerAcrossSpace(p, "properties");
    p, q := p + " " + "properties", q + " " + "properties";
    LowerAcrossSpace(p, "of");
    p, q := p + " " + "of", q + " " + "of";
    LowerAcrossSpace(p, "undefined");
    p, q := p + " " + "undefined", q + " " + "undefined";
    LowerAcrossSpace(p, "(reading");
    p, q := p + " " + "(reading", q + " " + "(reading";
    LowerAcrossSpace(p, "'includes')");
  }

  lemma NoMissing()
    ensures !Contains(LowerWords, "missing")
  {
    NotContainsChar("properties", "missing", 0);
    NotContainsChar("undefined", "missing", 0);
    NotContainsChar("(reading", "missing", 0);
    NotContainsChar("'includes')", "missing", 0);
    NotInWords("missing");
  }

  lemma NoUnsupported()
    ensures !Contains(LowerWords, "unsupported")
  {
    NotContainsChar("'includes')", "unsupported", 4);
    NotInWords("unsupported");
  }

  lemma NoTooLarge()
    ensures !Contains(LowerWords, "too large")
  {
    NotContainsChar("cannot", "large", 0);
    NotContainsChar("properties", "large", 0);
    NotContainsChar("undefined", "large", 0);
    NotContainsChar("(reading", "large", 0);
    NotContainsChar("'includes')", "large", 1);
    NotInWords("large");
    assert "too large"[4..9] == "large";
    NotContainsPart(LowerWords, "too large", 4, 9);
  }

  lemma NoInvalid()
    ensures !Contains(LowerWords, "invalid")
  {
    NotContainsChar("properties", "invalid", 1);
    NotContainsChar("undefined", "invalid", 2);
    NotContainsChar("(reading", "invalid", 2);
    NotContainsChar("'includes')", "invalid", 2);
    NotInWords("invalid");
  }

  lemma NoFetchFailed()
    ensures !Contains(LowerWords, "fetch failed")
  {
    NotContainsChar("cannot", "fetch", 0);
    NotContainsChar("properties", "fetch", 0);
    NotContainsChar("undefined", "fetch", 2);
    NotContainsChar("(reading", "fetch", 0);
    NotContainsChar("'includes')", "fetch", 0);
    NotInWords("fetch");
    assert "fetch failed"[0..5] == "fetch";
    NotContainsPart(LowerWords, "fetch failed", 0, 5);
  }

  lemma NoEnotfound()
    ensures !Contains(LowerWords, "enotfound")
  {
    NotContainsChar("properties", "enotfound", 1);
    NotContainsChar("undefined", "enotfound", 2);
    NotContainsChar("'includes')", "enotfound", 2);
    NotInWords("enotfound");
  }

  lemma NoEconn()
    ensures !Contains(LowerWords, "econn")
  {
    NotContainsChar("cannot", "econn", 0);
    NotContainsChar("properties", "econn", 1);
    NotContainsChar("undefined", "econn", 1);
    NotContainsChar("(reading", "econn", 1);
    NotContainsChar("'includes')", "econn", 2);
    NotInWords("econn");
  }

  lemma NoEaiAgain()
    ensures !Contains(LowerWords, "eai_again")
  {
    NotContainsChar("properties", "eai_again", 1);
    NotContainsChar("undefined", "eai_again", 1);
    NotContainsChar("'includes')", "eai_again", 1);
    NotInWords("eai_again");
  }

  lemma NoEtimedout()
    ensures !Contains(LowerWords, "etimedout")
  {
    NotContainsChar("properties", "etimedout", 3);
    NotContainsChar("undefined", "etimedout", 1);
    NotContainsChar("'includes')", "etimedout", 1);
    NotInWords("etimedout");
  }

  lemma NotInWords(needle: string)
    requires ' ' !in needle
    requires !Contains("cannot", needle) && !Contains("read", needle) && !Contains("properties", needle)
    requires !Contains("of", needle) && !Contains("undefined", needle) && !Contains("(reading", needle)
    requires !Contains("'includes')", needle)
    ensures !Contains(LowerWords, needle)
  {
    var p := "cannot";
    NotContainsAcross(p, ' ', "read", needle);
    p := p + " " + "read";
    NotContainsAcross(p, ' ', "properties", needle);
    p := p + " " + "properties";
    NotContainsAcross(p, ' ', "of", needle);
    p := p + " " + "of";
    NotContainsAcross(p, ' ', "undefined", needle);
    p := p + " " + "undefined";
    NotContainsAcross(p, ' ', "(reading", needle);
    p := p + " " + "(reading";
    NotContainsAcross(p, ' ', "'includes')", needle);
  }

  lemma TypeErrorIs500()
    ensures ErrorResponse(IncludesOfUndefined) == Failure(500, IncludesOfUndefined)
  {
    LowerMessage();
    NoMissing(); NoUnsupported(); NoTooLarge(); NoInvalid();
    NoFetchFailed(); NoEnotfound(); NoEconn(); NoEaiAgain(); NoEtimedout();
  }

  /** Every failure the route answers is a 400, 500 or 502. */
  lemma EditStatuses(input: EditInput, gemKey: string, falKey: string, download: Download,
                     gemini: nat -> Gemini.Exchange, fal: nat -> Fal.Run)
    ensures var r := EditResult(input, gemKey, falKey, download, gemini, fal);
      r.Failure? ==> r.status in {400, 500, 502}
  {
  }

  /** Reading the image: the upload is checked, or the URL is downloaded
      and its type checked. */
  method LoadInput(input: EditInput, download: Download) returns (r: Result<Image>, trace: seq<Step>)
    requires !InputMissing(input)
    ensures r == LoadImage(input, download)
    ensures trace == if input.Json? then [Downloaded(input.imageUrl)] else []
  {
    trace := [];
    if input.Multipart? {
      r := FileToBuffer(input.imageFile.value, MaxImageBytes);
    } else {
      trace := [Downloaded(input.imageUrl)];
      var dl := DownloadToBuffer(input.imageUrl, download, MaxImageBytes);
      if dl.Err? {
        r := Err(dl.msg);
      } else if !IsSupportedMime(dl.value.mime) {
        r := Err("Unsupported image type");
      } else {
        r := dl;
      }
    }
  }

  /** One variant: the chosen provider's `edit` with the guarded prompt. */
  method CallProvider(p: Provider, gemKey: string, falKey: string, img: Image, prompt: string,
                      gemini: nat -> Gemini.Exchange, fal: nat -> Fal.Run, i: nat)
    returns (out: Result<seq<byte>>)
    ensures out == VariantOutcome(p, gemKey, falKey, gemini, fal, i)
  {
    if p == FalProvider {
      var calls;
      out, calls := Fal.Edit(img.bytes, img.mime, prompt, falKey, fal(i));
    } else {
      var sent;
      out, sent := Gemini.Edit(img.bytes, img.mime, prompt, gemKey, gemini(i));
    }
  }

  /** The `for` loop over the variants: one provider call after the other,
      stopping at the first failure. */
  method RunVariants(p: Provider, gemKey: string, falKey: string, img: Image, prompt: string, n: nat,
                     gemini: nat -> Gemini.Exchange, fal: nat -> Fal.Run)
    returns (r: Result<seq<seq<byte>>>, calls: seq<Step>)
    ensures r == AllOrNothing(VariantOutcomes(p, gemKey, falKey, gemini, fal, n))
    ensures calls == Repeat(ProviderCalled(p, prompt, [img.bytes]),
                            CallCount(VariantOutcomes(p, gemKey, falKey, gemini, fal, n)))
  {
    ghost var all := VariantOutcomes(p, gemKey, falKey, gemini, fal, n);
    calls := [];
    var outs: seq<seq<byte>> := [];
    var i := 0;
    while i < n
      invariant 0 <= i <= n
      invariant |outs| == i && forall j :: 0 <= j < i ==> all[j] == Ok(outs[j])
      invariant calls == Repeat(ProviderCalled(p, prompt, [img.bytes]), i)
    {
      var out := CallProvider(p, gemKey, falKey, img, prompt, gemini, fal, i);
      calls := calls + [ProviderCalled(p, prompt, [img.bytes])];
      if out.Err? {
        AllOrNothingFirstErr(all, i);
        CallCountAtFirstErr(all, i);
        return Err(out.msg), calls;
      }
      outs := outs + [out.value];
      i := i + 1;
    }
    AllOrNothingAllOk(all, outs);
    CallCountAllOk(all);
    r := Ok(outs);
  }

  /** The variants, then the answer built from them. */
  method Respond(p: Provider, gemKey: string, falKey: string, img: Image, prompt: string, n: nat,
                 gemini: nat -> Gemini.Exchange, fal: nat -> Fal.Run)
    returns (resp: EditResponse, calls: seq<Step>)
    ensures resp == Answer(p, gemKey, falKey, gemini, fal, n)
    ensures calls == Repeat(ProviderCalled(p, prompt, [img.bytes]),
                            CallCount(VariantOutcomes(p, gemKey, falKey, gemini, fal, n)))
  {
    var outs;
    outs, calls := RunVariants(p, gemKey, falKey, img, prompt, n, gemini, fal);
    if outs.Err? {
      return ErrorResponse(outs.msg), calls;
    }
    var images := ToDataUris(outs.value);
    resp := Images(images, p);
  }

  /** `POST`: the input is checked before anything is fetched, the key
      before any provider call; then the variants are made one after the
      other, and the first failure ends the request. */
  method Post(input: EditInput, gemKey: string, falKey: string, download: Download,
              gemini: nat -> Gemini.Exchange, fal: nat -> Fal.Run)
    returns (resp: EditResponse, trace: seq<Step>)
    ensures resp == EditResult(input, gemKey, falKey, download, gemini, fal)
    ensures trace == EditTrace(input, gemKey, falKey, download, gemini, fal)
  {
    if InputMissing(input) {
      return Failure(400, MissingInputMessage(input)), [];
    }
    var loaded;
    loaded, trace := LoadInput(input, download);
    if loaded.Err? {
      return ErrorResponse(loaded.msg), trace;
    }
    var img := loaded.value;
    var provider := NormalizeProvider(input.providerField);
    if KeyFor(provider, gemKey, falKey) == "" {
      return Failure(400, MissingKeyMessage(provider)), trace;
    }
    var instruction;
    if input.Multipart? {
      instruction := input.instruction;
    } else if input.jsonInstruction.Some? {
      instruction := input.jsonInstruction.value;
    } else {
      return ErrorResponse(IncludesOfUndefined), trace;
    }
    var calls;
    resp, calls := Respond(provider, gemKey, falKey, img, EnsureDirective(instruction),
                           ClampVariants(input.variants), gemini, fal);
    trace := trace + calls;
  }
}
