/** `POST /api/blend` (`web/app/api/blend/route.ts`): a base image, a
    reference image and an instruction in, one blended PNG out; every
    failure is answered with the same opaque 500. */
module BlendRoute {
  import opened Common
  import opened Strings
  import opened Base64
  import opened Images
  import opened Routes
  import Gemini
  import Fal

  /** The request: a multipart form with two files, or a JSON body with two
      URLs (`""` for a missing one) and an instruction that may be absent. */
  datatype BlendInput =
    | Multipart(instruction: string, providerField: string, baseFile: Option<Upload>, refFile: Option<Upload>)
    | Json(jsonInstruction: Option<string>, providerField: string, baseUrl: string, refUrl: string)

  datatype BlendResponse =
    | Blended(image: string, provider: Provider)
    | Failure(status: nat, error: string)

  /** The two images the route works on. */
  datatype Pair = Pair(base: Image, ref: Image)

  const BlendLead: string := "Transform the base image according to this instruction: "
  const BlendMid: string :=
    ". Use the second image as a style/texture/object reference to blend or fuse realistically. Match lighting/perspective; add a soft contact shadow. "
  const BlendTail: string := BlendMid + Gemini.Marker + "; no text."

  /** `ensureBlendPrompt`: the instruction wrapped in the blend template,
      which already carries the PNG directive. */
  function EnsureBlendPrompt(instruction: string): (p: string)
    ensures StartsWith(p, BlendLead) && EndsWith(p, BlendTail)
    ensures |p| == |BlendLead| + |instruction| + |BlendTail|
    ensures Contains(p, Gemini.Marker)
  {
    var p := BlendLead + instruction + BlendTail;
    assert p == (BlendLead + instruction + BlendMid) + Gemini.Marker + "; no text.";
    Gemini.MarkerInside(BlendLead + instruction + BlendMid, "; no text.");
    assert p[|p| - |BlendTail|..] == BlendTail;
    p
  }

  /** The instruction the template receives: a form's text, or a JSON
      body's as the template literal shows it. */
  function Instruction(input: BlendInput): string {
    match input
    case Multipart(instruction, _, _, _) => instruction
    case Json(instruction, _, _, _) => TemplateText(instruction)
  }

  /** The instruction is found again between the template's two halves. */
  lemma BlendPromptRecoversInstruction(instruction: string)
    ensures var p := EnsureBlendPrompt(instruction);
      p[|BlendLead|..|p| - |BlendTail|] == instruction
  {
    var p := EnsureBlendPrompt(instruction);
    assert p == BlendLead + instruction + BlendTail;
  }

  /** The adapter's guard leaves the blend prompt as it is. */
  lemma GuardKeepsBlendPrompt(instruction: string)
    ensures Gemini.InstructionGuard(EnsureBlendPrompt(instruction)) == EnsureBlendPrompt(instruction)
  {
  }

  /** Reading both images: both files are required and each is checked by
      `fileToBuffer`; both URLs are required, the base is downloaded and its
      type checked before the reference is downloaded. */
  function LoadPair(input: BlendInput, baseDl: Download, refDl: Download): (r: Result<Pair>)
    ensures input.Multipart? && (input.baseFile.None? || input.refFile.None?) ==> r == Err("Files missing")
    ensures input.Json? && (input.baseUrl == "" || input.refUrl == "") ==> r == Err("URLs missing")
    ensures r.Ok? ==> IsSupportedMime(r.value.base.mime) && IsSupportedMime(r.value.ref.mime)
    ensures r.Ok? ==> |r.value.base.bytes| <= MaxImageBytes && |r.value.ref.bytes| <= MaxImageBytes
  {
    match input
    case Multipart(_, _, baseFile, refFile) =>
      if baseFile.None? || refFile.None? then Err("Files missing")
      else
        (match FileToBuffer(baseFile.value, MaxImageBytes)
         case Err(msg) => Err(msg)
         case Ok(b) =>
           match FileToBuffer(refFile.value, MaxImageBytes)
           case Err(msg) => Err(msg)
           case Ok(r) => Ok(Pair(b, r)))
    case Json(_, _, baseUrl, refUrl) =>
      if baseUrl == "" || refUrl == "" then Err("URLs missing")
      else
        match DownloadToBuffer(baseUrl, baseDl, MaxImageBytes)
        case Err(msg) => Err(msg)
        case Ok(b) =>
          if !IsSupportedMime(b.mime) then Err("Unsupported base type")
          else
            match DownloadToBuffer(refUrl, refDl, MaxImageBytes)
            case Err(msg) => Err(msg)
            case Ok(r) => if !IsSupportedMime(r.mime) then Err("Unsupported ref type") else Ok(Pair(b, r))
  }

  /** Both images the route goes on with are of a supported type. */
  lemma LoadedPairSupported(input: BlendInput, baseDl: Download, refDl: Download)
    requires LoadPair(input, baseDl, refDl).Ok?
    ensures IsSupportedMime(LoadPair(input, baseDl, refDl).value.base.mime)
    ensures IsSupportedMime(LoadPair(input, baseDl, refDl).value.ref.mime)
  {
  }

  /** The provider's outcome: Fal edits the base image alone; Gemini gets the
      base, then the reference. */
  function Outcome(p: Provider, gemKey: string, falKey: string, gemini: Gemini.Exchange, fal: Fal.Run): Result<seq<byte>>
  {
    if p == FalProvider then Fal.EditOutcome(falKey, fal) else Gemini.Generate(gemKey, gemini)
  }

  function BlendResult(input: BlendInput, gemKey: string, falKey: string, baseDl: Download, refDl: Download,
                       gemini: Gemini.Exchange, fal: Fal.Run): (r: BlendResponse)
    ensures r.Failure? ==> r == Failure(500, "Blend failed")
    ensures var p := NormalizeProvider(input.providerField);
      r.Blended? ==> && LoadPair(input, baseDl, refDl).Ok? && Outcome(p, gemKey, falKey, gemini, fal).Ok?
                     && r == Blended(PngDataUri(Outcome(p, gemKey, falKey, gemini, fal).value), p)
  {
    match LoadPair(input, baseDl, refDl)
    case Err(_) => Failure(500, "Blend failed")
    case Ok(_) => Answer(NormalizeProvider(input.providerField), gemKey, falKey, gemini, fal)
  }

  /** The answer once both images are in hand. */
  function Answer(p: Provider, gemKey: string, falKey: string, gemini: Gemini.Exchange, fal: Fal.Run): BlendResponse
  {
    match Outcome(p, gemKey, falKey, gemini, fal)
    case Err(_) => Failure(500, "Blend failed")
    case Ok(out) => Blended(PngDataUri(out), p)
  }

  /** The images sent to the provider: the base alone to Fal, base then
      reference to Gemini. */
  function SentImages(p: Provider, pair: Pair): seq<seq<byte>> {
    if p == FalProvider then [pair.base.bytes] else [pair.base.bytes, pair.ref.bytes]
  }

  /** The steps of a request: the downloads of a JSON request, then one
      provider call once both images are in hand. */
  function BlendTrace(input: BlendInput, baseDl: Download, refDl: Download): seq<Step>
  {
    var downloads := BlendDownloads(input, baseDl);
    match LoadPair(input, baseDl, refDl)
    case Err(_) => downloads
    case Ok(pair) =>
      var p := NormalizeProvider(input.providerField);
      downloads + [ProviderCalled(p, EnsureBlendPrompt(Instruction(input)), SentImages(p, pair))]
  }

  /** The downloads of a JSON request: the base, then the reference once the
      base is in hand and of a supported type. */
  function BlendDownloads(input: BlendInput, baseDl: Download): seq<Step>
  {
    if input.Multipart? || input.baseUrl == "" || input.refUrl == "" then []
    else if DownloadToBuffer(input.baseUrl, baseDl, MaxImageBytes).Err? then [Downloaded(input.baseUrl)]
    else if !IsSupportedMime(DownloadToBuffer(input.baseUrl, baseDl, MaxImageBytes).value.mime) then [Downloaded(input.baseUrl)]
    else [Downloaded(input.baseUrl), Downloaded(input.refUrl)]
  }

  /** Every failure, a missing file, a bad type, a missing key or an
      upstream error alike, is the same opaque 500. */
  lemma FailuresAreOpaque(input: BlendInput, gemKey: string, falKey: string, baseDl: Download, refDl: Download,
                          gemini: Gemini.Exchange, fal: Fal.Run)
    ensures var r := BlendResult(input, gemKey, falKey, baseDl, refDl, gemini, fal);
      r.Failure? ==> r == Failure(500, "Blend failed")
  {
  }

  /** A success carries the provider's bytes, which decode back from the
      data URI. */
  lemma BlendedImageDecodes(input: BlendInput, gemKey: string, falKey: string, baseDl: Download, refDl: Download,
                            gemini: Gemini.Exchange, fal: Fal.Run)
    requires BlendResult(input, gemKey, falKey, baseDl, refDl, gemini, fal).Blended?
    ensures var r := BlendResult(input, gemKey, falKey, baseDl, refDl, gemini, fal);
      var out := Outcome(r.provider, gemKey, falKey, gemini, fal);
      && r.provider == NormalizeProvider(input.providerField)
      && out.Ok? && r.image == PngDataUri(out.value)
      && Decode(r.image[|PngDataUriPrefix|..]) == Some(out.value)
  {
    var r := BlendResult(input, gemKey, falKey, baseDl, refDl, gemini, fal);
    var out := Outcome(r.provider, gemKey, falKey, gemini, fal);
    assert r.image[|PngDataUriPrefix|..] == Encode(out.value);
    DecodeEncode(out.value);
  }

  /** The route checks no key itself: without the chosen provider's key the
      provider is still called, its own key error is masked as the opaque
      500. */
  lemma MissingKeyReachesProvider(input: BlendInput, gemKey: string, falKey: string, baseDl: Download,
                                  refDl: Download, gemini: Gemini.Exchange, fal: Fal.Run)
    requires LoadPair(input, baseDl, refDl).Ok?
    requires NormalizeProvider(input.providerField) == GeminiProvider && gemKey == ""
    ensures BlendResult(input, gemKey, falKey, baseDl, refDl, gemini, fal) == Failure(500, "Blend failed")
    ensures var t := BlendTrace(input, baseDl, refDl);
      |t| >= 1 && t[|t| - 1].ProviderCalled?
  {
  }

  /** The one provider call carries the instruction inside the template; a
      JSON body without one sends the word `undefined` in its place. */
  lemma BlendCallPrompt(input: BlendInput, baseDl: Download, refDl: Download)
    requires LoadPair(input, baseDl, refDl).Ok?
    ensures var t := BlendTrace(input, baseDl, refDl);
      && |t| >= 1 && t[|t| - 1].ProviderCalled?
      && t[|t| - 1].prompt[|BlendLead|..|t[|t| - 1].prompt| - |BlendTail|] == Instruction(input)
      && (input.Json? && input.jsonInstruction.None? ==> t[|t| - 1].prompt == BlendLead + "undefined" + BlendTail)
  {
    BlendPromptRecoversInstruction(Instruction(input));
  }

  /** A JSON base of an unsupported type stops the request before the
      reference is downloaded. */
  lemma BadBaseSkipsReference(input: BlendInput, baseDl: Download, refDl: Download)
    requires input.Json? && input.baseUrl != "" && input.refUrl != ""
    requires DownloadToBuffer(input.baseUrl, baseDl, MaxImageBytes).Ok?
    requires !IsSupportedMime(DownloadToBuffer(input.baseUrl, baseDl, MaxImageBytes).value.mime)
    ensures BlendTrace(input, baseDl, refDl) == [Downloaded(input.baseUrl)]
  {
  }

  method LoadInput(input: BlendInput, baseDl: Download, refDl: Download) returns (r: Result<Pair>, downloads: seq<Step>)
    ensures r == LoadPair(input, baseDl, refDl)
    ensures downloads == BlendDownloads(input, baseDl)
  {
    downloads := [];
    if input.Multipart? {
      if input.baseFile.None? || input.refFile.None? {
        return Err("Files missing"), downloads;
      }
      var b := FileToBuffer(input.baseFile.value, MaxImageBytes);
      if b.Err? {
        return Err(b.msg), downloads;
      }
      var rf := FileToBuffer(input.refFile.value, MaxImageBytes);
      if rf.Err? {
        return Err(rf.msg), downloads;
      }
      r := Ok(Pair(b.value, rf.value));
    } else {
      if input.baseUrl == "" || input.refUrl == "" {
        return Err("URLs missing"), downloads;
      }
      downloads := [Downloaded(input.baseUrl)];
      var b := DownloadToBuffer(input.baseUrl, baseDl, MaxImageBytes);
      if b.Err? {
        return Err(b.msg), downloads;
      }
      if !IsSupportedMime(b.value.mime) {
        return Err("Unsupported base type"), downloads;
      }
      downloads := downloads + [Downloaded(input.refUrl)];
      var rf := DownloadToBuffer(input.refUrl, refDl, MaxImageBytes);
      if rf.Err? {
        return Err(rf.msg), downloads;
      }
      if !IsSupportedMime(rf.value.mime) {
        return Err("Unsupported ref type"), downloads;
      }
      r := Ok(Pair(b.value, rf.value));
    }
  }

  /** The provider call with the template prompt, and its image as a PNG
      data URI. */
  method CallProvider(provider: Provider, pair: Pair, prompt: string, gemKey: string, falKey: string,
                      gemini: Gemini.Exchange, fal: Fal.Run)
    returns (resp: BlendResponse)
    ensures resp == Answer(provider, gemKey, falKey, gemini, fal)
  {
    var out: Result<seq<byte>>;
    if provider == FalProvider {
      var calls;
      out, calls := Fal.Edit(pair.base.bytes, pair.base.mime, prompt, falKey, fal);
    } else {
      var sent;
      out, sent := Gemini.Blend(pair.base.bytes, pair.base.mime, pair.ref.bytes, pair.ref.mime, prompt, gemKey, gemini);
    }
    if out.Err? {
      return Failure(500, "Blend failed");
    }
    var uri := ToDataUri(out.value);
    resp := Blended(uri, provider);
  }

  /** `POST`: both images, the template prompt, one provider call, and the
      result as a PNG data URI. */
  method Post(input: BlendInput, gemKey: string, falKey: string, baseDl: Download, refDl: Download,
              gemini: Gemini.Exchange, fal: Fal.Run)
    returns (resp: BlendResponse, trace: seq<Step>)
    ensures resp == BlendResult(input, gemKey, falKey, baseDl, refDl, gemini, fal)
    ensures trace == BlendTrace(input, baseDl, refDl)
  {
    var provider := NormalizeProvider(input.providerField);
    var loaded;
    loaded, trace := LoadInput(input, baseDl, refDl);
    if loaded.Err? {
      return Failure(500, "Blend failed"), trace;
    }
    var pair := loaded.value;
    var prompt := EnsureBlendPrompt(Instruction(input));
    resp := CallProvider(provider, pair, prompt, gemKey, falKey, gemini, fal);
    trace := trace + [ProviderCalled(provider, prompt, SentImages(provider, pair))];
  }
}
