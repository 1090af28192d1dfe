/** `POST /api/tryon` (`web/app/api/tryon/route.ts`): a photo of a person and
    of an item to wear in, one PNG of the person wearing it out. The prompt
    names the item and where it sits on the body; Gemini gets the item
    first and the person second. */
module TryOnRoute {
  import opened Common
  import opened Strings
  import opened Base64
  import opened Images
  import opened Routes
  import Gemini
  import Fal

  /** The request: a multipart form with two files, or a JSON body with two
      URLs. `""` stands for a missing field. */
  datatype TryOnInput =
    | Multipart(category: string, notes: string, providerField: string, baseFile: Option<Upload>, itemFile: Option<Upload>)
    | Json(category: string, notes: string, providerField: string, baseUrl: string, itemUrl: string)

  datatype TryOnResponse =
    | TriedOn(image: string, provider: Provider)
    | Failure(status: nat, error: string)

  /** The person (`base`) and the item to put on them. */
  datatype Pair = Pair(base: Image, item: Image)

  /** Reading the images ends with both of them, with a 400 answer from
      `bad`, or with an exception the `catch` block turns into a 500. */
  datatype LoadOutcome = Loaded(pair: Pair) | Bad(msg: string) | Thrown(msg: string)

  const DefaultCategory: string := "sunglasses"

  /** A missing category is `sunglasses`. */
  function EffectiveCategory(category: string): (c: string)
    ensures c != ""
    ensures category != "" ==> c == category
  {
    if category == "" then DefaultCategory else category
  }

  /** `anchorFor`: where on the body an item of the category sits. */
  function AnchorFor(category: string): (anchor: string)
    ensures anchor in {"eyes", "neck", "top of the head", "ears", "wrist", "ring finger", "upper torso", "feet",
                       "appropriate body area"}
    ensures anchor == "eyes" <==> Lower(category) == "sunglasses" || Lower(category) == "glasses"
    ensures anchor == "wrist" <==> Lower(category) == "watch" || Lower(category) == "bracelet"
    ensures anchor == "upper torso" <==> Lower(category) in {"shirt", "tshirt", "jacket"}
    ensures anchor == "appropriate body area" <==> Lower(category) !in KnownCategories
  {
    var c := Lower(category);
    if c == "sunglasses" || c == "glasses" then "eyes"
    else if c == "necklace" then "neck"
    else if c == "hat" then "top of the head"
    else if c == "earrings" then "ears"
    else if c == "watch" || c == "bracelet" then "wrist"
    else if c == "ring" then "ring finger"
    else if c == "shirt" || c == "tshirt" || c == "jacket" then "upper torso"
    else if c == "shoes" then "feet"
    else "appropriate body area"
  }

  /** The categories the anchor table names. */
  const KnownCategories: set<string> := {"sunglasses", "glasses", "necklace", "hat", "earrings", "watch", "bracelet",
                                         "ring", "shirt", "tshirt", "jacket", "shoes"}

  lemma LowerIdempotent(s: string)
    ensures Lower(Lower(s)) == Lower(s)
  {
  }

  /** The anchor does not depend on the case of the category. */
  lemma AnchorIgnoresCase(category: string)
    ensures AnchorFor(Lower(category)) == AnchorFor(category)
  {
    LowerIdempotent(category);
  }

  /** The default category is worn on the eyes. */
  lemma DefaultCategoryAnchorsToEyes()
    ensures AnchorFor(EffectiveCategory("")) == "eyes"
  {
    assert Lower(DefaultCategory) == DefaultCategory;
  }

  predicate IsVowel(c: char) { c == 'a' || c == 'e' || c == 'i' || c == 'o' || c == 'u' }

  /** `labelFor`: the lower-cased category with its indefinite article, `an`
      exactly when it begins with a lower-case vowel after lower-casing. */
  function LabelFor(category: string): (r: string)
    ensures EndsWith(r, Lower(category))
    ensures StartsWith(r, "an ") <==> (category != "" && IsVowel(Lower(category)[0]))
    ensures !StartsWith(r, "an ") ==> StartsWith(r, "a ")
  {
    var c := Lower(category);
    var r := if c != "" && IsVowel(c[0]) then "an " + c else "a " + c;
    assert r[|r| - |c|..] == c;
    assert r[1] == (if c != "" && IsVowel(c[0]) then 'n' else ' ');
    assert |r| >= 3 ==> r[..3][1] == r[1];
    r
  }

  const Directive: string := " " + Gemini.Marker + "; no text."

  const ItemFirstLead: string := "There are TWO images. The FIRST image is "
  const ItemFirstMid: string :=
    " to be worn. The SECOND image is the person. Remove any background around the item, place the FIRST image on the SECOND image aligned to the "
  const ItemFirstRest: string :=
    ", match perspective and lighting, size realistically, and add a soft contact shadow. Preserve the person's identity and keep all other details unchanged."

  const PlaceLead: string := "Place the second image as "
  const PlaceMid: string := " on the person. Remove any background around the item, align to the "
  const PlaceRest: string :=
    ", match perspective and lighting, size realistically, and cast a soft contact shadow. Preserve identity and keep all other details unchanged."

  /** The notes as a sentence of their own, or nothing. */
  function Extra(notes: string): (e: string)
    ensures notes == "" <==> e == ""
  {
    if notes == "" then "" else " " + notes + "."
  }

  /** `makeTryOnPrompt`: the template for the image order, with the label,
      the anchor and the notes filled in, ending in the PNG directive. */
  function MakeTryOnPrompt(category: string, notes: string, itemFirst: bool): (p: string)
    ensures itemFirst ==> StartsWith(p, ItemFirstLead + LabelFor(category) + ItemFirstMid + AnchorFor(category))
    ensures !itemFirst ==> StartsWith(p, PlaceLead + LabelFor(category) + PlaceMid + AnchorFor(category))
    ensures EndsWith(p, Extra(notes) + Directive)
    ensures Contains(p, Gemini.Marker)
  {
    var pre := if itemFirst then ItemFirstLead + LabelFor(category) + ItemFirstMid + AnchorFor(category)
               else PlaceLead + LabelFor(category) + PlaceMid + AnchorFor(category);
    var rest := if itemFirst then ItemFirstRest else PlaceRest;
    var tail := Extra(notes) + Directive;
    DirectiveHasMarker(pre + rest + Extra(notes));
    ConcatAssoc(pre + rest, Extra(notes), Directive);
    ConcatEnds(pre + rest, tail);
    ConcatEnds(pre, rest + tail);
    ConcatAssoc(pre, rest, tail);
    pre + rest + tail
  }

  lemma DirectiveHasMarker(x: string)
    ensures Contains(x + Directive, Gemini.Marker)
  {
    Gemini.MarkerInside(x + " ", "; no text.");
    assert x + Directive == (x + " ") + Gemini.Marker + "; no text.";
  }

  /** The adapter's guard leaves a try-on prompt as it is. */
  lemma GuardKeepsTryOnPrompt(category: string, notes: string, itemFirst: bool)
    ensures Gemini.InstructionGuard(MakeTryOnPrompt(category, notes, itemFirst)) == MakeTryOnPrompt(category, notes, itemFirst)
  {
  }

  /** The notes are dropped from the prompt exactly when they are empty, and
      otherwise close it as their own sentence before the directive. */
  lemma NotesInPrompt(category: string, notes: string, itemFirst: bool)
    requires notes != ""
    ensures EndsWith(MakeTryOnPrompt(category, notes, itemFirst), " " + notes + "." + Directive)
  {
    assert Extra(notes) + Directive == " " + notes + "." + Directive;
  }

  /** Reading the two images: both files, each checked by `fileToBuffer`;
      or both URLs, the person downloaded and checked before the item. */
  function LoadPair(input: TryOnInput, baseDl: Download, itemDl: Download): (r: LoadOutcome)
    ensures r.Bad? ==> r.msg != ""
    ensures input.Multipart? && (input.baseFile.None? || input.itemFile.None?) ==> r == Bad("Files missing")
    ensures input.Json? && (input.baseUrl == "" || input.itemUrl == "") ==> r == Bad("URLs missing")
    ensures r.Bad? && input.Multipart? ==> r.msg == "Files missing"
    ensures r.Loaded? ==> IsSupportedMime(r.pair.base.mime) && IsSupportedMime(r.pair.item.mime)
    ensures r.Loaded? ==> |r.pair.base.bytes| <= MaxImageBytes && |r.pair.item.bytes| <= MaxImageBytes
  {
    match input
    case Multipart(_, _, _, baseFile, itemFile) =>
      if baseFile.None? || itemFile.None? then Bad("Files missing")
      else
        (match FileToBuffer(baseFile.value, MaxImageBytes)
         case Err(msg) => Thrown(msg)
         case Ok(b) =>
           match FileToBuffer(itemFile.value, MaxImageBytes)
           case Err(msg) => Thrown(msg)
           case Ok(i) => Loaded(Pair(b, i)))
    case Json(_, _, _, baseUrl, itemUrl) =>
      if baseUrl == "" || itemUrl == "" then Bad("URLs missing")
      else
        match DownloadToBuffer(baseUrl, baseDl, MaxImageBytes)
        case Err(msg) => Thrown(msg)
        case Ok(b) =>
          if !IsSupportedMime(b.mime) then Bad("Unsupported base type")
          else
            match DownloadToBuffer(itemUrl, itemDl, MaxImageBytes)
            case Err(msg) => Thrown(msg)
            case Ok(i) => if !IsSupportedMime(i.mime) then Bad("Unsupported item type") else Loaded(Pair(b, i))
  }

  /** The key the chosen provider needs. The route's two checks, one per
      provider, are one check on this key, since there are two providers. */
  function KeyFor(p: Provider, gemKey: string, falKey: string): string {
    if p == FalProvider then falKey else gemKey
  }

  function MissingKeyMessage(p: Provider): string {
    if p == FalProvider then "Missing Fal.ai API key. Add it via BYOK." else "Missing Gemini API key. Add it via BYOK."
  }

  /** The `catch` block's message: the error's own, or a fixed text when it
      has none. */
  function CatchMessage(msg: string): (m: string)
    ensures m != ""
    ensures msg != "" ==> m == msg
  {
    if msg == "" then "Try-On failed" else msg
  }

  function Outcome(p: Provider, gemKey: string, falKey: string, gemini: Gemini.Exchange, fal: Fal.Run): Result<seq<byte>>
  {
    if p == FalProvider then Fal.EditOutcome(falKey, fal) else Gemini.Generate(gemKey, gemini)
  }

  /** The prompt the route sends: the item-first template. */
  function RoutePrompt(input: TryOnInput): string {
    MakeTryOnPrompt(EffectiveCategory(input.category), input.notes, true)
  }

  function TryOnResult(input: TryOnInput, gemKey: string, falKey: string, baseDl: Download, itemDl: Download,
                       gemini: Gemini.Exchange, fal: Fal.Run): (r: TryOnResponse)
    ensures r.Failure? ==> (r.status == 400 || r.status == 500) && r.error != ""
    ensures var p := NormalizeProvider(input.providerField);
      r.TriedOn? ==> && LoadPair(input, baseDl, itemDl).Loaded? && KeyFor(p, gemKey, falKey) != ""
                     && Outcome(p, gemKey, falKey, gemini, fal).Ok?
                     && r == TriedOn(PngDataUri(Outcome(p, gemKey, falKey, gemini, fal).value), p)
  {
    RespondStatuses(LoadPair(input, baseDl, itemDl), NormalizeProvider(input.providerField), gemKey, falKey, gemini, fal);
    Respond(LoadPair(input, baseDl, itemDl), NormalizeProvider(input.providerField), gemKey, falKey, gemini, fal)
  }

  /** The answer once the images are read: a 400 for the route's own
      checks, a 500 for anything thrown, then the key check. */
  function Respond(l: LoadOutcome, p: Provider, gemKey: string, falKey: string,
                   gemini: Gemini.Exchange, fal: Fal.Run): TryOnResponse
  {
    match l
    case Bad(msg) => Failure(400, msg)
    case Thrown(msg) => Failure(500, CatchMessage(msg))
    case Loaded(_) =>
      if KeyFor(p, gemKey, falKey) == "" then Failure(400, MissingKeyMessage(p))
      else Answer(p, gemKey, falKey, gemini, fal)
  }

  lemma RespondStatuses(l: LoadOutcome, p: Provider, gemKey: string, falKey: string,
                        gemini: Gemini.Exchange, fal: Fal.Run)
    requires l.Bad? ==> l.msg != ""
    ensures var r := Respond(l, p, gemKey, falKey, gemini, fal);
      && (r.Failure? ==> (r.status == 400 || r.status == 500) && r.error != "")
      && (r.Failure? && r.status == 400 <==> l.Bad? || (l.Loaded? && KeyFor(p, gemKey, falKey) == ""))
  {
  }

  /** The answer once both images are in hand and the key is present. */
  function Answer(p: Provider, gemKey: string, falKey: string, gemini: Gemini.Exchange, fal: Fal.Run): TryOnResponse
  {
    match Outcome(p, gemKey, falKey, gemini, fal)
    case Err(msg) => Failure(500, CatchMessage(msg))
    case Ok(out) => TriedOn(PngDataUri(out), p)
  }

  /** The images sent to the provider: the person alone to Fal's
      single-image edit; the item, then the person, to Gemini. */
  function SentImages(p: Provider, pair: Pair): seq<seq<byte>> {
    if p == FalProvider then [pair.base.bytes] else [pair.item.bytes, pair.base.bytes]
  }

  /** The downloads of a JSON request: the person, then the item once the
      person is in hand and of a supported type. */
  function TryOnDownloads(input: TryOnInput, baseDl: Download): (r: seq<Step>)
    ensures NoProviderCall(r)
  {
    if input.Multipart? || input.baseUrl == "" || input.itemUrl == "" then []
    else if DownloadToBuffer(input.baseUrl, baseDl, MaxImageBytes).Err? then [Downloaded(input.baseUrl)]
    else if !IsSupportedMime(DownloadToBuffer(input.baseUrl, baseDl, MaxImageBytes).value.mime) then [Downloaded(input.baseUrl)]
    else [Downloaded(input.baseUrl), Downloaded(input.itemUrl)]
  }

  function TryOnTrace(input: TryOnInput, gemKey: string, falKey: string, baseDl: Download, itemDl: Download): seq<Step>
  {
    TraceAfter(TryOnDownloads(input, baseDl), LoadPair(input, baseDl, itemDl),
               NormalizeProvider(input.providerField), gemKey, falKey, RoutePrompt(input))
  }

  /** The downloads, then the one provider call made once both images are
      in hand and the key is present. */
  function TraceAfter(downloads: seq<Step>, l: LoadOutcome, p: Provider, gemKey: string, falKey: string,
                      prompt: string): seq<Step>
  {
    match l
    case Loaded(pair) =>
      if KeyFor(p, gemKey, falKey) == "" then downloads
      else downloads + [ProviderCalled(p, prompt, SentImages(p, pair))]
    case _ => downloads
  }

  /** 400 answers are exactly the route's own checks (missing inputs, bad
      JSON types, a missing key); everything thrown is a 500 with a
      message. */
  lemma TryOnStatuses(input: TryOnInput, gemKey: string, falKey: string, baseDl: Download, itemDl: Download,
                      gemini: Gemini.Exchange, fal: Fal.Run)
    ensures var r := TryOnResult(input, gemKey, falKey, baseDl, itemDl, gemini, fal);
      var l := LoadPair(input, baseDl, itemDl);
      && (r.Failure? ==> (r.status == 400 || r.status == 500) && r.error != "")
      && (r.Failure? && r.status == 400 <==>
            l.Bad? || (l.Loaded? && KeyFor(NormalizeProvider(input.providerField), gemKey, falKey) == ""))
  {
    RespondStatuses(LoadPair(input, baseDl, itemDl), NormalizeProvider(input.providerField), gemKey, falKey, gemini, fal);
  }

  /** Without the chosen provider's key the route answers 400 and calls no
      provider. */
  lemma MissingKeyCallsNothing(input: TryOnInput, gemKey: string, falKey: string, baseDl: Download,
                               itemDl: Download, gemini: Gemini.Exchange, fal: Fal.Run)
    requires LoadPair(input, baseDl, itemDl).Loaded?
    requires KeyFor(NormalizeProvider(input.providerField), gemKey, falKey) == ""
    ensures TryOnResult(input, gemKey, falKey, baseDl, itemDl, gemini, fal)
            == Failure(400, MissingKeyMessage(NormalizeProvider(input.providerField)))
    ensures NoProviderCall(TryOnTrace(input, gemKey, falKey, baseDl, itemDl))
  {
    assert TryOnTrace(input, gemKey, falKey, baseDl, itemDl) == TryOnDownloads(input, baseDl);
  }

  /** Gemini sees the item before the person; Fal sees only the person. */
  lemma ItemGoesFirst(input: TryOnInput, gemKey: string, falKey: string, baseDl: Download, itemDl: Download)
    requires LoadPair(input, baseDl, itemDl).Loaded?
    requires KeyFor(NormalizeProvider(input.providerField), gemKey, falKey) != ""
    ensures var t := TryOnTrace(input, gemKey, falKey, baseDl, itemDl);
      var pair := LoadPair(input, baseDl, itemDl).pair;
      && |t| >= 1 && t[|t| - 1].ProviderCalled?
      && (t[|t| - 1].provider == GeminiProvider ==> t[|t| - 1].images == [pair.item.bytes, pair.base.bytes])
      && (t[|t| - 1].provider == FalProvider ==> t[|t| - 1].images == [pair.base.bytes])
      && StartsWith(t[|t| - 1].prompt, ItemFirstLead)
  {
    var t := TryOnTrace(input, gemKey, falKey, baseDl, itemDl);
    var provider := NormalizeProvider(input.providerField);
    assert t[|t| - 1] == ProviderCalled(provider, RoutePrompt(input),
                                        SentImages(provider, LoadPair(input, baseDl, itemDl).pair));
    var p := RoutePrompt(input);
    var c := EffectiveCategory(input.category);
    StartsWithPrefix(p, ItemFirstLead + LabelFor(c) + ItemFirstMid, AnchorFor(c));
    StartsWithPrefix(p, ItemFirstLead + LabelFor(c), ItemFirstMid);
    StartsWithPrefix(p, ItemFirstLead, LabelFor(c));
  }

  method LoadInput(input: TryOnInput, baseDl: Download, itemDl: Download) returns (r: LoadOutcome, downloads: seq<Step>)
    ensures r == LoadPair(input, baseDl, itemDl)
    ensures downloads == TryOnDownloads(input, baseDl)
  {
    downloads := [];
    if input.Multipart? {
      if input.baseFile.None? || input.itemFile.None? {
        return Bad("Files missing"), downloads;
      }
      var b := FileToBuffer(input.baseFile.value, MaxImageBytes);
      if b.Err? {
        return Thrown(b.msg), downloads;
      }
      var i := FileToBuffer(input.itemFile.value, MaxImageBytes);
      if i.Err? {
        return Thrown(i.msg), downloads;
      }
      r := Loaded(Pair(b.value, i.value));
    } else {
      if input.baseUrl == "" || input.itemUrl == "" {
        return Bad("URLs missing"), downloads;
      }
      downloads := [Downloaded(input.baseUrl)];
      var b := DownloadToBuffer(input.baseUrl, baseDl, MaxImageBytes);
      if b.Err? {
        return Thrown(b.msg), downloads;
      }
      if !IsSupportedMime(b.value.mime) {
        return Bad("Unsupported base type"), downloads;
      }
      downloads := downloads + [Downloaded(input.itemUrl)];
      var i := DownloadToBuffer(input.itemUrl, itemDl, MaxImageBytes);
      if i.Err? {
        return Thrown(i.msg), downloads;
      }
      if !IsSupportedMime(i.value.mime) {
        return Bad("Unsupported item type"), downloads;
      }
      r := Loaded(Pair(b.value, i.value));
    }
  }

  /** The provider call with the try-on prompt, and its image as a PNG
      data URI. */
  method CallProvider(provider: Provider, pair: Pair, instruction: string, gemKey: string, falKey: string,
                      gemini: Gemini.Exchange, fal: Fal.Run)
    returns (resp: TryOnResponse)
    ensures resp == Answer(provider, gemKey, falKey, gemini, fal)
  {
    var out: Result<seq<byte>>;
    if provider == FalProvider {
      var calls;
      out, calls := Fal.Edit(pair.base.bytes, pair.base.mime, instruction, falKey, fal);
    } else {
      var sent;
      out, sent := Gemini.Blend(pair.item.bytes, pair.item.mime, pair.base.bytes, pair.base.mime, instruction, gemKey, gemini);
    }
    if out.Err? {
      return Failure(500, CatchMessage(out.msg));
    }
    var uri := ToDataUri(out.value);
    resp := TriedOn(uri, provider);
  }

  /** `POST`: both images, the key check, the item-first prompt, one
      provider call, and the result as a PNG data URI. */
  method Post(input: TryOnInput, gemKey: string, falKey: string, baseDl: Download, itemDl: Download,
              gemini: Gemini.Exchange, fal: Fal.Run)
    returns (resp: TryOnResponse, trace: seq<Step>)
    ensures resp == TryOnResult(input, gemKey, falKey, baseDl, itemDl, gemini, fal)
    ensures trace == TryOnTrace(input, gemKey, falKey, baseDl, itemDl)
  {
    var provider := NormalizeProvider(input.providerField);
    var category := EffectiveCategory(input.category);
    var notes := input.notes;
    var loaded;
    loaded, trace := LoadInput(input, baseDl, itemDl);
    if loaded.Bad? {
      return Failure(400, loaded.msg), trace;
    }
    if loaded.Thrown? {
      return Failure(500, CatchMessage(loaded.msg)), trace;
    }
    var pair := loaded.pair;
    if KeyFor(provider, gemKey, falKey) == "" {
      return Failure(400, MissingKeyMessage(provider)), trace;
    }
    var instruction := MakeTryOnPrompt(category, notes, true);
    resp := CallProvider(provider, pair, instruction, gemKey, falKey, gemini, fal);
    trace := trace + [ProviderCalled(provider, instruction, SentImages(provider, pair))];
  }
}
