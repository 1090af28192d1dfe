/** `POST /api/comic` (`web/app/api/comic/route.ts`): a persona image, a
    style and the panel descriptions in, one PNG per panel out, all made by
    Gemini; the montage is left to the client. */
module ComicRoute {
  import opened Common
  import opened Strings
  import opened Base64
  import opened Images
  import opened Routes
  import Gemini

  /** The request: a multipart form whose `panels` field is already parsed,
      or a JSON body whose `style` and `panels` may be absent. */
  datatype ComicInput =
    | Multipart(style: string, panels: seq<string>, personaFile: Option<Upload>)
    | Json(jsonStyle: Option<string>, jsonPanels: Option<seq<string>>, personaUrl: string)

  datatype ComicResponse =
    | Strip(montagePng: string, panels: seq<string>, provider: string)
    | Failure(status: nat, error: string)

  /** The number of panels a JSON request must carry. */
  const JsonPanelCount: nat := 4

  /** A JSON request is refused with 400 unless it has exactly four panels. */
  predicate BadPanelList(input: ComicInput): (bad: bool)
    ensures bad ==> input.Json?
    ensures !bad && input.Json? ==> |Panels(input)| == JsonPanelCount
  {
    input.Json? && (input.jsonPanels.None? || |input.jsonPanels.value| != JsonPanelCount)
  }

  /** The style the panels are drawn in: a form's text, or a JSON body's as
      the adapter's template literal shows it. */
  function Style(input: ComicInput): string {
    match input
    case Multipart(style, _, _) => style
    case Json(style, _, _) => TemplateText(style)
  }

  /** The panels the route draws. */
  function Panels(input: ComicInput): seq<string> {
    match input
    case Multipart(_, panels, _) => panels
    case Json(_, panels, _) => if panels.Some? then panels.value else []
  }

  /** The `catch` block's message: the error's own, or the text of the bare
      error when it has none. */
  function CatchMessage(msg: string): (m: string)
    ensures m != ""
    ensures msg != "" ==> m == msg
  {
    if msg == "" then "Error" else msg
  }

  /** Reading the persona image. */
  function LoadPersona(input: ComicInput, download: Download): (r: Result<Image>)
    requires !BadPanelList(input)
    ensures input.Json? && r.Ok? ==> IsSupportedMime(r.value.mime)
  {
    match input
    case Multipart(_, _, file) =>
      if file.None? then Err("personaFile missing") else FileToBuffer(file.value, MaxImageBytes)
    case Json(_, _, url) =>
      if url == "" then Err("personaUrl missing")
      else
        match DownloadToBuffer(url, download, MaxImageBytes)
        case Err(msg) => Err(msg)
        case Ok(img) => if !IsSupportedMime(img.mime) then Err("Unsupported image type") else Ok(img)
  }

  function ComicResult(input: ComicInput, gemKey: string, download: Download,
                       exchanges: nat -> Gemini.Exchange): (r: ComicResponse)
    ensures r.Failure? && r.status == 400 <==> BadPanelList(input)
    ensures r.Failure? ==> (r.status == 400 || r.status == 500) && r.error != ""
    ensures r.Strip? ==> && LoadPersona(input, download).Ok?
                         && |r.panels| == |Panels(input)| && r.montagePng == "" && r.provider == "gemini"
  {
    Gemini.ComicOutcome(gemKey, |Panels(input)|, exchanges);
    if BadPanelList(input) then Failure(400, "panels must have 4 items")
    else
      match LoadPersona(input, download)
      case Err(msg) => Failure(500, CatchMessage(msg))
      case Ok(_) =>
        match AllOrNothing(Gemini.PanelResults(gemKey, |Panels(input)|, exchanges))
        case Err(msg) => Failure(500, CatchMessage(msg))
        case Ok(pngs) => Strip("", DataUris(pngs), "gemini")
  }

  function ComicTrace(input: ComicInput, download: Download): seq<Step>
  {
    if BadPanelList(input) then []
    else
      var downloads := if input.Json? && input.personaUrl != "" then [Downloaded(input.personaUrl)] else [];
      if LoadPersona(input, download).Err? then downloads
      else downloads + [ComicCalled(Style(input), Panels(input))]
  }

  /** A strip holds one PNG data URI per panel, in panel order, each the
      image Gemini returned for that panel; the montage is always empty. */
  lemma StripPanelsInOrder(input: ComicInput, gemKey: string, download: Download,
                           exchanges: nat -> Gemini.Exchange)
    requires ComicResult(input, gemKey, download, exchanges).Strip?
    ensures var r := ComicResult(input, gemKey, download, exchanges);
      && r.montagePng == "" && r.provider == "gemini"
      && |r.panels| == |Panels(input)|
      && forall i :: 0 <= i < |r.panels| ==>
           Gemini.Generate(gemKey, exchanges(i)).Ok?
           && r.panels[i] == PngDataUri(Gemini.Generate(gemKey, exchanges(i)).value)
  {
    Gemini.ComicOutcome(gemKey, |Panels(input)|, exchanges);
  }

  /** A JSON strip has exactly four panels. */
  lemma JsonStripHasFourPanels(input: ComicInput, gemKey: string, download: Download,
                               exchanges: nat -> Gemini.Exchange)
    requires input.Json? && ComicResult(input, gemKey, download, exchanges).Strip?
    ensures |ComicResult(input, gemKey, download, exchanges).panels| == JsonPanelCount
  {
    StripPanelsInOrder(input, gemKey, download, exchanges);
  }

  /** The multipart path checks neither the panel count nor the key: a form
      with a valid persona and no panels yields an empty strip even without
      a key. */
  lemma EmptyMultipartStrip(style: string, file: Upload, gemKey: string, download: Download,
                            exchanges: nat -> Gemini.Exchange)
    requires FileToBuffer(file, MaxImageBytes).Ok?
    ensures ComicResult(Multipart(style, [], Some(file)), gemKey, download, exchanges) == Strip("", [], "gemini")
  {
    Gemini.ComicOutcome(gemKey, 0, exchanges);
  }

  /** Without a key any non-empty panel list fails with the adapter's key
      error as a 500. */
  lemma MissingKeyFails(input: ComicInput, download: Download, exchanges: nat -> Gemini.Exchange)
    requires !BadPanelList(input) && LoadPersona(input, download).Ok? && |Panels(input)| > 0
    ensures ComicResult(input, "", download, exchanges) == Failure(500, "Missing Gemini API key")
  {
    Gemini.ComicOutcome("", |Panels(input)|, exchanges);
  }

  /** 400 answers only the JSON panel-count check; all else is 500. */
  lemma ComicStatuses(input: ComicInput, gemKey: string, download: Download,
                      exchanges: nat -> Gemini.Exchange)
    ensures var r := ComicResult(input, gemKey, download, exchanges);
      r.Failure? ==> (r.status == 400 <==> BadPanelList(input)) && (r.status == 400 || r.status == 500)
  {
  }

  method LoadInput(input: ComicInput, download: Download) returns (r: Result<Image>, downloads: seq<Step>)
    requires !BadPanelList(input)
    ensures r == LoadPersona(input, download)
    ensures downloads == if input.Json? && input.personaUrl != "" then [Downloaded(input.personaUrl)] else []
  {
    downloads := [];
    if input.Multipart? {
      if input.personaFile.None? {
        return Err("personaFile missing"), downloads;
      }
      r := FileToBuffer(input.personaFile.value, MaxImageBytes);
    } else {
      if input.personaUrl == "" {
        return Err("personaUrl missing"), downloads;
      }
      downloads := [Downloaded(input.personaUrl)];
      var dl := DownloadToBuffer(input.personaUrl, download, MaxImageBytes);
      if dl.Err? {
        return Err(dl.msg), downloads;
      }
      if !IsSupportedMime(dl.value.mime) {
        return Err("Unsupported image type"), downloads;
      }
      r := dl;
    }
  }

  /** `POST`: the panel check, the persona, the adapter's `comic`, and each
      panel as a PNG data URI. */
  method Post(input: ComicInput, gemKey: string, download: Download, exchanges: nat -> Gemini.Exchange)
    returns (resp: ComicResponse, trace: seq<Step>)
    ensures resp == ComicResult(input, gemKey, download, exchanges)
    ensures trace == ComicTrace(input, download)
  {
    if BadPanelList(input) {
      return Failure(400, "panels must have 4 items"), [];
    }
    var style := Style(input);
    var panels := Panels(input);
    var persona;
    persona, trace := LoadInput(input, download);
    if persona.Err? {
      return Failure(500, CatchMessage(persona.msg)), trace;
    }
    var pngs, firsts := Gemini.Comic(persona.value.bytes, persona.value.mime, style, panels, gemKey, exchanges);
    trace := trace + [ComicCalled(style, panels)];
    if pngs.Err? {
      return Failure(500, CatchMessage(pngs.msg)), trace;
    }
    var uris := ToDataUris(pngs.value);
    resp := Strip("", uris, "gemini");
  }
}
