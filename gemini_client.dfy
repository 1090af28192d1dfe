/** The Python Gemini client (`gemini_client.py`) used by the evaluation
    runner: the parts of an edit or blend request, the image read out of a
    response, and the sequential comic panels. */
module GeminiClient {
  import opened Common
  import opened Strings

  /** A request part: a text, or bytes with their mime type. */
  datatype Part = Text(text: string) | Blob(data: seq<byte>, mime: string)

  /** A response part, with its inline data when it carries any. */
  datatype ResponsePart = ResponsePart(inlineData: Option<seq<byte>>)

  /** A response: the parts of each candidate. */
  datatype Response = Response(candidates: seq<seq<ResponsePart>>)

  const PngMarker: string := "Output only a PNG image"
  const EditLead: string := "Transform the provided image according to this instruction: "
  const EditTail: string := ". " + PngMarker + "; no text in the response; keep resolution similar to input; keep composition unless explicitly requested to change it."
  const BlendLead: string := "Transform the base image according to this instruction: "
  const BlendTail: string := ". Use the second image as a style/texture/object reference to blend or fuse realistically. Preserve lighting, perspective, and subject integrity. " + PngMarker + "; no text in the response; keep resolution similar to input."

  /** A prompt made of a lead, the instruction and a tail holding the
      marker contains both. */
  lemma Wrapped(lead: string, instruction: string, tailHead: string, tailRest: string)
    ensures Contains(lead + instruction + (tailHead + PngMarker + tailRest), instruction)
    ensures Contains(lead + instruction + (tailHead + PngMarker + tailRest), PngMarker)
  {
    ContainsAt(instruction, instruction, 0);
    ContainsExtend(lead, instruction, tailHead + PngMarker + tailRest, instruction);
    ContainsAt(PngMarker, PngMarker, 0);
    ContainsExtend(lead + instruction + tailHead, PngMarker, tailRest, PngMarker);
    assert lead + instruction + tailHead + PngMarker + tailRest == lead + instruction + (tailHead + PngMarker + tailRest);
  }

  /** The parts of `edit_or_blend`: the blend path, taken exactly when blend
      bytes are given and non-empty, sends the prompt, the base and the
      blend image, whose mime falls back to the base's; the edit path sends
      the prompt and the base. */
  function EditOrBlendParts(instruction: string, base: seq<byte>, baseMime: string,
                            blend: seq<byte>, blendMime: string): (parts: seq<Part>)
    ensures |blend| > 0 ==> (|parts| == 3 && parts[1] == Blob(base, baseMime)
                             && parts[2] == Blob(blend, if blendMime != "" then blendMime else baseMime))
    ensures |blend| == 0 ==> |parts| == 2 && parts[1] == Blob(base, baseMime)
    ensures parts[0].Text? && Contains(parts[0].text, instruction) && Contains(parts[0].text, PngMarker)
  {
    if |blend| > 0 then
      Wrapped(BlendLead, instruction, ". Use the second image as a style/texture/object reference to blend or fuse realistically. Preserve lighting, perspective, and subject integrity. ", "; no text in the response; keep resolution similar to input.");
      [Text(BlendLead + instruction + BlendTail), Blob(base, baseMime),
       Blob(blend, if blendMime != "" then blendMime else baseMime)]
    else
      Wrapped(EditLead, instruction, ". ", "; no text in the response; keep resolution similar to input; keep composition unless explicitly requested to change it.");
      [Text(EditLead + instruction + EditTail), Blob(base, baseMime)]
  }

  /** The data of the first part with inline data. */
  function FirstInline(parts: seq<ResponsePart>): (r: Option<seq<byte>>)
    ensures r.None? <==> forall i :: 0 <= i < |parts| ==> parts[i].inlineData.None?
    ensures r.Some? ==> exists i :: (0 <= i < |parts| && parts[i].inlineData == r
                                     && forall j :: 0 <= j < i ==> parts[j].inlineData.None?)
  {
    if parts == [] then None
    else if parts[0].inlineData.Some? then
      assert parts[0].inlineData == parts[0].inlineData;
      parts[0].inlineData
    else
      var r := FirstInline(parts[1..]);
      assert forall i :: 1 <= i < |parts| ==> parts[i] == parts[1..][i - 1];
      r
  }

  /** Parts without inline data in front change nothing. */
  lemma {:induction false} FirstInlineSkipsText(front: seq<ResponsePart>, rest: seq<ResponsePart>)
    requires forall i :: 0 <= i < |front| ==> front[i].inlineData.None?
    ensures FirstInline(front + rest) == FirstInline(rest)
    decreases |front|
  {
    if front != [] {
      assert (front + rest)[1..] == front[1..] + rest;
      FirstInlineSkipsText(front[1..], rest);
    } else {
      assert front + rest == rest;
    }
  }

  /** `resp.candidates[0]`, which raises on a response without candidates. */
  const NoCandidate: string := "list index out of range"

  /** The image of a response: the first inline data of the first
      candidate. */
  function ResponseImage(resp: Response, missing: string): (r: Result<seq<byte>>)
    ensures resp.candidates == [] ==> r == Err(NoCandidate)
    ensures resp.candidates != [] ==> (r.Ok? <==> FirstInline(resp.candidates[0]).Some?)
    ensures r.Ok? ==> Some(r.value) == FirstInline(resp.candidates[0])
    ensures resp.candidates != [] && r.Err? ==> r.msg == missing
  {
    if resp.candidates == [] then Err(NoCandidate)
    else
      match FirstInline(resp.candidates[0])
      case None => Err(missing)
      case Some(data) => Ok(data)
  }

  /** A request and the answer it got. */
  datatype Call = Call(parts: seq<Part>)

  /** `edit_or_blend`: a request of three parts exactly for a blend, the
      prompt first and the base second; the image is the first inline data
      of the first candidate, and its absence raises. */
  function EditOrBlend(instruction: string, base: seq<byte>, baseMime: string,
                       blend: seq<byte>, blendMime: string, resp: Response): (r: (Call, Result<seq<byte>>))
    ensures |r.0.parts| == if blend != [] then 3 else 2
    ensures r.0.parts[0].Text? && Contains(r.0.parts[0].text, instruction) && Contains(r.0.parts[0].text, PngMarker)
    ensures r.0.parts[1] == Blob(base, baseMime)
    ensures blend != [] ==> r.0.parts[2] == Blob(blend, if blendMime != "" then blendMime else baseMime)
    ensures r.1.Ok? <==> resp.candidates != [] && FirstInline(resp.candidates[0]).Some?
    ensures r.1.Ok? ==> Some(r.1.value) == FirstInline(resp.candidates[0])
    ensures r.1.Err? ==> r.1.msg == if resp.candidates == [] then NoCandidate else "No image returned by model"
  {
    (Call(EditOrBlendParts(instruction, base, baseMime, blend, blendMime)),
     ResponseImage(resp, "No image returned by model"))
  }

  const PanelLead: string := "Using the SAME PERSON as the reference, generate a comic panel in "
  const PanelMid: string := " where they: "
  const PanelTail: string := ". Keep face shape, eyes, hair, and skin consistent with the reference across panels. Stable clothing unless explicitly changed. Output only a PNG image; no text."
  const NoPanel: string := "No image returned for a comic panel"

  /** The prompt of one panel, naming the style and the action. */
  function PanelPrompt(style: string, text: string): (p: string)
    ensures StartsWith(p, PanelLead + style + PanelMid + text)
    ensures EndsWith(p, PanelTail)
  {
    ConcatEnds(PanelLead + style + PanelMid + text, PanelTail);
    PanelLead + style + PanelMid + text + PanelTail
  }

  /** The parts of a panel request: its prompt and the shared reference. */
  function PanelParts(style: string, text: string, persona: seq<byte>, mime: string): seq<Part> {
    [Text(PanelPrompt(style, text)), Blob(persona, mime)]
  }

  /** One panel's outcome: an image, unless the reply has none or an empty
      one. */
  function PanelOutcome(resp: Response): (r: Result<seq<byte>>)
    ensures r.Ok? ==> |r.value| > 0
  {
    match ResponseImage(resp, NoPanel)
    case Err(msg) => Err(msg)
    case Ok(data) => if |data| == 0 then Err(NoPanel) else Ok(data)
  }

  /** Each panel's outcome, in order of the texts. */
  function PanelOutcomes(texts: seq<string>, replies: nat -> Response): (rs: seq<Result<seq<byte>>>)
    ensures |rs| == |texts| && forall i :: 0 <= i < |texts| ==> rs[i] == PanelOutcome(replies(i))
  {
    seq(|texts|, i requires 0 <= i < |texts| => PanelOutcome(replies(i)))
  }

  /** The requests a run of the panel loop sends: one per panel up to the
      first failure. */
  function PanelCalls(style: string, texts: seq<string>, persona: seq<byte>, mime: string, n: nat): (calls: seq<Call>)
    requires n <= |texts|
    ensures |calls| == n && forall i :: 0 <= i < n ==> calls[i] == Call(PanelParts(style, texts[i], persona, mime))
  {
    seq(n, i requires 0 <= i < n => Call(PanelParts(style, texts[i], persona, mime)))
  }

  /** The panels come back in the order and number of the texts, each the
      first inline image of its own reply; one failure fails the lot. */
  lemma ComicPanelsInOrder(texts: seq<string>, replies: nat -> Response)
    ensures AllOrNothing(PanelOutcomes(texts, replies)).Ok? ==>
      |AllOrNothing(PanelOutcomes(texts, replies)).value| == |texts|
      && forall i :: 0 <= i < |texts| ==>
           replies(i).candidates != [] &&
           FirstInline(replies(i).candidates[0]) == Some(AllOrNothing(PanelOutcomes(texts, replies)).value[i])
    ensures (exists i :: 0 <= i < |texts| && PanelOutcome(replies(i)).Err?) ==>
      AllOrNothing(PanelOutcomes(texts, replies)).Err?
  {
  }

  /** `comic_panels`, requests in order and stopping at the first panel
      without an image. */
  method ComicPanels(persona: seq<byte>, mime: string, style: string, texts: seq<string>,
                     replies: nat -> Response) returns (r: Result<seq<seq<byte>>>, calls: seq<Call>)
    ensures r == AllOrNothing(PanelOutcomes(texts, replies))
    ensures calls == PanelCalls(style, texts, persona, mime, CallCount(PanelOutcomes(texts, replies)))
  {
    ghost var all := PanelOutcomes(texts, replies);
    var outputs: seq<seq<byte>> := [];
    calls := [];
    var i := 0;
    while i < |texts|
      invariant 0 <= i <= |texts|
      invariant |outputs| == i && forall j :: 0 <= j < i ==> all[j] == Ok(outputs[j])
      invariant calls == PanelCalls(style, texts, persona, mime, i)
    {
      calls := calls + [Call(PanelParts(style, texts[i], persona, mime))];
      assert calls == PanelCalls(style, texts, persona, mime, i + 1);
      var got := PanelOutcome(replies(i));
      assert got == all[i];
      if got.Err? {
        CallCountAtFirstErr(all, i);
        AllOrNothingFirstErr(all, i);
        return Err(got.msg), calls;
      }
      outputs := outputs + [got.value];
      i := i + 1;
    }
    CallCountAllOk(all);
    AllOrNothingAllOk(all, outputs);
    r := Ok(outputs);
  }
}
