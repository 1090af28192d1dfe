/** What the four image routes of the web app share: the provider choice,
    the variant clamp, the per-byte base64 encoder and the PNG data URIs of
    their answers (section 3 of RFC 2397), and the steps a route takes
    towards the outside world. */
module Routes {
  import opened Common
  import opened Strings
  import opened Base64
  import Gemini

  datatype Provider = GeminiProvider | FalProvider

  /** The provider field: `fal` exactly, or Gemini for anything else,
      including a missing field. */
  function NormalizeProvider(field: string): (p: Provider)
    ensures p == FalProvider <==> field == "fal"
  {
    if field == "fal" then FalProvider else GeminiProvider
  }

  /** A string field of a JSON body as a template literal shows it: its
      text, or `undefined` when the body leaves it out. */
  function TemplateText(field: Option<string>): string {
    match field
    case Some(text) => text
    case None => "undefined"
  }

  /** The name a route echoes back for a provider. */
  function ProviderName(p: Provider): string {
    match p
    case GeminiProvider => "gemini"
    case FalProvider => "fal"
  }

  lemma ProviderNameRoundTrip(p: Provider)
    ensures NormalizeProvider(ProviderName(p)) == p
  {
  }

  /** `Math.max(1, Math.min(v || 1, 3))`: a missing or zero count is 1, and
      any count is brought into 1..3. */
  function ClampVariants(v: int): (n: nat)
    ensures 1 <= n <= 3
    ensures 1 <= v <= 3 ==> n == v
    ensures v > 3 ==> n == 3
    ensures v < 1 ==> n == 1
  {
    var w := if v == 0 then 1 else v;
    if w > 3 then 3 else if w < 1 then 1 else w
  }

  /** The prefix of every image a route answers with. */
  const PngDataUriPrefix: string := "data:image/png;base64,"

  /** An image as a PNG data URI. */
  function PngDataUri(b: seq<byte>): (u: string)
    ensures StartsWith(u, PngDataUriPrefix)
  {
    PngDataUriPrefix + Encode(b)
  }

  /** The payload of a route's data URI is found again by the data-URL
      scanner of the Gemini adapter and decodes to the very bytes. */
  lemma PngDataUriRoundTrip(b: seq<byte>)
    requires |b| > 0
    ensures Gemini.ExtractBase64Image(PngDataUri(b)) == Some(Encode(b))
    ensures Decode(Gemini.ExtractBase64Image(PngDataUri(b)).value) == Some(b)
  {
    Gemini.ExtractFromDataUri(b);
    DecodeEncode(b);
  }

  /** `bytesToB64` of the routes (browser branch): one character per byte,
      then `btoa`. */
  method BytesToB64(bytes: seq<byte>) returns (s: string)
    ensures s == Encode(bytes)
    ensures Decode(s) == Some(bytes)
  {
    var binary := "";
    var i := 0;
    while i < |bytes|
      invariant 0 <= i <= |bytes|
      invariant binary == Binary(bytes[..i])
    {
      BinaryConcat(bytes[..i], [bytes[i]]);
      assert bytes[..i] + [bytes[i]] == bytes[..i + 1];
      binary := binary + [(bytes[i] as int) as char];
      i := i + 1;
    }
    assert bytes[..|bytes|] == bytes;
    BtoaBinary(bytes);
    var r := Btoa(binary);
    s := r.value;
    DecodeEncode(bytes);
  }

  /** The data URIs of a list of images, in order. */
  function DataUris(outs: seq<seq<byte>>): (uris: seq<string>)
    ensures |uris| == |outs|
    ensures forall i :: 0 <= i < |outs| ==> uris[i] == PngDataUri(outs[i])
  {
    seq(|outs|, i requires 0 <= i < |outs| => PngDataUri(outs[i]))
  }

  /** One image as a PNG data URI. */
  method ToDataUri(bytes: seq<byte>) returns (uri: string)
    ensures uri == PngDataUri(bytes)
  {
    var b64 := BytesToB64(bytes);
    uri := PngDataUriPrefix + b64;
  }

  /** `outs.map(b => 'data:image/png;base64,' + bytesToB64(b))`. */
  method ToDataUris(outs: seq<seq<byte>>) returns (uris: seq<string>)
    ensures uris == DataUris(outs)
  {
    uris := [];
    var i := 0;
    while i < |outs|
      invariant 0 <= i <= |outs|
      invariant |uris| == i
      invariant forall k :: 0 <= k < i ==> uris[k] == PngDataUri(outs[k])
    {
      var uri := ToDataUri(outs[i]);
      uris := uris + [uri];
      i := i + 1;
    }
  }

  /** A step a route takes towards the outside world. */
  datatype Step =
    | Downloaded(url: string)
    | ProviderCalled(provider: Provider, prompt: string, images: seq<seq<byte>>)
    | ComicCalled(style: string, panels: seq<string>)

  predicate NoProviderCall(trace: seq<Step>) {
    forall i :: 0 <= i < |trace| ==> trace[i].Downloaded?
  }
}
