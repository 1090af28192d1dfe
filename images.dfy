/** The input normaliser of the web app (`web/lib/images.ts`): media-type
    guessing, the PNG/JPEG whitelist, the byte ceiling of downloads and
    uploads, and the chunked base64 encoder. */
module Images {
  import opened Common
  import opened Strings
  import opened Base64

  /** The default ceiling of a download or an upload: 6 MiB. */
  const MaxImageBytes: nat := 6 * 1024 * 1024

  const PngMime: string := "image/png"
  const JpegMime: string := "image/jpeg"
  const OctetStreamMime: string := "application/octet-stream"

  /** The media type of a `Content-Type` header: the part before the first
      `;`, trimmed and lower-cased. */
  function MediaType(headerType: string): (t: string)
    ensures !exists i :: 0 <= i < |t| && IsAsciiUpper(t[i])
  {
    Lower(JsTrim(BeforeFirst(headerType, ';')))
  }

  /** `guessMime`: the header's media type when it is an image type,
      otherwise a guess from the (lower-cased) end of the URL. */
  function GuessMime(url: string, headerType: string): (m: string)
    ensures StartsWith(MediaType(headerType), "image/") ==> m == MediaType(headerType)
    ensures !StartsWith(MediaType(headerType), "image/") ==>
      m in {PngMime, JpegMime, OctetStreamMime}
    ensures !StartsWith(MediaType(headerType), "image/") ==>
      (m == PngMime <==> EndsWith(Lower(url), ".png"))
    ensures !StartsWith(MediaType(headerType), "image/") ==>
      (m == JpegMime <==> !EndsWith(Lower(url), ".png")
                          && (EndsWith(Lower(url), ".jpg") || EndsWith(Lower(url), ".jpeg")))
  {
    var t := MediaType(headerType);
    if StartsWith(t, "image/") then t
    else if EndsWith(Lower(url), ".png") then PngMime
    else if EndsWith(Lower(url), ".jpg") || EndsWith(Lower(url), ".jpeg") then JpegMime
    else OctetStreamMime
  }

  /** An image media type in the header wins whatever the URL says. */
  lemma GuessMimeIgnoresUrl(url1: string, url2: string, headerType: string)
    requires StartsWith(MediaType(headerType), "image/")
    ensures GuessMime(url1, headerType) == GuessMime(url2, headerType)
  {
  }

  /** Whatever it returns, `guessMime` returns a lower-case media type. */
  lemma GuessMimeIsLowerCase(url: string, headerType: string)
    ensures Lower(GuessMime(url, headerType)) == GuessMime(url, headerType)
  {
    var m := GuessMime(url, headerType);
    if StartsWith(MediaType(headerType), "image/") {
      LowerOfLowerCase(m);
    } else {
      FixedTypesAreLowerCase();
    }
  }

  lemma FixedTypesAreLowerCase()
    ensures Lower(PngMime) == PngMime && Lower(JpegMime) == JpegMime && Lower(OctetStreamMime) == OctetStreamMime
  {
    LowerOfLowerCase(PngMime);
    LowerOfLowerCase(JpegMime);
    LowerOfLowerCase(OctetStreamMime);
  }

  /** `isSupportedMime`: PNG or JPEG, compared without regard to case. */
  predicate IsSupportedMime(mime: string): (ok: bool)
    ensures mime == PngMime || mime == JpegMime ==> ok
    ensures ok ==> Lower(mime) != OctetStreamMime
    ensures ok ==> |mime| == |PngMime| || |mime| == |JpegMime|
  {
    FixedTypesAreLowerCase();
    Lower(mime) == PngMime || Lower(mime) == JpegMime
  }

  /** The supported types are exactly the two spellings, in any case. */
  lemma SupportedMimeIgnoresCase(mime: string)
    ensures IsSupportedMime(mime) <==> IsSupportedMime(Lower(mime))
  {
    assert Lower(Lower(mime)) == Lower(mime);
  }

  /** A URL-based guess is supported exactly when the URL ends in a PNG or
      JPEG extension. */
  lemma GuessFromNameSupported(name: string)
    ensures IsSupportedMime(GuessMime(name, "")) <==>
      (EndsWith(Lower(name), ".png") || EndsWith(Lower(name), ".jpg") || EndsWith(Lower(name), ".jpeg"))
  {
    assert BeforeFirst("", ';') == "";
    assert MediaType("") == "";
    FixedTypesAreLowerCase();
  }

  /** Decoded bytes together with the media type they are said to have. */
  datatype Image = Image(bytes: seq<byte>, mime: string)

  /** What `fetch` of an image URL gives: a response, or the exception `fetch`
      throws when the network fails. */
  datatype Download =
    | Response(status: nat, contentType: string, body: seq<byte>)
    | NetworkFailure(msg: string)

  /** `downloadToBuffer`: fails on a non-success status, then on a body over
      `maxBytes`; the media type is guessed but not checked. */
  function DownloadToBuffer(url: string, d: Download, maxBytes: nat): (r: Result<Image>)
    ensures d.NetworkFailure? ==> r == Err(d.msg)
    ensures d.Response? && !IsOkStatus(d.status) ==>
      r == Err("Failed to fetch image: " + NatToString(d.status))
    ensures d.Response? && IsOkStatus(d.status) && |d.body| > maxBytes ==>
      r == Err("Image too large: " + NatToString(|d.body|) + " bytes")
    ensures r.Ok? <==> d.Response? && IsOkStatus(d.status) && |d.body| <= maxBytes
    ensures r.Ok? ==> r.value == Image(d.body, GuessMime(url, d.contentType))
  {
    match d
    case NetworkFailure(msg) => Err(msg)
    case Response(status, contentType, body) =>
      if !IsOkStatus(status) then Err("Failed to fetch image: " + NatToString(status))
      else if |body| > maxBytes then Err("Image too large: " + NatToString(|body|) + " bytes")
      else Ok(Image(body, GuessMime(url, contentType)))
  }

  /** A browser `File`: its name, its declared type (`""` when unknown) and
      its bytes. */
  datatype Upload = Upload(name: string, declaredType: string, bytes: seq<byte>)

  /** The media type an upload is taken to have: the declared type, or a
      guess from the file name. */
  function UploadMime(file: Upload): string {
    if file.declaredType != "" then file.declaredType else GuessMime(file.name, "")
  }

  /** `fileToBuffer`: the size is checked first, then the media type. */
  function FileToBuffer(file: Upload, maxBytes: nat): (r: Result<Image>)
    ensures |file.bytes| > maxBytes ==>
      r == Err("Image too large: " + NatToString(|file.bytes|) + " bytes")
    ensures |file.bytes| <= maxBytes && !IsSupportedMime(UploadMime(file)) ==>
      r == Err("Unsupported image type")
    ensures r.Ok? <==> |file.bytes| <= maxBytes && IsSupportedMime(UploadMime(file))
    ensures r.Ok? ==> r.value.bytes == file.bytes && IsSupportedMime(r.value.mime)
    ensures r.Ok? && file.declaredType != "" ==> r.value.mime == file.declaredType
  {
    if |file.bytes| > maxBytes then Err("Image too large: " + NatToString(|file.bytes|) + " bytes")
    else
      var mime := UploadMime(file);
      if !IsSupportedMime(mime) then Err("Unsupported image type")
      else Ok(Image(file.bytes, mime))
  }

  /** An upload of exactly the ceiling passes the size check. */
  lemma UploadAtCeiling(file: Upload)
    requires |file.bytes| == MaxImageBytes && file.declaredType == PngMime
    ensures FileToBuffer(file, MaxImageBytes) == Ok(Image(file.bytes, PngMime))
  {
  }

  /** An upload without a declared type is accepted exactly when its name
      ends in `.png`, `.jpg` or `.jpeg` (any case) and it fits. */
  lemma UntypedUploadAccepted(file: Upload, maxBytes: nat)
    requires file.declaredType == ""
    ensures FileToBuffer(file, maxBytes).Ok? <==>
      |file.bytes| <= maxBytes
      && (EndsWith(Lower(file.name), ".png") || EndsWith(Lower(file.name), ".jpg")
          || EndsWith(Lower(file.name), ".jpeg"))
  {
    GuessFromNameSupported(file.name);
  }

  /** Size of the slices that `toBase64` hands to `String.fromCharCode`. */
  const ChunkSize: nat := 0x8000

  /** `toBase64` (browser branch): the binary string is built 0x8000 bytes at
      a time and then given to `btoa`; the result is the base64 of all the
      bytes, as if they had been encoded at once. */
  method ToBase64(bytes: seq<byte>) returns (s: string)
    ensures s == Encode(bytes)
    ensures Decode(s) == Some(bytes)
  {
    var binary := "";
    var i := 0;
    while i < |bytes|
      invariant 0 <= i
      invariant binary == Binary(bytes[..if i <= |bytes| then i else |bytes|])
      decreases |bytes| - i
    {
      var hi := if i + ChunkSize <= |bytes| then i + ChunkSize else |bytes|;
      BinaryConcat(bytes[..i], bytes[i..hi]);
      assert bytes[..i] + bytes[i..hi] == bytes[..hi];
      binary := binary + Binary(bytes[i..hi]);
      i := i + ChunkSize;
    }
    assert bytes[..|bytes|] == bytes;
    BtoaBinary(bytes);
    var r := Btoa(binary);
    s := r.value;
    DecodeEncode(bytes);
  }
}
