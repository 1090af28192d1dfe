/** How the Python bots fetch the picture of a submission
    (`_fetch_image` in `bot_once.py`, the same steps inline in `main.py`):
    the type is read off the URL's extension before any request, and the
    body is read in chunks under a 5 MiB ceiling. */
module BotFetch {
  import opened Common
  import opened Strings

  /** `url.split("?")[0].split("#")[0].rsplit(".", 1)[-1].lower()`. */
  function UrlExtension(url: string): (ext: string)
    ensures '.' !in ext
  {
    var e := AfterLast(BeforeFirst(BeforeFirst(url, '?'), '#'), '.');
    assert forall i :: 0 <= i < |e| ==> Lower(e)[i] == LowerChar(e[i]);
    Lower(e)
  }

  lemma BeforeFirstAt(s: string, c: char, rest: string)
    requires c !in s
    ensures BeforeFirst(s + [c] + rest, c) == s
  {
    var t := s + [c] + rest;
    assert t[|s|] == c;
    assert forall j :: 0 <= j < |s| ==> t[j] == s[j];
  }

  /** A query string does not change the extension. */
  lemma ExtensionIgnoresQuery(path: string, query: string)
    requires '?' !in path
    ensures UrlExtension(path + ['?'] + query) == UrlExtension(path)
  {
    BeforeFirstAt(path, '?', query);
    assert BeforeFirst(path, '?') == path;
  }

  /** Nor does a fragment. */
  lemma ExtensionIgnoresFragment(path: string, fragment: string)
    requires '?' !in path && '#' !in path
    ensures UrlExtension(path + ['#'] + fragment) == UrlExtension(path)
  {
    var url := path + ['#'] + fragment;
    if '?' in url {
      var k := FirstIndex(url, '?');
      assert k >= |path| + 1;
      assert BeforeFirst(url, '?') == url[..k];
      assert url[..k] == path + ['#'] + fragment[..k - |path| - 1];
      BeforeFirstAt(path, '#', fragment[..k - |path| - 1]);
    } else {
      assert BeforeFirst(url, '?') == url;
      BeforeFirstAt(path, '#', fragment);
    }
    assert BeforeFirst(path, '?') == path;
    assert BeforeFirst(path, '#') == path;
  }

  /** The extension of `stem.ext` is `ext`, lower-cased, whatever dots the
      stem holds. */
  lemma ExtensionOfName(stem: string, ext: string)
    requires '?' !in stem + ext && '#' !in stem + ext && '.' !in ext
    ensures UrlExtension(stem + ['.'] + ext) == Lower(ext)
  {
    var url := stem + ['.'] + ext;
    assert BeforeFirst(url, '?') == url;
    assert BeforeFirst(url, '#') == url;
    assert url[|stem|] == '.';
    assert forall j :: |stem| < j < |url| ==> url[j] == ext[j - |stem| - 1];
    assert LastIndex(url, '.') == |stem|;
    assert url[|stem| + 1..] == ext;
  }

  /** The types the bots accept, by extension; anything else is refused with
      "Unsupported image type". */
  function BotMime(ext: string): (m: Option<string>)
    ensures m.Some? <==> ext == "jpg" || ext == "jpeg" || ext == "png"
    ensures m.Some? ==> m.value == (if ext == "png" then "image/png" else "image/jpeg")
  {
    if ext == "jpg" || ext == "jpeg" then Some("image/jpeg")
    else if ext == "png" then Some("image/png")
    else None
  }

  /** `raise_for_status()` of `requests`: client and server errors. */
  predicate RaisesForStatus(status: int) { 400 <= status < 600 }

  /** The bots' download ceiling. */
  const MaxSize: nat := 5 * 1024 * 1024

  const TooLarge: string := "Image too large"
  const Unsupported: string := "Unsupported image type"
  /** Stands for the `HTTPError` that `raise_for_status` raises. */
  const HttpFailure: string := "HTTP error"

  /** A streamed response: its status, its `Content-Length` header when one
      is sent, and the chunks `iter_content` yields. */
  datatype StreamReply = StreamReply(status: int, contentLength: Option<int>, chunks: seq<seq<byte>>)

  /** The chunks joined. */
  function Flatten(chunks: seq<seq<byte>>): seq<byte> {
    if chunks == [] then [] else Flatten(chunks[..|chunks| - 1]) + chunks[|chunks| - 1]
  }

  lemma {:induction false} FlattenPrefixShorter(chunks: seq<seq<byte>>, i: nat)
    requires i <= |chunks|
    ensures |Flatten(chunks[..i])| <= |Flatten(chunks)|
    decreases |chunks|
  {
    if i < |chunks| {
      var init := chunks[..|chunks| - 1];
      assert init[..i] == chunks[..i];
      FlattenPrefixShorter(init, i);
    } else {
      assert chunks[..i] == chunks;
    }
  }

  /** The body under the ceiling: refused on a declared length above it or
      once the bytes read pass it, so at most `maxSize` bytes come back, and
      they are the chunks joined. */
  function CappedBody(contentLength: Option<int>, chunks: seq<seq<byte>>, maxSize: nat): (r: Result<seq<byte>>)
    ensures r.Ok? <==> !(contentLength.Some? && contentLength.value > maxSize) && |Flatten(chunks)| <= maxSize
    ensures r.Ok? ==> r.value == Flatten(chunks) && |r.value| <= maxSize
    ensures r.Err? ==> r.msg == TooLarge
  {
    if contentLength.Some? && contentLength.value > maxSize then Err(TooLarge)
    else if |Flatten(chunks)| > maxSize then Err(TooLarge)
    else Ok(Flatten(chunks))
  }

  /** A body of exactly the ceiling is accepted. */
  lemma ExactCeilingAccepted(chunks: seq<seq<byte>>, maxSize: nat)
    requires |Flatten(chunks)| == maxSize
    ensures CappedBody(None, chunks, maxSize) == Ok(Flatten(chunks))
    ensures CappedBody(Some(maxSize), chunks, maxSize) == Ok(Flatten(chunks))
  {
  }

  /** The chunk loop: empty chunks are skipped, the running total is checked
      after each chunk. */
  method ReadCapped(contentLength: Option<int>, chunks: seq<seq<byte>>, maxSize: nat) returns (r: Result<seq<byte>>)
    ensures r == CappedBody(contentLength, chunks, maxSize)
  {
    if contentLength.Some? && contentLength.value > maxSize {
      return Err(TooLarge);
    }
    var buf: seq<byte> := [];
    var total := 0;
    var i := 0;
    while i < |chunks|
      invariant 0 <= i <= |chunks|
      invariant buf == Flatten(chunks[..i]) && total == |buf| <= maxSize
    {
      assert chunks[..i + 1][..i] == chunks[..i];
      if |chunks[i]| != 0 {
        total := total + |chunks[i]|;
        if total > maxSize {
          FlattenPrefixShorter(chunks, i + 1);
          return Err(TooLarge);
        }
        buf := buf + chunks[i];
      } else {
        assert Flatten(chunks[..i + 1]) == Flatten(chunks[..i]) + [];
      }
      i := i + 1;
    }
    assert chunks[..i] == chunks;
    r := Ok(buf);
  }

  /** `_fetch_image`: the type check, then the request, the status, and the
      capped body with its mime. */
  function FetchOutcome(url: string, reply: StreamReply): (r: Result<(seq<byte>, string)>)
    ensures BotMime(UrlExtension(url)).None? ==> r == Err(Unsupported)
    ensures r.Ok? ==> r.value.0 == Flatten(reply.chunks) && |r.value.0| <= MaxSize
    ensures r.Ok? ==> Some(r.value.1) == BotMime(UrlExtension(url)) && !RaisesForStatus(reply.status)
  {
    match BotMime(UrlExtension(url))
    case None => Err(Unsupported)
    case Some(mime) =>
      if RaisesForStatus(reply.status) then Err(HttpFailure)
      else
        match CappedBody(reply.contentLength, reply.chunks, MaxSize)
        case Err(msg) => Err(msg)
        case Ok(bytes) => Ok((bytes, mime))
  }

  /** `_fetch_image` step by step; `requested` says whether the network was
      reached, which happens exactly for an accepted extension. */
  method FetchImage(url: string, reply: StreamReply) returns (r: Result<(seq<byte>, string)>, requested: bool)
    ensures r == FetchOutcome(url, reply)
    ensures requested <==> BotMime(UrlExtension(url)).Some?
  {
    var ext := UrlExtension(url);
    var mime := BotMime(ext);
    if mime.None? {
      return Err(Unsupported), false;
    }
    requested := true;
    if RaisesForStatus(reply.status) {
      return Err(HttpFailure), requested;
    }
    var body := ReadCapped(reply.contentLength, reply.chunks, MaxSize);
    if body.Err? {
      return Err(body.msg), requested;
    }
    r := Ok((body.value, mime.value));
  }
}
