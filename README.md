# bananas-bot, modelled in Dafny

bananas-bot edits images with Google's Gemini image model (and, for single
edits, Fal.ai). It has two front ends:

- a Next.js web app: the API routes `/api/edit`, `/api/blend`,
  `/api/tryon` and `/api/comic`, the provider adapters in `web/lib`, a
  GitHub-backed gallery, and a bring-your-own-key drawer and upload
  dropzone in the browser;
- two Reddit bots that answer `@bananas` / `u/bananas` mentions with an
  edited image: `main.py` streams comments, `bot_once.py` runs once over
  the latest comments. They share the JSON state store `storage.py`, the
  Python Gemini client `gemini_client.py` and the evaluation helpers of
  `eval_runner.py`.

This project models the decision logic of those parts:

- request validation and normalisation;
- prompt construction;
- the handling of provider responses;
- the rate limits, dedupe lists and capped state.

Each source file has one module:

| module | source |
|---|---|
| `Images` | `web/lib/images.ts` |
| `Base64` | the RFC 4648 section 4 alphabet used by `btoa`/`atob` |
| `Gemini` | `web/lib/gemini.ts` |
| `Fal` | `web/lib/fal.ts` |
| `Routes` | shared route helpers (provider choice, variant clamp, data URIs, `bytesToB64`) |
| `EditRoute`, `BlendRoute`, `TryOnRoute`, `ComicRoute` | the four API routes |
| `Gallery` | `web/lib/github.ts` |
| `Storage` | `storage.py` |
| `BotText` | both `_extract_instruction` parsers |
| `BotFetch` | the URL-extension check and the capped download of both bots |
| `StreamBot` | `stream_and_reply` in `main.py` |
| `BatchBot` | `main` in `bot_once.py` |
| `GeminiClient` | `gemini_client.py` |
| `EvalRunner` | `eval_runner.py` |
| `Byok` | `web/components/byok-drawer.tsx` |
| `Dropzone` | `web/components/upload-dropzone.tsx` |

`Common` and `Strings` hold shared helpers:

- `Option` and `Result`;
- the all-or-nothing fold of a list of results;
- JavaScript and Python whitespace and `strip`;
- ASCII lower-casing, `split` and `join`.

The model replaces everything outside the program with inputs:

- every HTTP response (status, headers, body chunks, JSON fields);
- every provider reply;
- the Fal job's polls and the waits between them;
- the clock readings;
- the environment variables.

A method that would call out takes the reply as a parameter, or a function
`nat -> Reply` for the reply to its k-th call. It returns, next to its
result, the list of calls it made, so contracts can say which calls happen
and in what order (for example "no provider call without a key").

The code that updates state in place is modelled with classes:

| class | fields |
|---|---|
| `Storage.Store` | the processed list, the usage map and the last-call table |
| `StreamBot.StreamBot` | the bot's trackers |
| `Byok.Drawer` | local storage and the keys in the form |
| `Dropzone.UploadDropzone` | the selected file, the error and the notifications sent |

Each method's `ensures` ties the new state to a pure step function. The
lemmas prove their properties about that step function.

These loops are kept as `while` loops with invariants:

- the chunked and per-byte base64 loops;
- the Fal poll loop;
- the variant loop of the edit route;
- the comic panel loops;
- the gallery's item loop and in-place sort;
- the capped chunk reader;
- the batch runner's comment loop.

## Model

| member | source | states |
|---|---|---|
| Images.MediaType | web/lib/images.ts:13 | the header's media type, before `;`, trimmed, with no upper-case letter left |
| Images.GuessMime | web/lib/images.ts:12-18 | an `image/` header type wins; otherwise a URL ending `.png` (any case) gives image/png, `.jpg`/`.jpeg` give image/jpeg, anything else application/octet-stream |
| Images.GuessMimeIgnoresUrl | web/lib/images.ts:14 | once the header names an image type the URL has no influence |
| Images.GuessMimeIsLowerCase | web/lib/images.ts:12-18 | the guessed type is always lower-case |
| Images.SupportedMimeIgnoresCase | web/lib/images.ts:43-46 | the PNG/JPEG check answers the same for a type and its lower-cased form |
| Images.IsSupportedMime | web/lib/images.ts:43-46 | image/png and image/jpeg are accepted; an accepted type is never application/octet-stream and has the length of one of the two |
| Images.GuessFromNameSupported | web/lib/images.ts:38-39 | an untyped upload passes the type check iff its name ends `.png`, `.jpg` or `.jpeg` in any case |
| Images.DownloadToBuffer | web/lib/images.ts:1-10 | a failed status fails before any size check; a body over the limit fails with "Image too large"; otherwise the bytes come back with the guessed type, never checked |
| Images.FileToBuffer | web/lib/images.ts:34-41 | size is checked before type; success iff within the limit and PNG/JPEG; the declared type is kept when non-empty |
| Images.UploadAtCeiling | web/lib/images.ts:34-36 | a PNG of exactly 6 MiB is accepted |
| Images.UntypedUploadAccepted | web/lib/images.ts:38-39 | an upload without a declared type is accepted iff it fits and its name guesses to PNG/JPEG |
| Images.ToBase64 | web/lib/images.ts:20-32 | the 0x8000-byte chunk loop yields the RFC 4648 encoding of the whole array, which decodes back to the bytes |
| Base64.Encode | web/lib/images.ts:31 | the encoding's length is a multiple of 4 |
| Base64.DecodeEncodeGroups | web/lib/images.ts:26-31 | decoding the digit groups of an encoding gives back the bytes |
| Base64.DecodeEncode | web/lib/gemini.ts:112-120 | `atob`-style decoding inverts the encoding |
| Base64.DecodeDigits | web/lib/gemini.ts:117-119 | n digits decode to ⌊3n/4⌋ bytes, the bits of an incomplete last group dropped |
| Base64.Decode | web/lib/gemini.ts:117 | `atob` rejects a remainder of one digit; n digits, once whitespace and padding are dropped, decode to ⌊3n/4⌋ bytes; the empty text decodes to no bytes |
| Base64.BtoaBinary | web/lib/images.ts:26-31 | `btoa` of the bytes' binary string succeeds and equals the encoding |
| Base64.Btoa | web/lib/images.ts:26-31 | `btoa` succeeds iff every character is at most U+00FF, and its output decodes back to the character codes |
| Base64.CharCodesOfBinary | web/lib/gemini.ts:117-119 | reading char codes back from the binary string gives the bytes |
| Base64.Atob | web/lib/gemini.ts:117 | `atob` succeeds iff the text decodes, and yields a binary string |
| Base64.AtobBytes | web/lib/gemini.ts:117-120 | the decoded bytes, or `atob`'s error |
| Gemini.InstructionGuard | web/lib/gemini.ts:20-23 | the result contains the PNG marker; a text with the marker is unchanged; otherwise it is the trimmed text followed by the suffix |
| Gemini.InstructionGuardIdempotent | web/lib/gemini.ts:20-23 | guarding twice is guarding once |
| Gemini.EditRequest | web/lib/gemini.ts:25-33 | two parts, guarded text then the image with its mime, base64 that decodes to the bytes; PNG output requested |
| Gemini.BlendRequest | web/lib/gemini.ts:35-47 | three parts: guarded text, base image, reference image, each decoding to its bytes |
| Gemini.ComicPrompt | web/lib/gemini.ts:53 | the panel prompt has the fixed lead and tail and contains the panel text and the PNG marker |
| Gemini.ComicRequest | web/lib/gemini.ts:50-58 | one request per panel: its prompt, then the persona image as its base64 encoding |
| Gemini.ComicRequestCarriesPersona | web/lib/gemini.ts:54 | the persona image decodes back out of every panel's request |
| Gemini.FirstInline | web/lib/gemini.ts:90 | the index of the first part with `inline_data` or `inlineData`, none before it |
| Gemini.FirstText | web/lib/gemini.ts:94 | the index of the first part with a text, none before it |
| Gemini.DataUrlAt | web/lib/gemini.ts:104 | a data-URL match yields a non-empty run of base64 characters |
| Gemini.PngRunAt | web/lib/gemini.ts:107 | a PNG-magic match starts with the magic and has at least 100 more word/base64 characters |
| Gemini.FirstDataUrl | web/lib/gemini.ts:104 | the leftmost data-URL match, none before it |
| Gemini.FirstPngRun | web/lib/gemini.ts:107 | the leftmost PNG-magic match, none before it |
| Gemini.ExtractBase64Image | web/lib/gemini.ts:102-110 | the leftmost data URL wins; failing that the leftmost PNG run; none iff neither pattern matches anywhere |
| Gemini.ExtractFromDataUri | web/lib/gemini.ts:104-105 | a PNG data URI gives back its encoded payload |
| Gemini.ExtractInlineImage | web/lib/gemini.ts:89-92 | an inline part holding an encoding yields exactly those bytes |
| Gemini.InlineBeatsText | web/lib/gemini.ts:89-98 | non-empty inline data is used whatever the text parts say |
| Gemini.ExtractTextImage | web/lib/gemini.ts:93-97 | a data URI inside a text part yields its bytes |
| Gemini.ExtractImage | web/lib/gemini.ts:88-99 | a success is the decoding of some text; a failure is "No image in response" or `atob`'s error; a reply with neither inline data nor text fails "No image in response" |
| Gemini.NoImageInEmptyReply | web/lib/gemini.ts:99 | parts with neither inline data nor text give "No image in response" |
| Gemini.Truncate | web/lib/gemini.ts:127-129 | short strings are unchanged; longer ones become the first n characters plus the three characters the source appends, n + 3 in all |
| Gemini.TruncateIdempotent | web/lib/gemini.ts:127-129 | truncating twice is truncating once |
| Gemini.RetryStatusIgnored | web/lib/gemini.ts:74-87 | after a mime rejection the retry's status is not looked at, only its parts |
| Gemini.GenerateErrorBounded | web/lib/gemini.ts:83-85 | any other failed status fails with "Gemini error <status>: " and at most 403 more characters: 400 of the body and the three appended ones |
| Gemini.Base64ToBytes | web/lib/gemini.ts:112-121 | the char-code loop yields `atob`'s bytes |
| Gemini.Generate | web/lib/gemini.ts:64-78 | a `fetch` that throws, for the request or for the retry after a mime rejection, fails the call with the thrown error |
| Gemini.GenerateImage | web/lib/gemini.ts:64-100 | no request without a key; a second request iff the first was a mime rejection, the same body without the PNG setting |
| Gemini.Edit | web/lib/gemini.ts:25-33 | sends the edit request first, and answers as the generator does |
| Gemini.Blend | web/lib/gemini.ts:35-47 | sends the blend request first, and answers as the generator does |
| Gemini.PanelResults | web/lib/gemini.ts:59 | one result per panel, in panel order |
| Gemini.ComicOutcome | web/lib/gemini.ts:59-61 | all panels in order, or an error iff some panel failed; no key with panels gives the key error; no panels gives an empty list |
| Gemini.ComicPanel | web/lib/gemini.ts:50-60 | one panel's call yields that panel's generation outcome and first sends the panel's request |
| Gemini.ComicRequestsPerPanel | web/lib/gemini.ts:60 | the first requests of a comic are one per panel, the i-th built from the i-th panel text |
| Gemini.Comic | web/lib/gemini.ts:49-61 | the all-or-nothing result over the panels in order, as `comic` returns `outs`, and one first request per panel, in panel order |
| Fal.ElapsedGrows | web/lib/fal.ts:28-34 | k polls take at least k waits of 1200 ms |
| Fal.PollBound | web/lib/fal.ts:26-36 | a poll starts only before 60000 ms, so at most 50 polls happen |
| Fal.PollsFrom | web/lib/fal.ts:26-36 | the number of polls stays within the bound |
| Fal.RunningJobTimesOut | web/lib/fal.ts:28-36 | a job that keeps running ends in "Fal job timeout" |
| Fal.PollOutcomes | web/lib/fal.ts:28-36 | polling ends in the result, a timeout, "Fal job failed", "Fal poll failed <status>" or the error a poll's `fetch` threw |
| Fal.PollJob | web/lib/fal.ts:26-37 | the poll loop ends in the result, "Fal job timeout", "Fal job failed", "Fal poll failed <status>" or a thrown poll error; a job that keeps running times out |
| Fal.OutputUrl | web/lib/fal.ts:18 | `images[0].url` when present, else `image.url` |
| Fal.PollJobLoop | web/lib/fal.ts:26-37 | the poll loop equals the polling specification and makes at most 50 polls |
| Fal.Edit | web/lib/fal.ts:3-24 | no call without a key; a failed or thrown submit stops before polling; polls use the job's id; success returns the fetched bytes as the last call |
| Fal.EditOutcome | web/lib/fal.ts:3-24 | no key fails "Missing Fal.ai API key"; success iff the submit is accepted, the job yields an output URL and the image fetch is accepted, and then the image fetch's body is returned |
| Routes.NormalizeProvider | web/app/api/edit/route.ts:34 | the provider is Fal iff the field is exactly "fal" |
| Routes.ProviderNameRoundTrip | web/app/api/edit/route.ts:25 | echoing a provider's name and reading it back gives the same provider |
| Routes.ClampVariants | web/app/api/edit/route.ts:35 | the count lies in 1..3 and equals the request when already in range |
| Routes.PngDataUri | web/app/api/edit/route.ts:56 | every output starts with `data:image/png;base64,` |
| Routes.PngDataUriRoundTrip | web/app/api/edit/route.ts:56 | the bytes can be read back out of the data URI |
| Routes.BytesToB64 | web/app/api/edit/route.ts:78-83 | the per-byte loop yields the encoding, which decodes to the bytes |
| Routes.DataUris | web/app/api/edit/route.ts:56 | one data URI per output, in order |
| Routes.ToDataUri | web/app/api/edit/route.ts:56 | one image becomes the PNG data URI of its encoding |
| Routes.ToDataUris | web/app/api/edit/route.ts:56 | the mapping loop yields those data URIs |
| EditRoute.EnsureDirective | web/app/api/edit/route.ts:73-76 | the prompt contains the marker; a prompt with it is unchanged; otherwise it starts with the trimmed text |
| EditRoute.EnsureDirectiveIdempotent | web/app/api/edit/route.ts:73-76 | applying the directive twice is applying it once |
| EditRoute.GuardKeepsRoutePrompt | web/app/api/edit/route.ts:50-54 | the adapter's own guard leaves the route's prompt unchanged |
| EditRoute.IsUserError | web/app/api/edit/route.ts:63 | the case-insensitive substring test for "missing", "unsupported", "too large" or "invalid"; a match has at least seven characters |
| EditRoute.IsNetworkError | web/app/api/edit/route.ts:65 | the case-insensitive substring test for "fetch failed", "enotfound", "econn", "eai_again" or "etimedout"; a match has at least five characters |
| EditRoute.UserErrorIgnoresCase | web/app/api/edit/route.ts:63 | the `i` flag: a message and its lower case are classified alike |
| EditRoute.UserErrorInContext | web/app/api/edit/route.ts:63 | no anchors: a user error stays one with any text before and after it |
| EditRoute.NetworkErrorIgnoresCase | web/app/api/edit/route.ts:65 | the `i` flag: a message and its lower case are classified alike |
| EditRoute.NetworkErrorInContext | web/app/api/edit/route.ts:65 | no anchors: a network error stays one with any text before and after it |
| EditRoute.RawMessage | web/app/api/edit/route.ts:60 | the error's message, or "Error" when it has none; never empty |
| EditRoute.ErrorResponse | web/app/api/edit/route.ts:58-70 | on the raw message: the user-error pattern gives 400, otherwise the network pattern 502 with the fixed message, otherwise 500 with the raw message |
| EditRoute.EmptyMessageIs500 | web/app/api/edit/route.ts:60-69 | an error without a message is answered 500 "Error" |
| EditRoute.TooLargeIsUserError | web/app/api/edit/route.ts:64-67 | "Image too large: n bytes" is a 400 |
| EditRoute.UnsupportedIsUserError | web/app/api/edit/route.ts:38 | the JSON path's "Unsupported image type" is a 400 |
| EditRoute.AdapterKeyErrorsAreUserErrors | web/app/api/edit/route.ts:64-67 | the adapters' missing-key errors are 400s |
| EditRoute.FetchFailedIs502 | web/app/api/edit/route.ts:66-68 | "fetch failed" becomes 502 with the friendly message |
| EditRoute.ProviderFetchFailureIs502 | web/app/api/edit/route.ts:50-69 | a provider `fetch` failing on the network in the first variant ends the request 502 with the friendly message, after that one call |
| EditRoute.LoadImage | web/app/api/edit/route.ts:27-40 | a loaded image always has a PNG or JPEG type |
| EditRoute.VariantOutcomes | web/app/api/edit/route.ts:51-55 | the i-th provider call's outcome for each variant |
| EditRoute.EditImagesInOrder | web/app/api/edit/route.ts:50-57 | a success has exactly the clamped number of images, the i-th being the i-th call's output as a PNG data URI, and echoes the provider |
| EditRoute.EditTraceGuards | web/app/api/edit/route.ts:22-48 | nothing is fetched without an image; the JSON path downloads first; no provider call without a usable image, the provider's key or an instruction |
| EditRoute.RoutePrompt | web/app/api/edit/route.ts:73-76 | the prompt is the instruction under the directive and contains the marker; it fails, with the `TypeError` of reading `includes` of `undefined`, exactly for a JSON body without an instruction |
| EditRoute.MissingJsonInstructionIs500 | web/app/api/edit/route.ts:33-70 | a JSON body without an instruction whose image loads and whose key is present is answered 500 with the `TypeError`'s message after the download and before any provider call |
| EditRoute.EditTraceCalls | web/app/api/edit/route.ts:47-54 | every provider call goes to the chosen provider with the directive prompt and the loaded image |
| EditRoute.EditTraceLength | web/app/api/edit/route.ts:47-57 | a success makes one call per variant, after the download if any |
| EditRoute.EditStatuses | web/app/api/edit/route.ts:58-70 | every failure is a 400, 500 or 502 |
| EditRoute.LoadInput | web/app/api/edit/route.ts:22-40 | reads the image as specified, downloading only on the JSON path |
| EditRoute.CallProvider | web/app/api/edit/route.ts:53-54 | calls Fal or Gemini as chosen |
| EditRoute.Respond | web/app/api/edit/route.ts:50-57 | the variants' answer: every output as a PNG data URI with the provider, or the first failure's error response; one call recorded per variant tried |
| EditRoute.RunVariants | web/app/api/edit/route.ts:51-55 | the sequential variant loop stops at the first failure and otherwise collects every output in order |
| EditRoute.Post | web/app/api/edit/route.ts:10-71 | the handler answers and calls out exactly as specified |
| BlendRoute.EnsureBlendPrompt | web/app/api/blend/route.ts:54-57 | the fixed lead, the instruction and the fixed tail, with no idempotence guard; the prompt contains the PNG marker |
| BlendRoute.BlendPromptRecoversInstruction | web/app/api/blend/route.ts:54-57 | the instruction can be read back out of the prompt |
| BlendRoute.GuardKeepsBlendPrompt | web/app/api/blend/route.ts:43-46 | the adapter's guard leaves the blend prompt unchanged |
| BlendRoute.LoadedPairSupported | web/app/api/blend/route.ts:23-41 | both loaded images are PNG or JPEG |
| BlendRoute.LoadPair | web/app/api/blend/route.ts:23-41 | a missing file fails "Files missing", a missing URL "URLs missing"; a loaded pair is two PNG/JPEG images within 6 MiB |
| BlendRoute.BlendResult | web/app/api/blend/route.ts:10-52 | every failure is 500 "Blend failed"; a success means both images loaded and the chosen provider answered, and carries its output as a PNG data URI with that provider |
| BlendRoute.FailuresAreOpaque | web/app/api/blend/route.ts:49-51 | every failure is 500 "Blend failed" |
| BlendRoute.BlendedImageDecodes | web/app/api/blend/route.ts:48 | a success echoes the provider and carries its output, which decodes back from the data URI |
| BlendRoute.MissingKeyReachesProvider | web/app/api/blend/route.ts:43-51 | the route checks no key: without one the provider is still called and the answer is the opaque 500 |
| BlendRoute.BlendCallPrompt | web/app/api/blend/route.ts:34-55 | the provider call's prompt holds the instruction between the template's halves; a JSON body without one sends `undefined` in its place |
| BlendRoute.BadBaseSkipsReference | web/app/api/blend/route.ts:37-38 | an unsupported JSON base stops before the reference is downloaded |
| BlendRoute.LoadInput | web/app/api/blend/route.ts:23-41 | loads both images as specified, downloading the reference only after a supported base |
| BlendRoute.CallProvider | web/app/api/blend/route.ts:43-48 | one call to the chosen provider (Fal with the base only, Gemini with both), its image answered as a PNG data URI and any failure as the opaque 500 |
| BlendRoute.Post | web/app/api/blend/route.ts:10-52 | the handler answers and calls out exactly as specified |
| TryOnRoute.EffectiveCategory | web/app/api/tryon/route.ts:34 | an empty category becomes "sunglasses"; any other is kept |
| TryOnRoute.AnchorIgnoresCase | web/app/api/tryon/route.ts:77-93 | the anchor is the same for a category and its lower-cased form |
| TryOnRoute.DefaultCategoryAnchorsToEyes | web/app/api/tryon/route.ts:77-80 | the default category is anchored to the eyes |
| TryOnRoute.AnchorFor | web/app/api/tryon/route.ts:77-93 | one of the nine anchors; "eyes" iff the category is (sun)glasses, "wrist" iff watch or bracelet, "upper torso" iff shirt, tshirt or jacket, and the fallback iff the category is none of the twelve named, in any case |
| TryOnRoute.LabelFor | web/app/api/tryon/route.ts:95-98 | the label ends with the lower-cased category and starts "an " iff that begins with a vowel, "a " otherwise |
| TryOnRoute.Extra | web/app/api/tryon/route.ts:70 | the notes clause is empty iff the notes are |
| TryOnRoute.MakeTryOnPrompt | web/app/api/tryon/route.ts:67-75 | item-first and place templates with the label and anchor; both end with the notes clause and the PNG directive |
| TryOnRoute.GuardKeepsTryOnPrompt | web/app/api/tryon/route.ts:50-57 | the adapter's guard leaves the try-on prompt unchanged |
| TryOnRoute.NotesInPrompt | web/app/api/tryon/route.ts:70-72 | non-empty notes appear as " notes." just before the directive |
| TryOnRoute.CatchMessage | web/app/api/tryon/route.ts:61-63 | the error message, or "Try-On failed" when it is empty |
| TryOnRoute.TryOnStatuses | web/app/api/tryon/route.ts:29-63 | failures are 400 or 500 with a message; 400 iff the images are missing or unsupported, or the provider's key is missing |
| TryOnRoute.MissingKeyCallsNothing | web/app/api/tryon/route.ts:44-46 | a missing key answers 400 naming the provider and calls no provider |
| TryOnRoute.ItemGoesFirst | web/app/api/tryon/route.ts:48-58 | Gemini gets the item then the person, Fal only the person, with the item-first prompt |
| TryOnRoute.LoadInput | web/app/api/tryon/route.ts:22-42 | the person is downloaded and checked before the item is downloaded |
| TryOnRoute.LoadPair | web/app/api/tryon/route.ts:22-42 | a missing file is refused as "Files missing", a missing URL as "URLs missing"; a form is refused (rather than failing with a thrown error) only for a missing file; a loaded pair is two PNG/JPEG images within 6 MiB |
| TryOnRoute.TryOnResult | web/app/api/tryon/route.ts:10-65 | failures are 400 or 500 with a message; a success means the images loaded, the provider's key is present and the provider answered, and carries its output as a PNG data URI with that provider |
| TryOnRoute.CallProvider | web/app/api/tryon/route.ts:48-63 | the chosen provider's output as a PNG data URI with the provider, or a 500 with the error's message |
| TryOnRoute.Post | web/app/api/tryon/route.ts:10-65 | the handler answers and calls out exactly as specified |
| ComicRoute.CatchMessage | web/app/api/comic/route.ts:50-53 | the error's message, never empty |
| ComicRoute.BadPanelList | web/app/api/comic/route.ts:31 | only a JSON body is refused for its panels, and an accepted JSON body has exactly four |
| ComicRoute.ComicResult | web/app/api/comic/route.ts:10-55 | 400 iff the JSON panel list is bad; failures are 400 or 500 with a message; a strip has one panel per requested panel, an empty montage and provider "gemini" |
| ComicRoute.LoadPersona | web/app/api/comic/route.ts:19-36 | a JSON persona is always PNG or JPEG |
| ComicRoute.StripPanelsInOrder | web/app/api/comic/route.ts:37-49 | a success has one data URI per panel, in order, each the i-th generation's output, with an empty montage and provider "gemini" |
| ComicRoute.JsonStripHasFourPanels | web/app/api/comic/route.ts:31 | a JSON success has exactly four panels |
| ComicRoute.EmptyMultipartStrip | web/app/api/comic/route.ts:22 | a form with no panels gives an empty strip, even without a key |
| ComicRoute.MissingKeyFails | web/app/api/comic/route.ts:37 | without a key any panel list fails 500 with the adapter's key error |
| ComicRoute.ComicStatuses | web/app/api/comic/route.ts:31-53 | 400 only for a JSON panel list that is not four long; every other failure is 500 |
| ComicRoute.LoadInput | web/app/api/comic/route.ts:19-36 | reads the persona as specified, downloading only on the JSON path |
| ComicRoute.Post | web/app/api/comic/route.ts:10-55 | the handler answers and calls out exactly as specified |
| Gallery.StripExt | web/lib/github.ts:39 | the name up to its last dot; unchanged without a dot |
| Gallery.StripExtOfName | web/lib/github.ts:39 | `base.ext` strips to `base` |
| Gallery.StripMeta | web/lib/github.ts:40 | removes a trailing ".meta.json", otherwise unchanged |
| Gallery.StripMetaOfName | web/lib/github.ts:40 | `base.meta.json` strips to `base` |
| Gallery.StampAt | web/lib/github.ts:42 | a match is 14 digits once the separator is dropped |
| Gallery.FirstStamp | web/lib/github.ts:42 | the leftmost timestamp match, none before it |
| Gallery.NoStampIsZero | web/lib/github.ts:42-43 | a name without a timestamp gets 0 |
| Gallery.DateUtcAfterEpoch | web/lib/github.ts:48 | a UTC date from 1971 on is after the epoch |
| Gallery.DateUtc | web/lib/github.ts:48 | the first of January 1970, or of year 70 read as 1970, is the epoch plus the time of day; a date from 1970 on with non-negative fields is not before the epoch |
| Gallery.ExtractTs | web/lib/github.ts:41-48 | 0 for a name without a stamp; a non-zero time is that of the first stamp in the name |
| Gallery.StampTimeAfterEpoch | web/lib/github.ts:44-48 | a timestamp from 1971 on with a real month and day reads as a positive time |
| Gallery.StampedNameIsDated | web/lib/github.ts:41-48 | a name whose first timestamp is from 1971 on has a positive time |
| Gallery.LexLessTotal | web/lib/github.ts:35 | two different URLs are always ordered one way or the other |
| Gallery.LexLessTrans | web/lib/github.ts:35 | the URL order is transitive |
| Gallery.BeforeTotal | web/lib/github.ts:35 | the comparator relates any two items |
| Gallery.BeforeTrans | web/lib/github.ts:35 | the comparator is transitive |
| Gallery.BeforeIsTotalPreorder | web/lib/github.ts:35 | the comparator is a total preorder, so the sort is well defined |
| Gallery.DatedBeforeUndated | web/lib/github.ts:35 | in the sorted list a dated item precedes an undated one |
| Gallery.StampedBeforeUnstamped | web/lib/github.ts:35-48 | an item stamped from 1971 on precedes one without a stamp |
| Gallery.Insert | web/lib/github.ts:35 | one insertion step keeps the prefix sorted and the contents the same |
| Gallery.SortBy | web/lib/github.ts:35 | the in-place sort leaves the array sorted and a permutation of the input |
| Gallery.SortItems | web/lib/github.ts:35 | the items sorted newest first, ties by descending URL, as a permutation |
| Gallery.Pngs | web/lib/github.ts:16 | exactly the file entries whose lower-cased name ends ".png" |
| Gallery.BuildMap | web/lib/github.ts:17-18 | the last pair's key maps to its value |
| Gallery.BuildMapKeys | web/lib/github.ts:17-18 | a key is present iff some pair has it |
| Gallery.BuildMapLastWins | web/lib/github.ts:17-18 | a key maps to the value of its last pair |
| Gallery.Mp3Pairs | web/lib/github.ts:17 | at most one pair per entry |
| Gallery.MetaPairs | web/lib/github.ts:18 | at most one pair per entry |
| Gallery.MetaOf | web/lib/github.ts:26-29 | meta is present only for a meta URL whose fetch succeeded |
| Gallery.ItemFor | web/lib/github.ts:22-31 | the item's PNG URL is the entry's; it has an mp3 iff one shares its base name |
| Gallery.Items | web/lib/github.ts:21-32 | one item per PNG, in order |
| Gallery.MetaFetches | web/lib/github.ts:25-30 | at most one meta fetch per PNG, never for an empty URL |
| Gallery.EveryPngListed | web/lib/github.ts:16-32 | every PNG file appears in the listing |
| Gallery.Mp3OfSameBase | web/lib/github.ts:17-23 | a PNG gets the mp3 URL that shares its base name |
| Gallery.MakeItem | web/lib/github.ts:22-31 | builds the item, fetching meta only when a meta URL exists |
| Gallery.CollectItems | web/lib/github.ts:20-32 | the item loop yields the items and the meta fetches in order |
| Gallery.ListGallery | web/lib/github.ts:9-37 | a listing `fetch` that throws rejects with its error and a failed status throws "GitHub API error: status", both before any meta fetch; otherwise a sorted permutation of the items |
| Storage.Marked | storage.py:41-49 | the id is present afterwards; a known id leaves the list unchanged; a new one is appended, and a list over 5000 is cut to its last 3000 |
| Storage.MarkedNoDuplicates | storage.py:45-46 | the processed list never holds an id twice |
| Storage.MarkedWithinCap | storage.py:47-48 | the list never grows past 5000 |
| Storage.MarkedIdempotent | storage.py:45 | marking twice is marking once |
| Storage.MarkedForgetsOnlyOld | storage.py:45-48 | marking adds no id but the one marked |
| Storage.Incremented | storage.py:70-78 | the day's count is the old one (0 if absent) plus the amount; other days are unchanged |
| Storage.Upsert | storage.py:92 | the user's time is set; a new user goes last in insertion order |
| Storage.Trim | storage.py:94-97 | a table over 5000 keeps its last 3000 entries, values unchanged |
| Storage.SetCall | storage.py:87-98 | the table stays consistent |
| Storage.SetThenGet | storage.py:81-98 | a read after a write in any casing of the name gives the stored time, and the table stays within 5000 |
| Storage.SetKeepsOthers | storage.py:87-97 | other users keep their times, unless the cut dropped them |
| Storage.UnknownUserReadsZero | storage.py:81-84 | an unknown user reads 0.0 |
| Storage.Store.constructor | storage.py:21 | the empty state |
| Storage.Store.IsProcessed | storage.py:35-38 | true iff the id appears in the processed list |
| Storage.Store.MarkProcessed | storage.py:41-49 | the processed list becomes the marked list, and `is_processed(id)` holds afterwards |
| Storage.Store.GetUsage | storage.py:62-67 | the count of the day given, or of today when none is given; 0 for a day never counted |
| Storage.Store.IncrementUsage | storage.py:62-78 | an empty day key means today; returns the new count, the old count plus the amount |
| Storage.Store.GetUserLastCall | storage.py:81-84 | the time stored under the lower-cased name, so any casing reads the same; 0.0 for an unknown user |
| Storage.Store.SetUserLastCall | storage.py:87-98 | the table is updated; a read of the same user gives the time |
| BotText.MentionFrom | main.py:52-56 | the first position of "@bananas" or "u/bananas", none before it |
| BotText.MentionFound | main.py:52-56 | a mention is found iff the text contains one |
| BotText.MentionEnd | main.py:57 | the end of the mention, after its start |
| BotText.CloseAfter | main.py:61 | the first closing quote or line break after k |
| BotText.QuotedFrom | main.py:61 | a quoted segment holds no closing quote and no line break |
| BotText.QuotedFindsFirst | main.py:61-63 | with no opening quote before it, the first quoted segment is the one found |
| BotText.Take | main.py:73 | a prefix of at most n characters |
| BotText.NonSpaceCollapse | main.py:70 | collapsing whitespace keeps every non-space character in order |
| BotText.Sanitize | main.py:67-73 | a non-empty instruction of at most 300 characters, trimmed, with single spaces |
| BotText.SanitizeKeepsText | main.py:67-73 | none iff the candidate is blank; otherwise its non-space text is a prefix of the candidate's, all of it when it fits |
| BotText.ExtractStream | main.py:41-73 | a found instruction is non-empty, at most 300 characters and normalised |
| BotText.StreamNeedsMention | main.py:49-56 | an instruction is found only in a text with a case-insensitive mention |
| BotText.MentionAtStart | main.py:52-57 | a text opening with the mention has its tail start right after it |
| BotText.QuotedCandidate | main.py:60-63 | a non-blank segment between any two of the four quote characters, after quote-free text, is the candidate, stripped |
| BotText.StreamQuoteWins | main.py:52-73 | for any text, a non-blank quoted segment in the tail after the first mention, with no quote before it, gives exactly the segment stripped, collapsed and cut to 300 characters, holding only the segment's text |
| BotText.StreamTailFallback | main.py:52-73 | with no non-blank quoted segment in the tail, the tail stripped of the separators is read: nothing iff it is blank, else its collapsed, trimmed text cut to 300 characters, normalised and holding only that text |
| BotText.ExtractBatch | bot_once.py:125-135 | a found instruction is non-empty, at most 300 characters, and does not start with whitespace |
| BotText.BatchNeedsMention | bot_once.py:126-130 | an instruction is found only in a text with a case-insensitive mention |
| BotText.BatchTail | bot_once.py:131-135 | with no non-blank quoted segment, the text after the first mention is read: nothing iff it is blank, else its whitespace-collapsed, trimmed text cut to 300 characters, normalised and holding only the tail's text |
| BotText.BatchQuoteWins | bot_once.py:131-133 | a non-blank quoted segment with no opening quote before it wins wherever the mention stands, stripped and cut to 300 characters |
| BotText.MentionInside | bot_once.py:129 | a mention anywhere in the text is found |
| BotText.BatchQuoteBeforeMention | bot_once.py:131-133 | a quote anywhere wins, even before the mention, stripped and cut to 300 characters |
| BotFetch.UrlExtension | main.py:147 | the extension holds no dot |
| BotFetch.ExtensionIgnoresQuery | main.py:147 | a query string does not change the extension |
| BotFetch.ExtensionIgnoresFragment | main.py:147 | a fragment does not change the extension |
| BotFetch.ExtensionOfName | main.py:147 | `stem.ext` has the lower-cased `ext` as its extension |
| BotFetch.BotMime | main.py:148-150 | only jpg, jpeg (image/jpeg) and png (image/png) pass |
| BotFetch.CappedBody | main.py:152-166 | success iff neither the Content-Length nor the body exceeds 5 MiB; success gives the joined chunks; failure is "Image too large" |
| BotFetch.ExactCeilingAccepted | main.py:152-166 | exactly 5 MiB is accepted, reported or not |
| BotFetch.ReadCapped | main.py:158-166 | the chunk loop equals the capped body |
| BotFetch.FetchOutcome | bot_once.py:44-62 | an unsupported extension fails; success is the body within 5 MiB and the mime from the extension, after a non-error status |
| BotFetch.FetchImage | bot_once.py:44-62 | the request is made iff the extension is supported |
| StreamBot.AllowList | main.py:87-92 | no empty name; an empty setting allows everyone |
| StreamBot.Step | main.py:100-142 | the processed set only grows and takes every mentioning comment; a skip leaves the last-call times alone; an acceptance is of the author, past the cooldown, stamps the author with now and counts one call in the window; a non-negative cap is never passed |
| StreamBot.StepRecordsId | main.py:107-110 | a mentioning comment's id is recorded; a known id is skipped with nothing changed; a comment without a mention changes nothing |
| StreamBot.StepKeepsCap | main.py:131-142 | with a non-negative cap the hourly count never exceeds it |
| StreamBot.NegativeCapNeverLimits | main.py:132 | a negative cap never limits |
| StreamBot.SkipsKeepTrackers | main.py:118-138 | a skip leaves the last-call times alone, and the count too unless the window reset it |
| StreamBot.AcceptedPassedGuards | main.py:100-142 | an accepted comment is new, allowed, past its author's cooldown and under the cap; its author's time becomes now and the count rises by 1 |
| StreamBot.WindowRestarts | main.py:112-116 | after 3600 s the window restarts at now and the count at most 1 |
| StreamBot.Run | main.py:100-142 | one decision per comment |
| StreamBot.RecordedStaysSkipped | main.py:107-109 | an id already recorded is never handled again |
| StreamBot.HandledAtMostOnce | main.py:107-110 | a comment id is handled at most once in a stream |
| StreamBot.StreamBot.constructor | main.py:94-98 | empty trackers, window started at the given time |
| StreamBot.StreamBot.OnComment | main.py:100-142 | the trackers and the decision are those of one step |
| StreamBot.Instruction | main.py:175 | the extracted instruction, or the grayscale default |
| StreamBot.EditPrompt | main.py:176-180 | the fixed lead, the instruction and the fixed tail |
| StreamBot.Job | main.py:144-166 | no URL and an unsupported extension fail; success carries the prompt, the body within 5 MiB and a PNG or JPEG mime |
| BatchBot.ResetDay | bot_once.py:148-151 | a different day restarts the count at 0; the same day keeps it |
| BatchBot.StepMarks | bot_once.py:160-181 | a comment without an instruction is not marked seen; one with an instruction under the budget is |
| BatchBot.BatchStep | bot_once.py:160-214 | each count rises by exactly 1 when the comment reaches an attempt that succeeds, and otherwise stays; the loop stops iff the per-run limit is reached, or a new instructed comment finds the daily budget spent; the day is kept; the seen list is unchanged or gains the new, instructed comment's id |
| BatchBot.Run | bot_once.py:160-214 | a run that stops does so with the per-run limit or the daily budget reached, and a stopped state is final; the seen list only grows, by at most one id per comment; the day is kept |
| BatchBot.RunCountsTogether | bot_once.py:160-214 | the per-run count and the daily count each end exactly one above their start per successful edit made before the loop stops; the day is kept |
| BatchBot.RunWithinPerRun | bot_once.py:161-162 | the per-run count does not pass its limit |
| BatchBot.RunWithinBudget | bot_once.py:172-174 | the daily count does not pass the budget |
| BatchBot.RunSeen | bot_once.py:165-214 | the seen list only grows, holds no id twice, and takes only ids of instructed comments |
| BatchBot.Reverse | bot_once.py:157 | the comments oldest first |
| BatchBot.RunOnceBounds | bot_once.py:145-217 | the saved seen list holds at most 5000 ids; the usage is today's and stays within the budget and the per-run limit |
| BatchBot.FactsOf | bot_once.py:163-179 | the loop body reads the comment's id, whether its body yields an instruction, the submission's link (`url_overridden_by_dest` before `url`) and whether the attempt succeeds |
| BatchBot.InstructedIdsOfComments | bot_once.py:163-169 | an id counted as instructed belongs to a fetched comment whose body yields an instruction |
| BatchBot.Attempt | bot_once.py:182-214 | the attempt succeeds exactly when the download is accepted and the edit succeeds |
| BatchBot.Visit | bot_once.py:160-214 | one loop pass equals one step |
| BatchBot.VisitAll | bot_once.py:159-214 | the loop leaves the seen list and usage of the whole run, oldest comment first |
| BatchBot.RunOnce | bot_once.py:145-219 | the saved seen list and usage equal those of the whole run |
| GeminiClient.EditOrBlendParts | gemini_client.py:28-47 | blend parts iff blend bytes are given: prompt, base, blend with its mime or the base's; otherwise prompt and base; the prompt embeds the instruction and the PNG marker |
| GeminiClient.FirstInline | gemini_client.py:50-52 | the first part's inline data; none iff no part has any |
| GeminiClient.FirstInlineSkipsText | gemini_client.py:50-52 | parts without inline data before it are skipped |
| GeminiClient.ResponseImage | gemini_client.py:49-53 | no candidate raises; otherwise the first inline data, or the missing-image error |
| GeminiClient.EditOrBlend | gemini_client.py:15-53 | three parts iff blend bytes are given, the prompt (with the instruction and the PNG marker) first and the base second; an image iff the first candidate has inline data, and then that data; otherwise the index error without candidates or "No image returned by model" |
| GeminiClient.PanelPrompt | gemini_client.py:72-76 | the lead, the style, the text and the fixed tail |
| GeminiClient.PanelOutcome | gemini_client.py:78-84 | a panel image is never empty |
| GeminiClient.PanelOutcomes | gemini_client.py:71-85 | one outcome per text, in order |
| GeminiClient.PanelCalls | gemini_client.py:68-77 | the n-th call carries the n-th text and the same persona |
| GeminiClient.ComicPanelsInOrder | gemini_client.py:70-86 | success gives one image per text in order, each the first inline data of its reply; any failing panel fails the whole call |
| GeminiClient.ComicPanels | gemini_client.py:56-86 | the loop's result, and the calls up to the first failure |
| EvalRunner.EvalMime | eval_runner.py:43-54 | jpg/jpeg, png, webp and svg map to their types; anything else is application/octet-stream |
| EvalRunner.EvalMimeExtendsBotMime | eval_runner.py:43-54 | agrees with the bots' mapping where that one accepts |
| EvalRunner.FetchOutcome | eval_runner.py:20-55 | two requests iff the first is a Wikimedia 403; success iff the status that counts is not an error; the mime comes from the extension |
| EvalRunner.NoSecondRetry | eval_runner.py:34-39 | a second 403 is not retried and fails |
| EvalRunner.Fetch | eval_runner.py:20-55 | the fetch answers as specified |
| EvalRunner.NarrSummary | eval_runner.py:69-76 | the summary for edit, blend, comic (panels joined by " — ") and any other mode |
| EvalRunner.SummaryDeterminesMode | eval_runner.py:69-76 | two equal summaries of known modes come from the same mode, neither is the fallback "Result", and an edit or blend summary gives back its instruction |
| EvalRunner.NarrateOptional | eval_runner.py:79-91 | no request and no audio without a key; otherwise the audio or the HTTP error |
| Byok.Mask | web/components/byok-drawer.tsx:6-10 | empty for empty, four dots up to 4 characters, else the first 2, four dots and the last 2 |
| Byok.MaskShowsOnlyEnds | web/components/byok-drawer.tsx:9 | keys that share their first and last two characters mask alike |
| Byok.ValidGemini | web/components/byok-drawer.tsx:12 | an accepted key has at least 4 characters, and at least 20 unless it starts "AIza" |
| Byok.ValidFal | web/components/byok-drawer.tsx:13 | a refused key is non-empty and at most 20 characters long |
| Byok.Valid11 | web/components/byok-drawer.tsx:14 | a refused key is non-empty and at most 10 characters long |
| Byok.OnlyGeminiRequired | web/components/byok-drawer.tsx:12-14 | an empty key fails only the Gemini check |
| Byok.GeminiCheckReadsPrefix | web/components/byok-drawer.tsx:12 | the Gemini check reads only a prefix: extending a valid key keeps it valid |
| Byok.Headers | web/components/byok-drawer.tsx:138-144 | a header for each of the three keys stored non-empty, with its value |
| Byok.Saved | web/components/byok-drawer.tsx:40-44 | no slot is deleted and slots other than the four are untouched; each non-empty field is written to its slot, each empty one leaves its slot as it was |
| Byok.Cleared | web/components/byok-drawer.tsx:49-53 | exactly the four slots are removed, every other entry kept |
| Byok.LoadKeys | web/components/byok-drawer.tsx:23-29 | the three keys read from their slots; the voice is never empty, and is the default iff none or the default is stored |
| Byok.SaveThenLoad | web/components/byok-drawer.tsx:23-47 | saving never deletes; a reload gives each non-empty saved key, else the earlier one |
| Byok.SaveThenHeaders | web/components/byok-drawer.tsx:40-41 | a saved Gemini key is sent as its header |
| Byok.ClearThenHeaders | web/components/byok-drawer.tsx:49-57 | after clearing no header is sent and a reload gives the default voice only |
| Byok.Drawer.constructor | web/components/byok-drawer.tsx:23-31 | the form starts with the stored keys |
| Byok.Drawer.Save | web/components/byok-drawer.tsx:40-47 | storage becomes the saved storage; status "Saved" |
| Byok.Drawer.Clear | web/components/byok-drawer.tsx:49-57 | storage becomes the cleared storage, the form empty; status "Cleared" |
| Dropzone.Validate | web/components/upload-dropzone.tsx:16-20 | the type error unless the type is one of the accept entries; then the size error above the limit; valid iff both pass |
| Dropzone.DefaultAcceptsPngAndJpeg | web/components/upload-dropzone.tsx:11 | the default accept list is PNG and JPEG |
| Dropzone.DefaultsPassOnlyImages | web/components/upload-dropzone.tsx:11-19 | with the defaults only PNG/JPEG files of at most 6 MiB pass |
| Dropzone.LimitAndOrder | web/components/upload-dropzone.tsx:17-18 | exactly the limit passes; a wrong type reports the type error even when oversize |
| Dropzone.Picked | web/components/upload-dropzone.tsx:22-29 | null clears the file and notifies null; an invalid file only sets the error; a valid one clears it, sets the file and notifies |
| Dropzone.OnlyValidNotified | web/components/upload-dropzone.tsx:22-29 | only valid files (or null) are ever passed on |
| Dropzone.UploadDropzone.constructor | web/components/upload-dropzone.tsx:11-14 | no file, no error, nothing notified |
| Dropzone.UploadDropzone.OnPick | web/components/upload-dropzone.tsx:22-29 | the new state is that of one pick |

## Left out

- Network and HTTP I/O are not modelled. `fetch`, `requests`, the Gemini and Fal SDKs, praw streams and the GitHub Contents uploads become reply parameters; a web adapter's reply can also be the error its `fetch` threw.
- The Reddit replies, the narration uploads and the GitHub upload of the edited image in both bots become the comment's success flag.
- Logging is not modelled: `console.error` in the edit and comic routes, and the stream bot's `print` and `logging.exception` calls, write only to the console and change no state or answer.
- JSON parsing errors are not modelled. A body or reply is taken as already parsed, and a `JSON.parse` that throws on the comic form's `panels` is not modelled.
- `Number`/`NaN` parsing of the multipart `variants` field is not modelled. Variants are an integer before the clamp.
- Python's `int()` of `Content-Length` is not modelled. The header is an optional integer, and a non-numeric header that would raise is not modelled.
- `Promise.all` in the web comic call is modelled as an ordered all-or-nothing result. The concurrency of its requests is not modelled; `Gemini.Comic` records one first request per panel, since all of them are sent before any answer is awaited.
- Case mapping is ASCII only. JavaScript's `toLowerCase` and Python's `lower` are Unicode.
- String lengths count code points, not UTF-16 units.
- `localeCompare` is modelled as code-point order.
- Wall-clock time is a parameter. `Date.now`, `time.time`, `sleep`/`setTimeout` and the Pacific-time day key are not modelled; the Fal waits are a per-poll delay sequence of at least 1200 ms.
- The status line's `setTimeout` reset to "" in the key drawer is not modelled.
- File persistence (`_load`, `_save`, the JSON files of the batch bot) is not modelled. State is in memory; a corrupt or missing file and its reset are left out.
- `base64ToBytes` and `toBase64` follow the browser branch. The Node `Buffer` branch, which is lenient about malformed input, is not modelled.
- The regular expressions are hand-written predicates for the patterns in use, not a regex engine.
- `create_reddit_client`, the reconnect loop of `main`, the `eval_runner.run` scenarios, `consistency.py`, `metrics.py`, the text-to-speech wrappers and all UI components and pages are not part of this model.
- The key drawer's live test calls (`testGemini` and the like) are not modelled.
- StreamBot.StreamBot.OnComment: the stream bot keys the last-call map by the author name as given, while the allowlist compares lower-cased names. The model keeps both as written.
- BotText.ExtractStream: its own contract states only the length bound and the normalisation; the values of its two branches are stated by BotText.StreamQuoteWins and BotText.StreamTailFallback.
- BotText.ExtractBatch: the batch bot's quoted branch strips and cuts the segment but does not collapse inner whitespace, so its own contract states only the first character and the length for both branches; the values of the two branches are stated by BotText.BatchQuoteWins and BotText.BatchTail.
- EditRoute.RawMessage: an error without a message reads as "Error", the text of the `Error`s the route and the adapters throw; errors are carried as their messages only, so a `TypeError` without a message, which would read "TypeError", is not distinguished.
- GeminiClient.PanelOutcome: a comic panel whose inline data is empty raises, while `edit_or_blend` returns the empty bytes as they are. The model keeps both.
- Dropzone.Picked: picking nothing does not clear an earlier error message. The model keeps it as written.
