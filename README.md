# ytfps playlist scraper, modelled in Dafny

This project models the core of `lib/index.ts` in ytfps, a YouTube playlist
scraper. `fetchFromPlaylist(url)` does the following:

- resolves a playlist URL or a bare ID to a playlist identifier;
- fetches the playlist page and reads its embedded `ytInitialData`;
- rejects private playlists and pages without the video list;
- maps the first page's raw video entries to video records with
  `parseVideosFromJson`;
- follows continuation tokens with `getAllVideos`, appending each page's videos
  in fetch order;
- finally reads the playlist metadata: title, counts, thumbnail and owner.

The network becomes a value, a `Fetcher.Server` holding two maps:

- playlist identifier to parsed page;
- continuation token to AJAX response.

A missing key stands for a failed request. The model records the requests the
scraper issues, in order, next to its result.

Modules, one per component:

- `Wrappers`: `Option`/`Result`.
- `Text`: scanning, digit stripping, decimal numbers, query stripping.
- `JsValue`: parsed JSON, `undefined`, `a.b` against `a?.b`, truthiness,
  string and number coercion.
- `Errors`: the seven thrown errors and their messages.
- `PlaylistId`: the identifier regular expression, written as a scan.
- `Fetcher`: the server and the requests.
- `Videos`: `parseVideosFromJson`.
- `Continuation`: `getAllVideos`.
- `Scraper`: `fetchFromPlaylist`.

The JavaScript access rules are kept exactly, apart from the differences listed
under "## Left out":

- Plain property access throws only when an intermediate value is `null` or
  `undefined`. A missing leaf is `undefined`, so record fields read straight
  from the data are JavaScript values (`Js`). Derived URLs use JavaScript's
  string conversion, so an absent id gives `.../watch?v=undefined`.
- The loops are methods proved against specification functions:
  - `ParseVideosFromJson` against `VideosOf`;
  - `GetAllVideos` against `Walk`;
  - `FetchFromPlaylist`/`CollectVideos` against `Scrape`/`Collect`.

  The properties are proved as lemmas about those functions.

Two behaviours of the code a reader may not expect:

- A page whose `ytInitialData` assignment is missing is not a fetch error. The
  code parses `'{}'` instead, so the result is "Cannot find valid playlist JSON
  data" (`Scraper.MissingInitialDataStops`).
- A `null` entry in a video array does not just drop that entry. The
  `.map(v => v.playlistVideoRenderer)` runs outside the per-entry `try`, so it
  aborts the whole batch:
  - "Could not parse videos from videoData JSON" on the first page;
  - "An error has occured while trying to fetch more videos" on a continuation
    page (`Videos.NullEntryAbortsBatch`, `Videos.UnbuildableEntrySkipped`).

  Every other malformed entry is skipped.

## Model

| member | source | states |
|---|---|---|
| Text.DigitsOf | lib/index.ts:56-57 | `replace(/[^0-9]/g, '')` leaves only digits and never lengthens the string |
| Text.DigitsOfAppend | lib/index.ts:56-57 | digit stripping distributes over concatenation |
| Text.DigitsOfDigits | lib/index.ts:56-57 | a string of digits is left unchanged |
| Text.NoDigitsCountsZero | lib/index.ts:56-57 | a display string without digits counts 0, as `+""` is 0 |
| Text.DecimalRoundTrip | lib/index.ts:56-57 | reading back a number's decimal notation gives the number |
| Text.CountOfDecoratedNumber | lib/index.ts:56-57 | a number surrounded by digit-free text counts as that number |
| Text.CountIgnoresSeparators | lib/index.ts:56-57 | non-digit separators do not change the count |
| Text.CountWithSeparatorExample | lib/index.ts:56-57 | "1,234 videos" counts 1234 |
| Text.StripQueryFirstLine | lib/index.ts:60 | after `replace(/\?.*/, '')` the first line holds no `?` |
| Text.StripQuerySingleLine | lib/index.ts:60 | on a one-line URL the result is the text before the first `?`, and stripping is idempotent |
| JsValue.Property | lib/index.ts:37 | only objects, arrays and strings have readable properties; a missing one is `undefined` |
| JsValue.StrictAppend | lib/index.ts:39 | a plain path read splits into two consecutive reads |
| JsValue.StrictAgreesWithOptional | lib/index.ts:37-39 | when `a.b.c` does not throw, `a?.b?.c` reads the same value |
| JsValue.OptionalPresentIsStrict | lib/index.ts:37-39 | when the optional chain is neither `null` nor `undefined`, the plain read cannot throw and gives the same value |
| JsValue.StrictFailsIff | lib/index.ts:49-51 | a plain path read throws if and only if some value on the way is `null` or `undefined` |
| PlaylistId.Resolve | lib/index.ts:21-24 | a failure is always the invalid-input error; an identifier is non-empty and holds no `#`, `&` or `?` |
| PlaylistId.ListValueFromSound | lib/index.ts:21 | a `list=` capture is never empty |
| PlaylistId.ListValueFromLeftmost | lib/index.ts:21 | the `list=` alternative matches if and only if some `?list=`/`&list=` occurrence is followed by a non-stop character; the capture is the maximal run after the leftmost such occurrence |
| PlaylistId.ResolvesLeftmostList | lib/index.ts:21-24 | input with a `list=` match resolves to the maximal capture after the leftmost match, even when it is also a bare ID |
| PlaylistId.BareIdResolvesToItself | lib/index.ts:21-24 | a whole-string `[a-zA-Z0-9-_]+` resolves to itself |
| PlaylistId.RejectsOtherInput | lib/index.ts:21-23 | input with no `list=` match that is not a bare ID (the empty string, say) is rejected with "Invalid playlist URL or ID" |
| PlaylistId.RejectedInputMatchesNothing | lib/index.ts:21-23 | conversely, only input with no `list=` match that is not a bare ID is rejected |
| PlaylistId.PlaylistUrlRoundTrip | lib/index.ts:21-24 | the playlist URL built at line 54 resolves back to its identifier |
| Videos.Entry | lib/index.ts:78-89 | a record is built if and only if every plain-access path of the record literal can be read; its `url` and `thumbnail_url` name its id, and `milis_length` is `+lengthSeconds * 1000` |
| Videos.Survivors | lib/index.ts:76-92 | skipping failed entries never lengthens the batch |
| Videos.ParseVideosFromJson | lib/index.ts:73-97 | the push loop returns exactly `VideosOf` |
| Videos.NullEntryAbortsBatch | lib/index.ts:76-95 | a `null` entry anywhere makes `parseVideosFromJson` throw "Could not parse videos from videoData JSON" |
| Videos.UnbuildableEntrySkipped | lib/index.ts:77-92 | any other entry whose record cannot be built is skipped: the batch maps as if that entry were absent |
| Videos.SurvivorsAppend | lib/index.ts:76-92 | entries contribute independently: a concatenation maps to the concatenation of the records |
| Videos.EntryContributesItself | lib/index.ts:77-92 | one entry contributes its own record or nothing, without disturbing its neighbours |
| Videos.SurvivorsAreKeptEntries | lib/index.ts:77-92 | the k-th record is built from the k-th entry that builds |
| Videos.KeptIsIncreasing | lib/index.ts:77-92 | the entries kept are in their original order |
| Videos.KeptIffBuilds | lib/index.ts:77-92 | an entry is kept if and only if its record builds |
| Videos.SurvivorsWellDerived | lib/index.ts:80-84 | every record's URLs are derived from its own id |
| Videos.VideosOfWellDerived | lib/index.ts:80-84 | every record returned by `parseVideosFromJson` has URLs derived from its id |
| Videos.EntryMillis | lib/index.ts:83 | an integer `lengthSeconds`, given as a number or a digit string, gives that many thousand milliseconds |
| Continuation.ContinuationPage | lib/index.ts:100-106 | every failure of a continuation round is "An error has occured while trying to fetch more videos" |
| Continuation.ContinuationPageSucceedsIff | lib/index.ts:101-103 | a round succeeds if and only if the response exists, `[1].response.continuationContents.playlistVideoListContinuation.contents` can be read and it maps; the page's videos are then the mapped contents |
| Continuation.ContinuationPageWellDerived | lib/index.ts:102 | every record of a continuation page has URLs derived from its id |
| Continuation.Walk | lib/index.ts:99-108 | a finished walk requested at least one and at most `fuel` pages, starting with the given token |
| Continuation.WalkStep | lib/index.ts:102-104 | one round: a failing page ends the walk with its failure, a page without a token ends it with its videos, and otherwise the walk continues from the next token |
| Continuation.FetchContinuationPage | lib/index.ts:101-103 | one round of fetching, mapping and reading the next token returns that token's page |
| Continuation.GetAllVideos | lib/index.ts:99-108 | the accumulating loop returns exactly the walk's outcome and requests |
| Continuation.WalkCompletesIff | lib/index.ts:99-104 | the walk succeeds if and only if the tokens requested form a whole chain ending in a page without a token; the videos are the pages' videos concatenated in fetch order, one request per page |
| Continuation.WalkAbortsIff | lib/index.ts:100-107 | the walk fails if and only if the tokens requested form a chain whose last page fails; the failure is that page's and nothing collected earlier is returned |
| Continuation.WalkFuelIrrelevant | lib/index.ts:99-108 | a walk that ends does not depend on the fuel bound |
| Continuation.GatheredWellDerived | lib/index.ts:102 | every record gathered along a chain has URLs derived from its id |
| Scraper.ListData | lib/index.ts:35-39 | page data fails if and only if it has truthy `alerts` (private) or the optional chain to `playlistVideoListRenderer` is falsy (no data); otherwise the plain read at line 39 does not throw and gives the checked value |
| Scraper.DisplayCount | lib/index.ts:56-57 | unary `+` of the stripped display string is always a number: the number its digits spell |
| Scraper.Details | lib/index.ts:48-67 | built metadata has `video_count`/`view_count` equal to the numbers spelled by the digits of `stats[0].runs[0].text`/`stats[1].simpleText`, a thumbnail URL equal to the last thumbnail's `url` cut at its first `?` (so no `?` on its first line), and a URL that names the playlist id |
| Scraper.MetadataFailsIff | lib/index.ts:48-70 | the metadata step throws "Could not parse playlist metadata" if and only if a count text or the last thumbnail URL is not a readable string, or an owner read throws (`si1`, its title run's `text` or `url`, or its last avatar `url`); metadata whose paths all read builds, whatever the videos |
| Scraper.DetailsFailsIff | lib/index.ts:49-65 | building the record throws if and only if one of those reads throws |
| Scraper.DecoratedVideoCount | lib/index.ts:56 | a video count text holding one number between digit-free text gives that number as `video_count` |
| Scraper.FetchFromPlaylist | lib/index.ts:20-46 | the method returns exactly the result and the requests of `Scrape` |
| Scraper.CollectVideos | lib/index.ts:42-70 | the two pushes and the metadata step return exactly `Collect` |
| Scraper.ContinuationRequestsInjective | lib/index.ts:101 | different token sequences give different request sequences |
| Scraper.ScrapePastChecks | lib/index.ts:20-46 | a call that ends in success, a continuation failure or a metadata failure passed every check and made the playlist request first |
| Scraper.InvalidInputRequestsNothing | lib/index.ts:21-23 | input that does not resolve is rejected with no request |
| Scraper.FetchFailureStops | lib/index.ts:28-33 | a failed fetch or parse stops after the one playlist request |
| Scraper.MissingInitialDataStops | lib/index.ts:30-38 | a page without the `ytInitialData` assignment gives "Cannot find valid playlist JSON data", after one request |
| Scraper.NoListRendererStops | lib/index.ts:35-38 | parsed page data without truthy `alerts` whose optional chain to `playlistVideoListRenderer` is falsy gives "Cannot find valid playlist JSON data", after one request |
| Scraper.PrivatePlaylistStops | lib/index.ts:35-36 | truthy `alerts` gives "This playlist is private" before any continuation request |
| Scraper.CollectSucceedsIff | lib/index.ts:42-70 | success if and only if the first page maps, the continuation tokens form a whole chain from its token, and the metadata can be read; the playlist's videos are the first page's followed by every continuation page's, in fetch order |
| Scraper.ContinuedFailsIff | lib/index.ts:45-46 | once the first page names a token, failure comes from a broken chain (continuation error) or from metadata after a whole chain |
| Scraper.CollectFailsIff | lib/index.ts:42-70 | failure if and only if the first page does not map (no continuation request), a continuation page fails (no partial result), or the metadata cannot be read (only after every page was fetched, whatever the videos) |
| Scraper.CollectFuelIrrelevant | lib/index.ts:45-46 | a finished collection does not depend on the fuel bound |
| Scraper.ScrapeFuelIrrelevant | lib/index.ts:20-70 | a finished call does not depend on the fuel bound |
| Scraper.CollectedVideosWellDerived | lib/index.ts:42-46 | every collected video has URLs derived from its id |
| Scraper.CollectedPlaylist | lib/index.ts:48-67 | a built playlist made only continuation requests and takes every field but `videos` from the metadata |
| Scraper.ScrapedPlaylist | lib/index.ts:20-67 | a successful call requested the resolved playlist first and then only continuation pages; its `video_count`/`view_count` are the numbers spelled by the digits of the page data's `stats[0].runs[0].text`/`stats[1].simpleText`, its thumbnail URL is the last thumbnail's `url` cut at its first `?` (so no `?` on its first line), and its URL names its id |
| Scraper.ScrapedVideosWellDerived | lib/index.ts:78-84 | every video of a successful call has URLs derived from its own id |
| Scraper.ScrapedUrlResolves | lib/index.ts:54 | the URL of a scraped playlist resolves back to its id |

## Left out

- HTTP: `axios`, the request headers (lib/index.ts:6-12), `encodeURI` of the identifier and the URL of each request. A request is recorded as a playlist ID or a continuation token, and the server is a pair of maps.
- `async`/`await`: the walk is strictly sequential. Its tail recursion with an accumulator array becomes a loop that appends to a `seq`.
- Locating the `ytInitialData` assignment with a regular expression and `JSON.parse` of it (lib/index.ts:30): the page is given already parsed as `Fetcher.PlaylistPage`. The captured text starts with `{`, so a successful parse is an object.
- JSON numbers are integers, so floating point is not modelled.
- JsValue.StringToNumber: gives NaN for every string that is not all ASCII digits. JavaScript also reads surrounding whitespace, a sign, a decimal point, an exponent and hexadecimal. The counts only ever see digit strings, so this matters only for `lengthSeconds`.
- Scraper.DisplayCount: the count is an unbounded integer. JavaScript loses precision above 2^53.
- JsValue.JsonToString: numbers are printed as integers only.
- JsValue.Property: built-in properties such as `length` and prototype methods read as `undefined`. The scraper only reads them through `.pop`, `.map` and `.replace`, which are modelled separately. An own data key named `toString` that shadows the prototype method is not modelled either: in JavaScript it makes string conversion and unary `+` throw, so such an entry would be skipped, but `JsValue.ToJsString` and `JsValue.ToNumber` never fail.
- The removal performed by `.pop()` (lib/index.ts:60, 64): it changes only data that is not read again.
- Continuation.GetAllVideos: the walk is described for chains that end within a ghost fuel bound. The source puts no bound on the number of pages, so an endless chain of tokens is not described.
- The `YTPlaylist`/`YTvideo` interfaces file is not part of this model. The record types are rebuilt from the fields the code writes.
