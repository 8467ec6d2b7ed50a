/** `fetchFromPlaylist`: resolves the input to a playlist identifier, fetches the
    playlist page, checks its data, collects the videos of the first page and of
    every continuation page, and finally reads the playlist metadata. Each failure
    is one of the errors of `Errors`; the requests are recorded in the order they
    are issued. */
module Scraper {
  import opened Wrappers
  import opened Text
  import opened JsValue
  import opened Errors
  import opened PlaylistId
  import opened Videos
  import opened Fetcher
  import opened Continuation

  const ALERTS := Key("alerts")
  const LIST_RENDERER := [Key("contents"), Key("twoColumnBrowseResultsRenderer"), Key("tabs"),
                          Index(0), Key("tabRenderer"), Key("content"),
                          Key("sectionListRenderer"), Key("contents"), Index(0),
                          Key("itemSectionRenderer"), Key("contents"), Index(0),
                          Key("playlistVideoListRenderer")]
  const PLAYLIST_ID := Key("playlistId")

  const MICROFORMAT := [Key("microformat"), Key("microformatDataRenderer")]
  const SIDEBAR_ITEMS := [Key("sidebar"), Key("playlistSidebarRenderer"), Key("items")]
  const PRIMARY := SIDEBAR_ITEMS + [Index(0), Key("playlistSidebarPrimaryInfoRenderer")]
  const OWNER := SIDEBAR_ITEMS + [Index(1), Key("playlistSidebarSecondaryInfoRenderer"),
                                  Key("videoOwner"), Key("videoOwnerRenderer")]
  const VIDEO_COUNT_TEXT := [Key("stats"), Index(0), Key("runs"), Index(0), Key("text")]
  const VIEW_COUNT_TEXT := [Key("stats"), Index(1), Key("simpleText")]
  const THUMBNAILS := [Key("thumbnail"), Key("thumbnails")]
  const URL := Key("url")
  const OWNER_RUN := [Key("title"), Key("runs"), Index(0)]
  const OWNER_NAME := OWNER_RUN + [Key("text")]
  const OWNER_URL := OWNER_RUN + [Key("navigationEndpoint"), Key("commandMetadata"),
                                  Key("webCommandMetadata"), Key("url")]

  datatype Owner = Owner(name: Js, url: string, avatarUrl: Js)

  /** The playlist record. Fields read straight from the data keep their
      JavaScript value; the two counts are what unary `+` gives. */
  datatype Playlist = Playlist(
    title: Js,
    url: string,
    id: Js,
    videoCount: Num,
    viewCount: Num,
    description: Js,
    isUnlisted: Js,
    thumbnailUrl: string,
    author: Owner,
    videos: seq<Video>)

  /** What one call gives: the playlist or the error it throws, and the requests
      it issued, in order. */
  datatype Outcome = Outcome(result: Result<Playlist, Error>, requests: seq<Request>)

  /** The page data of the playlist: a failed request and a `JSON.parse` that
      throws are both reported as `FetchFailed`; a page without the data
      assignment parses `'{}'`, an empty object. */
  function InitialData(server: Server, id: string): (r: Result<map<string, Json>, Error>)
    ensures r.Failure? <==> id !in server.playlists || server.playlists[id].Unparseable?
    ensures r.Failure? ==> r.error == FetchFailed
    ensures r.Success? && server.playlists[id].NoInitialData? ==> r.value == map[]
  {
    if id !in server.playlists then Failure(FetchFailed)
    else
      match server.playlists[id]
      case Unparseable => Failure(FetchFailed)
      case NoInitialData => Success(map[])
      case InitialData(fields) => Success(fields)
  }

  /** The two checks on the page data and the plain read of the video list
      renderer that follows them. The check uses optional chaining and the read
      plain property access; the read cannot throw once the check has passed. */
  function ListData(d: Json): (r: Result<Js, Error>)
    ensures r.Failure? <==> Truthy(Property(d, ALERTS)) || !Truthy(Optional(Value(d), LIST_RENDERER))
    ensures r.Failure? ==>
      r.error == (if Truthy(Property(d, ALERTS)) then PrivatePlaylist else NoPlaylistData)
    ensures r.Success? ==> Truthy(r.value) && Strict(Value(d), LIST_RENDERER) == Some(r.value)
  {
    if Truthy(Property(d, ALERTS)) then Failure(PrivatePlaylist)
    else
      var list := Optional(Value(d), LIST_RENDERER);
      if !Truthy(list) then Failure(NoPlaylistData)
      else
        OptionalPresentIsStrict(Value(d), LIST_RENDERER);
        Success(list)
  }

  /** The first page: the video array of the renderer, mapped only when it is
      truthy, and the token of the next page. A failure to map it is not caught. */
  function FirstPage(listData: Js): (r: Result<Page, Error>)
    requires !Nullish(listData)
    ensures r.Failure? <==> Truthy(Property(listData.json, CONTENTS)) &&
                            VideosOf(Property(listData.json, CONTENTS)).Failure?
    ensures r.Failure? ==> r.error == VideoParseFailed
    ensures r.Success? ==> r.value.next == NextToken(Optional(listData, NEXT_TOKEN))
  {
    var contents := Property(listData.json, CONTENTS);
    var videos :- if Truthy(contents) then VideosOf(contents) else Success([]);
    Success(Page(videos, NextToken(Optional(listData, NEXT_TOKEN))))
  }

  /** `arr.pop()`: only an array has the method, and an empty array gives
      `undefined`. The removal itself is not observable afterwards. */
  function Pop(v: Js): (r: Option<Js>)
    ensures r.Some? <==> v.Value? && v.json.Arr?
    ensures r.Some? && v.json.items != [] ==> r.value == Value(v.json.items[|v.json.items| - 1])
    ensures r.Some? && v.json.items == [] ==> r.value == Undefined
  {
    if v.Value? && v.json.Arr? then
      var items := v.json.items;
      Some(if items == [] then Undefined else Value(items[|items| - 1]))
    else None
  }

  /** `arr.pop().url`. */
  function LastUrl(v: Js): Option<Js> {
    var last :- Pop(v);
    Member(last, URL)
  }

  /** `+s.replace(/[^0-9]/g, '')`. */
  function DisplayCount(s: string): (n: Num)
    ensures n == Finite(CountFromDisplay(s))
  {
    StringToNumber(DigitsOf(s))
  }

  /** The display string at `path` below the primary sidebar entry of the page
      data `d`, when the path can be read and holds a string. */
  function StatText(d: Json, path: seq<Step>): Option<string> {
    var si0 :- Strict(Value(d), PRIMARY);
    var text :- Strict(si0, path);
    AsString(text)
  }

  /** The URL string of the last thumbnail of the page data `d`, when it can be
      read and is a string. */
  function ThumbnailText(d: Json): Option<string> {
    var mf :- Strict(Value(d), MICROFORMAT);
    var thumbnails :- Strict(mf, THUMBNAILS);
    var url :- LastUrl(thumbnails);
    AsString(url)
  }

  /** The body of the metadata `try` with every field but `videos`, or `None`
      where building it throws. `d` is the page data and `listData` the video
      list renderer. The counts are the numbers spelled by the digits of their
      display strings, and the thumbnail URL is the last thumbnail's URL cut at
      its first `?`. */
  function Details(d: Json, listData: Js): (p: Option<Playlist>)
    requires !Nullish(listData)
    ensures p.Some? ==>
      && p.value.videos == []
      && p.value.id == Property(listData.json, PLAYLIST_ID)
      && p.value.url == PLAYLIST_URL_PREFIX + ToJsString(p.value.id)
      && p.value.videoCount.Finite? && p.value.viewCount.Finite?
      && '?' !in FirstLine(p.value.thumbnailUrl)
    ensures p.Some? ==>
      && StatText(d, VIDEO_COUNT_TEXT).Some?
      && p.value.videoCount == Finite(CountFromDisplay(StatText(d, VIDEO_COUNT_TEXT).value))
      && StatText(d, VIEW_COUNT_TEXT).Some?
      && p.value.viewCount == Finite(CountFromDisplay(StatText(d, VIEW_COUNT_TEXT).value))
      && ThumbnailText(d).Some?
      && p.value.thumbnailUrl == StripQuery(ThumbnailText(d).value)
  {
    var mf :- Strict(Value(d), MICROFORMAT);
    var si0 :- Strict(Value(d), PRIMARY);
    var si1 :- Strict(Value(d), OWNER);
    var title :- Member(mf, Key("title"));
    // `mf` is an object once `mf.title` has been read
    var description := Property(mf.json, Key("description"));
    var unlisted := Property(mf.json, Key("unlisted"));
    var id := Property(listData.json, PLAYLIST_ID);
    var videoCountText :- Strict(si0, VIDEO_COUNT_TEXT);
    var videoCount :- AsString(videoCountText);
    var viewCountText :- Strict(si0, VIEW_COUNT_TEXT);
    var viewCount :- AsString(viewCountText);
    var thumbnails :- Strict(mf, THUMBNAILS);
    var thumbnailUrl :- LastUrl(thumbnails);
    var thumbnail :- AsString(thumbnailUrl);
    var ownerName :- Strict(si1, OWNER_NAME);
    var ownerUrl :- Strict(si1, OWNER_URL);
    var avatars :- Strict(si1, THUMBNAILS);
    var avatarUrl :- LastUrl(avatars);
    StripQueryFirstLine(thumbnail);
    Some(Playlist(title, PLAYLIST_URL_PREFIX + ToJsString(id), id,
                  DisplayCount(videoCount), DisplayCount(viewCount), description, unlisted,
                  StripQuery(thumbnail),
                  Owner(ownerName, BASE_URL + ToJsString(ownerUrl), avatarUrl),
                  []))
  }

  /** The record the metadata `try` returns: the details and the videos. */
  function Record(d: Json, listData: Js, videos: seq<Video>): (p: Option<Playlist>)
    requires !Nullish(listData)
  {
    var details :- Details(d, listData);
    Some(details.(videos := videos))
  }

  /** The metadata step, with its `Could not parse playlist metadata` error. */
  function Metadata(d: Json, listData: Js, videos: seq<Video>): (r: Result<Playlist, Error>)
    requires !Nullish(listData)
    ensures r.Failure? <==> Record(d, listData, videos).None?
    ensures r.Failure? ==> r.error == MetadataFailed
    ensures r.Success? ==> r.value == Record(d, listData, videos).value
  {
    match Record(d, listData, videos)
    case None => Failure(MetadataFailed)
    case Some(p) => Success(p)
  }

  /** The owner record reads `si1`, its name, its URL and its last avatar URL;
      `None` when one of those plain reads throws. */
  function OwnerReads(d: Json): Option<(Js, Js, Js)> {
    var si1 :- Strict(Value(d), OWNER);
    var name :- Strict(si1, OWNER_NAME);
    var url :- Strict(si1, OWNER_URL);
    var avatars :- Strict(si1, THUMBNAILS);
    var avatarUrl :- LastUrl(avatars);
    Some((name, url, avatarUrl))
  }

  /** The metadata step throws exactly when one of its reads throws: a count
      text or the last thumbnail URL that is not a readable string, or an owner
      path that cannot be read. Whatever the videos, every failure is
      `Could not parse playlist metadata`, and metadata whose paths all read
      builds. */
  lemma MetadataFailsIff(d: Json, listData: Js, videos: seq<Video>)
    requires !Nullish(listData)
    ensures Metadata(d, listData, videos).Failure? <==>
      || StatText(d, VIDEO_COUNT_TEXT).None?
      || StatText(d, VIEW_COUNT_TEXT).None?
      || ThumbnailText(d).None?
      || OwnerReads(d).None?
    ensures Metadata(d, listData, videos).Failure? ==>
      Metadata(d, listData, videos) == Failure(MetadataFailed)
  {
    DetailsFailsIff(d, listData);
  }

  /** `Details` is `None` exactly when one of the reads of the metadata `try`
      throws. */
  lemma DetailsFailsIff(d: Json, listData: Js)
    requires !Nullish(listData)
    ensures Details(d, listData).None? <==>
      || StatText(d, VIDEO_COUNT_TEXT).None?
      || StatText(d, VIEW_COUNT_TEXT).None?
      || ThumbnailText(d).None?
      || OwnerReads(d).None?
  {
    if Details(d, listData).Some? {
      DetailsReadsOwner(d, listData);
    } else if StatText(d, VIDEO_COUNT_TEXT).Some? && StatText(d, VIEW_COUNT_TEXT).Some? &&
              ThumbnailText(d).Some? && OwnerReads(d).Some? {
      DetailsBuilds(d, listData);
    }
  }

  /** Built metadata has read the owner paths. */
  lemma DetailsReadsOwner(d: Json, listData: Js)
    requires !Nullish(listData)
    requires Details(d, listData).Some?
    ensures OwnerReads(d).Some?
  {
  }

  /** Metadata whose paths all read builds. */
  lemma DetailsBuilds(d: Json, listData: Js)
    requires !Nullish(listData)
    requires StatText(d, VIDEO_COUNT_TEXT).Some? && StatText(d, VIEW_COUNT_TEXT).Some?
    requires ThumbnailText(d).Some? && OwnerReads(d).Some?
    ensures Details(d, listData).Some?
  {
    var mf := Strict(Value(d), MICROFORMAT).value;
    assert Strict(mf, THUMBNAILS).Some?;
    assert Member(mf, Key("title")).Some?;
  }

  /** A video count displayed as a number between digit-free text, such as
      "1,234 videos" read without its separator, is that number. */
  lemma DecoratedVideoCount(d: Json, listData: Js, prefix: string, n: nat, suffix: string)
    requires !Nullish(listData)
    requires Details(d, listData).Some?
    requires StatText(d, VIDEO_COUNT_TEXT) == Some(prefix + NatToDecimal(n) + suffix)
    requires forall c | c in prefix :: !IsDigit(c)
    requires forall c | c in suffix :: !IsDigit(c)
    ensures Details(d, listData).value.videoCount == Finite(n)
  {
    CountOfDecoratedNumber(prefix, n, suffix);
  }

  /** The continuation requests, one per token, in order. */
  function ContinuationRequests(ts: seq<string>): (rs: seq<Request>)
    ensures |rs| == |ts|
    ensures forall i :: 0 <= i < |ts| ==> rs[i] == ContinuationRequest(ts[i])
  {
    seq(|ts|, i requires 0 <= i < |ts| => ContinuationRequest(ts[i]))
  }

  /** Everything after the checks on the page data: the videos of the first page
      and of the continuation pages, then the metadata. The requests are those of
      the continuation pages. `None` when the chain of continuation pages does not
      end within `fuel` pages. */
  function Collect(server: Server, d: Json, listData: Js, fuel: nat): Option<Outcome>
    requires !Nullish(listData)
  {
    match FirstPage(listData)
    case Failure(e) => Some(Outcome(Failure(e), []))
    case Success(first) =>
      match first.next
      case None => Some(Outcome(Metadata(d, listData, first.videos), []))
      case Some(token) =>
        match Walk(PagesOf(server), token, fuel)
        case None => None
        case Some(w) =>
          var requests := ContinuationRequests(w.requested);
          match w.outcome
          case Failure(e) => Some(Outcome(Failure(e), requests))
          case Success(more) => Some(Outcome(Metadata(d, listData, first.videos + more), requests))
  }

  /** What `fetchFromPlaylist(input)` returns or throws against `server`, when its
      chain of continuation pages ends within `fuel` pages; `None` when it does
      not. */
  function Scrape(input: string, server: Server, fuel: nat): Option<Outcome> {
    match Resolve(input)
    case Failure(e) => Some(Outcome(Failure(e), []))
    case Success(id) =>
      var requests := [PlaylistRequest(id)];
      match InitialData(server, id)
      case Failure(e) => Some(Outcome(Failure(e), requests))
      case Success(fields) =>
        match ListData(Obj(fields))
        case Failure(e) => Some(Outcome(Failure(e), requests))
        case Success(listData) =>
          match Collect(server, Obj(fields), listData, fuel)
          case None => None
          case Some(o) => Some(Outcome(o.result, requests + o.requests))
  }

  lemma PagesOfServes(server: Server)
    ensures Serves(server, PagesOf(server))
  {
  }

  /** `fetchFromPlaylist` up to the checks on the page data. */
  method FetchFromPlaylist(input: string, server: Server, ghost fuel: nat)
    returns (result: Result<Playlist, Error>, requests: seq<Request>)
    requires Scrape(input, server, fuel).Some?
    ensures Scrape(input, server, fuel) == Some(Outcome(result, requests))
  {
    var resolved := Resolve(input);
    if resolved.Failure? {
      return Failure(resolved.error), [];
    }
    var id := resolved.value;
    requests := [PlaylistRequest(id)];
    var initial := InitialData(server, id);
    if initial.Failure? {
      return Failure(initial.error), requests;
    }
    var d := Obj(initial.value);
    if Truthy(Property(d, ALERTS)) {
      return Failure(PrivatePlaylist), requests;
    }
    if !Truthy(Optional(Value(d), LIST_RENDERER)) {
      return Failure(NoPlaylistData), requests;
    }
    OptionalPresentIsStrict(Value(d), LIST_RENDERER);
    var listData := Strict(Value(d), LIST_RENDERER).value;
    var more;
    result, more := CollectVideos(server, d, listData, fuel);
    requests := requests + more;
  }

  /** The rest of `fetchFromPlaylist`: the two pushes into `videos`, then the
      metadata. */
  method CollectVideos(server: Server, d: Json, listData: Js, ghost fuel: nat)
    returns (result: Result<Playlist, Error>, requests: seq<Request>)
    requires !Nullish(listData)
    requires Collect(server, d, listData, fuel).Some?
    ensures Collect(server, d, listData, fuel) == Some(Outcome(result, requests))
  {
    requests := [];
    var videos: seq<Video> := [];
    var contents := Property(listData.json, CONTENTS);
    if Truthy(contents) {
      var first := ParseVideosFromJson(contents);
      if first.Failure? {
        return Failure(first.error), requests;
      }
      assert [] + first.value == first.value;
      videos := videos + first.value;
    }
    var token := NextToken(Optional(listData, NEXT_TOKEN));
    assert FirstPage(listData) == Success(Page(videos, token));
    if token.Some? {
      PagesOfServes(server);
      var more, requested := GetAllVideos(server, token.value, PagesOf(server), fuel);
      requests := ContinuationRequests(requested);
      if more.Failure? {
        return Failure(more.error), requests;
      }
      videos := videos + more.value;
    }
    result := Metadata(d, listData, videos);
  }

  /** The tokens requested after the first page: none when it names no token,
      otherwise a whole chain from its token that ends within `fuel` pages. */
  ghost predicate FullChain(pages: string -> Result<Page, Error>, next: Option<string>,
                            ts: seq<string>, fuel: nat) {
    match next
    case None => ts == []
    case Some(t) => CompleteChain(pages, ts) && ts[0] == t && |ts| <= fuel
  }

  lemma ContinuationRequestsInjective(a: seq<string>, b: seq<string>)
    requires ContinuationRequests(a) == ContinuationRequests(b)
    ensures a == b
  {
    assert |a| == |b|;
    forall i | 0 <= i < |a| ensures a[i] == b[i] {
      assert ContinuationRequests(a)[i] == ContinuationRequests(b)[i];
    }
  }

  /** The scraper succeeds after the checks if and only if the first page maps,
      the continuation pages form a whole chain from its token requested one
      after the other, and the metadata can be read; the playlist then holds the
      videos of the first page followed by those of every continuation page, in
      fetch order. */
  lemma CollectSucceedsIff(server: Server, d: Json, listData: Js, fuel: nat,
                                              p: Playlist, ts: seq<string>)
    requires !Nullish(listData)
    ensures Collect(server, d, listData, fuel) == Some(Outcome(Success(p), ContinuationRequests(ts))) <==>
      && FirstPage(listData).Success?
      && FullChain(PagesOf(server), FirstPage(listData).value.next, ts, fuel)
      && Record(d, listData, FirstPage(listData).value.videos + Gathered(PagesOf(server), ts)) == Some(p)
  {
    var pages := PagesOf(server);
    var outcome := Some(Outcome(Success(p), ContinuationRequests(ts)));
    if FirstPage(listData).Success? {
      var first := FirstPage(listData).value;
      match first.next
      case None =>
        if ts == [] {
          assert first.videos + Gathered(pages, ts) == first.videos;
        }
        assert ts != [] ==> |ContinuationRequests(ts)| != 0;
      case Some(token) =>
        if Collect(server, d, listData, fuel) == outcome {
          var w := Walk(pages, token, fuel).value;
          ContinuationRequestsInjective(w.requested, ts);
          WalkCompletesIff(pages, token, fuel, w.outcome.value, ts);
        }
        if FullChain(pages, first.next, ts, fuel) {
          WalkCompletesIff(pages, token, fuel, Gathered(pages, ts), ts);
        }
    }
  }

  /** `CollectFailsIff` once the first page has mapped and named a token. */
  lemma ContinuedFailsIff(server: Server, d: Json, listData: Js, fuel: nat,
                                             first: Page, e: Error, ts: seq<string>)
    requires !Nullish(listData)
    requires FirstPage(listData) == Success(first) && first.next.Some?
    ensures Collect(server, d, listData, fuel) == Some(Outcome(Failure(e), ContinuationRequests(ts))) <==>
      || (BrokenChain(PagesOf(server), ts) && ts[0] == first.next.value && |ts| <= fuel && e == MoreVideosFailed)
      || (FullChain(PagesOf(server), first.next, ts, fuel) && Details(d, listData).None? && e == MetadataFailed)
  {
    var pages := PagesOf(server);
    var token := first.next.value;
    if Collect(server, d, listData, fuel) == Some(Outcome(Failure(e), ContinuationRequests(ts))) {
      var w := Walk(pages, token, fuel).value;
      ContinuationRequestsInjective(w.requested, ts);
      if w.outcome.Failure? {
        WalkAbortsIff(pages, token, fuel, w.outcome.error, ts);
      } else {
        WalkCompletesIff(pages, token, fuel, w.outcome.value, ts);
      }
    }
    if BrokenChain(pages, ts) && ts[0] == token && |ts| <= fuel && e == MoreVideosFailed {
      WalkAbortsIff(pages, token, fuel, MoreVideosFailed, ts);
    }
    if FullChain(pages, first.next, ts, fuel) && Details(d, listData).None? {
      WalkCompletesIff(pages, token, fuel, Gathered(pages, ts), ts);
    }
  }

  /** The scraper fails after the checks if and only if the first page does not
      map (before any further request), a continuation page fails (the chain is
      cut at that page and nothing collected so far is returned), or the metadata
      cannot be read (only once every continuation page has been fetched). */
  lemma CollectFailsIff(server: Server, d: Json, listData: Js, fuel: nat,
                                           e: Error, ts: seq<string>)
    requires !Nullish(listData)
    ensures Collect(server, d, listData, fuel) == Some(Outcome(Failure(e), ContinuationRequests(ts))) <==>
      || (FirstPage(listData).Failure? && e == VideoParseFailed && ts == [])
      || (&& FirstPage(listData).Success?
          && FirstPage(listData).value.next.Some?
          && BrokenChain(PagesOf(server), ts)
          && ts[0] == FirstPage(listData).value.next.value
          && |ts| <= fuel
          && e == MoreVideosFailed)
      || (&& FirstPage(listData).Success?
          && FullChain(PagesOf(server), FirstPage(listData).value.next, ts, fuel)
          && Details(d, listData).None?
          && e == MetadataFailed)
  {
    assert ts != [] ==> |ContinuationRequests(ts)| != 0;
    if FirstPage(listData).Success? && FirstPage(listData).value.next.Some? {
      ContinuedFailsIff(server, d, listData, fuel, FirstPage(listData).value, e, ts);
    }
  }

  /** A call that gets past the checks on the page data: its result is that of
      `Collect`, after the one playlist request. */
  lemma ScrapePastChecks(input: string, server: Server, fuel: nat, o: Outcome)
    requires Scrape(input, server, fuel) == Some(o)
    requires o.result.Success? || o.result.error == MoreVideosFailed || o.result.error == MetadataFailed
    ensures Resolve(input).Success?
    ensures InitialData(server, Resolve(input).value).Success?
    ensures ListData(Obj(InitialData(server, Resolve(input).value).value)).Success?
    ensures
      var id := Resolve(input).value;
      var d := Obj(InitialData(server, id).value);
      && |o.requests| >= 1
      && o.requests[0] == PlaylistRequest(id)
      && Collect(server, d, ListData(d).value, fuel) == Some(Outcome(o.result, o.requests[1..]))
  {
    var r := Resolve(input);
    if r.Success? {
      var id := r.value;
      var initial := InitialData(server, id);
      if initial.Success? {
        var d := Obj(initial.value);
        var list := ListData(d);
        if list.Success? {
          var c := Collect(server, d, list.value, fuel);
          assert c.Some?;
          assert o.requests == [PlaylistRequest(id)] + c.value.requests;
          assert o.requests[1..] == c.value.requests;
        }
      }
    }
  }

  /** Input that resolves to no identifier is rejected before any request. */
  lemma InvalidInputRequestsNothing(input: string, server: Server, fuel: nat)
    requires Resolve(input).Failure?
    ensures Scrape(input, server, fuel) == Some(Outcome(Failure(InvalidInput), []))
  {
  }

  /** A failed fetch of the playlist page, or page data that cannot be parsed,
      stops after the one playlist request. */
  lemma FetchFailureStops(input: string, server: Server, fuel: nat)
    requires Resolve(input).Success?
    requires var id := Resolve(input).value; id !in server.playlists || server.playlists[id].Unparseable?
    ensures Scrape(input, server, fuel) == Some(Outcome(Failure(FetchFailed), [PlaylistRequest(Resolve(input).value)]))
  {
  }

  /** A page without the data assignment parses as an empty object, so it is
      reported as missing playlist data, after the one playlist request. */
  lemma MissingInitialDataStops(input: string, server: Server, fuel: nat)
    requires Resolve(input).Success?
    requires var id := Resolve(input).value; id in server.playlists && server.playlists[id].NoInitialData?
    ensures Scrape(input, server, fuel) == Some(Outcome(Failure(NoPlaylistData), [PlaylistRequest(Resolve(input).value)]))
  {
    EmptyDataHasNoList();
  }

  /** The empty object `'{}'` parses to has no video list renderer. */
  lemma EmptyDataHasNoList()
    ensures ListData(Obj(map[])) == Failure(NoPlaylistData)
  {
    assert Optional(Value(Obj(map[])), LIST_RENDERER) == Undefined;
  }

  /** Page data carrying `alerts` is reported as a private playlist, after the one
      playlist request and before any continuation page is requested. */
  lemma PrivatePlaylistStops(input: string, server: Server, fuel: nat)
    requires Resolve(input).Success?
    requires var id := Resolve(input).value;
      id in server.playlists && server.playlists[id].InitialData? &&
      Truthy(Property(Obj(server.playlists[id].fields), ALERTS))
    ensures Scrape(input, server, fuel) == Some(Outcome(Failure(PrivatePlaylist), [PlaylistRequest(Resolve(input).value)]))
  {
    var d := Obj(server.playlists[Resolve(input).value].fields);
    assert ListData(d) == Failure(PrivatePlaylist);
  }

  /** Page data without `alerts` whose optional chain to the video list renderer
      is falsy is reported as missing playlist data, after the one playlist
      request. */
  lemma NoListRendererStops(input: string, server: Server, fuel: nat)
    requires Resolve(input).Success?
    requires var id := Resolve(input).value;
      id in server.playlists && server.playlists[id].InitialData? &&
      !Truthy(Property(Obj(server.playlists[id].fields), ALERTS)) &&
      !Truthy(Optional(Value(Obj(server.playlists[id].fields)), LIST_RENDERER))
    ensures Scrape(input, server, fuel) == Some(Outcome(Failure(NoPlaylistData), [PlaylistRequest(Resolve(input).value)]))
  {
    var d := Obj(server.playlists[Resolve(input).value].fields);
    assert ListData(d) == Failure(NoPlaylistData);
  }

  /** More fuel does not change what happens after the checks once the chain of
      pages ends. */
  lemma CollectFuelIrrelevant(server: Server, d: Json, listData: Js, fuel: nat, more: nat)
    requires !Nullish(listData)
    requires Collect(server, d, listData, fuel).Some?
    requires fuel <= more
    ensures Collect(server, d, listData, more) == Collect(server, d, listData, fuel)
  {
    if FirstPage(listData).Success? && FirstPage(listData).value.next.Some? {
      WalkFuelIrrelevant(PagesOf(server), FirstPage(listData).value.next.value, fuel, more);
    }
  }

  /** More fuel does not change a call whose chain of pages already ends. */
  lemma ScrapeFuelIrrelevant(input: string, server: Server, fuel: nat, more: nat)
    requires Scrape(input, server, fuel).Some?
    requires fuel <= more
    ensures Scrape(input, server, more) == Scrape(input, server, fuel)
  {
    var r := Resolve(input);
    if r.Success? {
      var id := r.value;
      var initial := InitialData(server, id);
      if initial.Success? {
        var d := Obj(initial.value);
        var list := ListData(d);
        if list.Success? {
          assert Collect(server, d, list.value, fuel).Some?;
          CollectFuelIrrelevant(server, d, list.value, fuel, more);
        }
      }
    }
  }

  /** The videos of a playlist built after the checks all carry URLs derived
      from their own ids. */
  lemma CollectedVideosWellDerived(server: Server, d: Json, listData: Js, fuel: nat,
                                   p: Playlist, requests: seq<Request>)
    requires !Nullish(listData)
    requires Collect(server, d, listData, fuel) == Some(Outcome(Success(p), requests))
    ensures forall v | v in p.videos :: WellDerived(v)
  {
    var first := FirstPage(listData).value;
    var contents := Property(listData.json, CONTENTS);
    if Truthy(contents) {
      VideosOfWellDerived(contents);
    }
    var ts: seq<string> := [];
    if first.next.Some? {
      var w := Walk(PagesOf(server), first.next.value, fuel).value;
      ts := w.requested;
      WalkCompletesIff(PagesOf(server), first.next.value, fuel, w.outcome.value, ts);
    }
    CollectSucceedsIff(server, d, listData, fuel, p, ts);
    GatheredWellDerived(server, ts);
  }

  /** A playlist built after the checks: every request was for a continuation
      page, and every field but `videos` comes from the metadata. */
  lemma CollectedPlaylist(server: Server, d: Json, listData: Js, fuel: nat,
                          p: Playlist, requests: seq<Request>)
    requires !Nullish(listData)
    requires Collect(server, d, listData, fuel) == Some(Outcome(Success(p), requests))
    ensures forall i | 0 <= i < |requests| :: requests[i].ContinuationRequest?
    ensures Details(d, listData) == Some(p.(videos := []))
  {
    var first := FirstPage(listData).value;
    if first.next.Some? {
      var w := Walk(PagesOf(server), first.next.value, fuel).value;
      assert requests == ContinuationRequests(w.requested);
    }
  }

  /** A successful call: the identifier was resolved and requested first, every
      later request is for a continuation page, the counts are the numbers
      spelled by the digits of the page data's count texts, the thumbnail URL is
      the last thumbnail's URL cut at its first `?`, and the playlist URL names
      the playlist id. */
  lemma ScrapedPlaylist(input: string, server: Server, fuel: nat, p: Playlist, requests: seq<Request>)
    requires Scrape(input, server, fuel) == Some(Outcome(Success(p), requests))
    ensures Resolve(input).Success?
    ensures requests != [] && requests[0] == PlaylistRequest(Resolve(input).value)
    ensures forall i | 1 <= i < |requests| :: requests[i].ContinuationRequest?
    ensures p.videoCount.Finite? && p.viewCount.Finite?
    ensures '?' !in FirstLine(p.thumbnailUrl)
    ensures p.url == PLAYLIST_URL_PREFIX + ToJsString(p.id)
    ensures InitialData(server, Resolve(input).value).Success?
    ensures var d := Obj(InitialData(server, Resolve(input).value).value);
      && StatText(d, VIDEO_COUNT_TEXT).Some?
      && p.videoCount == Finite(CountFromDisplay(StatText(d, VIDEO_COUNT_TEXT).value))
      && StatText(d, VIEW_COUNT_TEXT).Some?
      && p.viewCount == Finite(CountFromDisplay(StatText(d, VIEW_COUNT_TEXT).value))
      && ThumbnailText(d).Some?
      && p.thumbnailUrl == StripQuery(ThumbnailText(d).value)
  {
    ScrapePastChecks(input, server, fuel, Outcome(Success(p), requests));
    var d := Obj(InitialData(server, Resolve(input).value).value);
    CollectedPlaylist(server, d, ListData(d).value, fuel, p, requests[1..]);
    DetailedPlaylist(d, ListData(d).value, p);
    assert forall i | 1 <= i < |requests| :: requests[i] == requests[1..][i - 1];
  }

  /** The metadata's promises carried over to the playlist built from it: a
      step of `ScrapedPlaylist` taken apart from `Scrape`, so the solver sees
      only `Details` here. */
  lemma DetailedPlaylist(d: Json, listData: Js, p: Playlist)
    requires !Nullish(listData)
    requires Details(d, listData) == Some(p.(videos := []))
    ensures p.videoCount.Finite? && p.viewCount.Finite?
    ensures '?' !in FirstLine(p.thumbnailUrl)
    ensures p.url == PLAYLIST_URL_PREFIX + ToJsString(p.id)
    ensures && StatText(d, VIDEO_COUNT_TEXT).Some?
            && p.videoCount == Finite(CountFromDisplay(StatText(d, VIDEO_COUNT_TEXT).value))
            && StatText(d, VIEW_COUNT_TEXT).Some?
            && p.viewCount == Finite(CountFromDisplay(StatText(d, VIEW_COUNT_TEXT).value))
            && ThumbnailText(d).Some?
            && p.thumbnailUrl == StripQuery(ThumbnailText(d).value)
  {
  }

  /** Every video of a successful call carries URLs derived from its own id. */
  lemma ScrapedVideosWellDerived(input: string, server: Server, fuel: nat, p: Playlist, requests: seq<Request>)
    requires Scrape(input, server, fuel) == Some(Outcome(Success(p), requests))
    ensures forall v | v in p.videos :: WellDerived(v)
  {
    ScrapePastChecks(input, server, fuel, Outcome(Success(p), requests));
    var d := Obj(InitialData(server, Resolve(input).value).value);
    CollectedVideosWellDerived(server, d, ListData(d).value, fuel, p, requests[1..]);
  }

  /** The playlist URL of a successful call resolves back to the playlist id, when
      that id is a string that is a possible `list=` value. */
  lemma ScrapedUrlResolves(input: string, server: Server, fuel: nat, p: Playlist, requests: seq<Request>,
                           id: string)
    requires Scrape(input, server, fuel) == Some(Outcome(Success(p), requests))
    requires p.id == Value(Str(id)) && id != [] && forall c | c in id :: !IsStop(c)
    ensures Resolve(p.url) == Success(id)
  {
    ScrapedPlaylist(input, server, fuel, p, requests);
    UrlOfStringIdResolves(p, id);
  }

  /** A playlist URL built from a string id that is a possible `list=` value
      resolves back to that id: a step of `ScrapedUrlResolves` taken apart from
      `Scrape`, so the solver sees only the playlist record here. */
  lemma UrlOfStringIdResolves(p: Playlist, id: string)
    requires p.url == PLAYLIST_URL_PREFIX + ToJsString(p.id)
    requires p.id == Value(Str(id)) && id != [] && forall c | c in id :: !IsStop(c)
    ensures Resolve(p.url) == Success(id)
  {
    PlaylistUrlRoundTrip(id);
  }
}
