/** `getAllVideos`: follows continuation tokens page after page, appending each
    page's videos, until a page names no further token. Any failure on any page
    aborts the whole walk and no video is returned. The source puts no bound on
    the number of pages; the specification function below takes a fuel bound and
    the method a ghost one, so that only finite chains are described. */
module Continuation {
  import opened Wrappers
  import opened JsValue
  import opened Errors
  import opened Videos
  import opened Fetcher

  /** One page of results: its videos and the token of the next page, if any. */
  datatype Page = Page(videos: seq<Video>, next: Option<string>)

  const CONTINUATION := [Index(1), Key("response"), Key("continuationContents"),
                         Key("playlistVideoListContinuation")]
  const CONTENTS := Key("contents")
  const NEXT_TOKEN := [Key("continuations"), Index(0), Key("nextContinuationData"),
                       Key("continuation")]

  /** A truthy token value names the next page; the request uses its string form. */
  function NextToken(v: Js): Option<string> {
    if Truthy(v) then Some(ToJsString(v)) else None
  }

  /** The page behind a continuation token: fetched, its video array mapped, its
      next token read. */
  function ContinuationPage(server: Server, token: string): (r: Result<Page, Error>)
    ensures r.Failure? ==> r == Failure(MoreVideosFailed)
  {
    if token !in server.continuations then Failure(MoreVideosFailed)
    else
      match Strict(Value(server.continuations[token]), CONTINUATION)
      case None => Failure(MoreVideosFailed)
      case Some(list) =>
        match Member(list, CONTENTS)
        case None => Failure(MoreVideosFailed)
        case Some(contents) =>
          match VideosOf(contents)
          case Failure(_) => Failure(MoreVideosFailed)
          case Success(videos) => Success(Page(videos, NextToken(Optional(list, NEXT_TOKEN))))
  }

  /** A page fetch succeeds exactly when the response exists, the path to its
      `contents` can be read, and `contents` maps as a video array; its videos
      are then the mapped `contents`. */
  lemma ContinuationPageSucceedsIff(server: Server, token: string)
    ensures ContinuationPage(server, token).Success? <==>
      && token in server.continuations
      && Strict(Value(server.continuations[token]), CONTINUATION + [CONTENTS]).Some?
      && VideosOf(Strict(Value(server.continuations[token]), CONTINUATION + [CONTENTS]).value).Success?
    ensures ContinuationPage(server, token).Success? ==>
      ContinuationPage(server, token).value.videos ==
        VideosOf(Strict(Value(server.continuations[token]), CONTINUATION + [CONTENTS]).value).value
  {
    if token in server.continuations {
      var data := Value(server.continuations[token]);
      StrictAppend(data, CONTINUATION, [CONTENTS]);
      match Strict(data, CONTINUATION)
      case None =>
      case Some(list) =>
        assert Strict(list, [CONTENTS]) == Member(list, CONTENTS);
    }
  }

  /** The continuation pages the server hands out, by token. */
  function PagesOf(server: Server): string -> Result<Page, Error> {
    t => ContinuationPage(server, t)
  }

  /** What a walk gives: the videos or the failure, and the tokens requested. */
  datatype WalkResult = WalkResult(outcome: Result<seq<Video>, Error>, requested: seq<string>)

  function Prepend(vs: seq<Video>, o: Result<seq<Video>, Error>): Result<seq<Video>, Error> {
    match o
    case Success(ws) => Success(vs + ws)
    case Failure(e) => Failure(e)
  }

  /** `getAllVideos(token)` over the pages `pages` serves, when the chain of pages
      from `token` ends within `fuel` pages; `None` when it does not. */
  function Walk(pages: string -> Result<Page, Error>, token: string, fuel: nat): (w: Option<WalkResult>)
    ensures w.Some? ==>
      && 1 <= |w.value.requested| <= fuel
      && w.value.requested[0] == token
    decreases fuel
  {
    if fuel == 0 then None
    else
      match pages(token)
      case Failure(e) => Some(WalkResult(Failure(e), [token]))
      case Success(page) =>
        match page.next
        case None => Some(WalkResult(Success(page.videos), [token]))
        case Some(next) =>
          match Walk(pages, next, fuel - 1)
          case None => None
          case Some(rest) => Some(WalkResult(Prepend(page.videos, rest.outcome), [token] + rest.requested))
  }

  /** The walk continued from some page, seen from the start: `vs` collected and
      `req` requested so far. */
  function Resume(vs: seq<Video>, req: seq<string>, w: WalkResult): WalkResult {
    WalkResult(Prepend(vs, w.outcome), req + w.requested)
  }

  lemma ResumeNothing(w: WalkResult)
    ensures Resume([], [], w) == w
  {
    assert [] + w.requested == w.requested;
    if w.outcome.Success? {
      assert [] + w.outcome.value == w.outcome.value;
    }
  }

  lemma ResumeResume(vs: seq<Video>, req: seq<string>, more: seq<Video>, t: string, w: WalkResult)
    ensures Resume(vs, req, Resume(more, [t], w)) == Resume(vs + more, req + [t], w)
  {
    assert req + ([t] + w.requested) == (req + [t]) + w.requested;
    if w.outcome.Success? {
      assert vs + (more + w.outcome.value) == (vs + more) + w.outcome.value;
    }
  }

  /** One step of the walk, in terms of the page of its first token. */
  lemma WalkStep(pages: string -> Result<Page, Error>, t: string, fuel: nat, page: Result<Page, Error>)
    requires Walk(pages, t, fuel).Some?
    requires page == pages(t)
    ensures page.Failure? ==>
      Walk(pages, t, fuel).value == WalkResult(Failure(page.error), [t])
    ensures page.Success? && page.value.next.None? ==>
      Walk(pages, t, fuel).value == WalkResult(Success(page.value.videos), [t])
    ensures page.Success? && page.value.next.Some? ==>
      && fuel > 0
      && Walk(pages, page.value.next.value, fuel - 1).Some?
      && Walk(pages, t, fuel).value ==
           Resume(page.value.videos, [t], Walk(pages, page.value.next.value, fuel - 1).value)
  {
  }

  /** One round of `getAllVideos`: fetch the page of a token, map its video array
      with `parseVideosFromJson`, and read the next token. */
  method FetchContinuationPage(server: Server, token: string, ghost pages: string -> Result<Page, Error>)
    returns (r: Result<Page, Error>)
    requires Serves(server, pages)
    ensures r == pages(token)
  {
    assert pages(token) == ContinuationPage(server, token);
    if token !in server.continuations {
      return Failure(MoreVideosFailed);
    }
    var list := Strict(Value(server.continuations[token]), CONTINUATION);
    if list.None? {
      return Failure(MoreVideosFailed);
    }
    var contents := Member(list.value, CONTENTS);
    if contents.None? {
      return Failure(MoreVideosFailed);
    }
    var batch := ParseVideosFromJson(contents.value);
    if batch.Failure? {
      return Failure(MoreVideosFailed);
    }
    return Success(Page(batch.value, NextToken(Optional(list.value, NEXT_TOKEN))));
  }

  /** `pages` answers every token as `server` does. */
  ghost predicate Serves(server: Server, pages: string -> Result<Page, Error>) {
    forall t {:trigger ContinuationPage(server, t)} :: pages(t) == ContinuationPage(server, t)
  }

  /** The loop form of `getAllVideos`, with the recursion's `videos` accumulator. */
  method GetAllVideos(server: Server, token: string, ghost pages: string -> Result<Page, Error>, ghost fuel: nat)
    returns (outcome: Result<seq<Video>, Error>, requested: seq<string>)
    requires Serves(server, pages)
    requires Walk(pages, token, fuel).Some?
    ensures Walk(pages, token, fuel) == Some(WalkResult(outcome, requested))
  {
    ghost var whole := Walk(pages, token, fuel).value;
    var videos: seq<Video> := [];
    requested := [];
    var t := token;
    ghost var f := fuel;
    ghost var rest := whole;
    ResumeNothing(whole);
    while true
      invariant Walk(pages, t, f) == Some(rest)
      invariant whole == Resume(videos, requested, rest)
      decreases f
    {
      var page := FetchContinuationPage(server, t, pages);
      WalkStep(pages, t, f, page);
      if page.Failure? {
        return Failure(page.error), requested + [t];
      }
      if page.value.next.None? {
        return Success(videos + page.value.videos), requested + [t];
      }
      var next := page.value.next.value;
      ResumeResume(videos, requested, page.value.videos, t, Walk(pages, next, f - 1).value);
      videos, requested := videos + page.value.videos, requested + [t];
      t, f, rest := next, f - 1, Walk(pages, next, f - 1).value;
    }
  }

  /** Every page of `ts` but the last is served and names the next token of `ts`. */
  ghost predicate Linked(pages: string -> Result<Page, Error>, ts: seq<string>)
    decreases |ts|
  {
    |ts| <= 1 ||
    (pages(ts[0]).Success? && pages(ts[0]).value.next == Some(ts[1]) && Linked(pages, ts[1..]))
  }

  /** `ts` is a whole finite chain: linked, and its last page names no token. */
  ghost predicate CompleteChain(pages: string -> Result<Page, Error>, ts: seq<string>) {
    && |ts| > 0
    && Linked(pages, ts)
    && pages(ts[|ts| - 1]).Success?
    && pages(ts[|ts| - 1]).value.next.None?
  }

  /** `ts` is a chain cut short: linked, and its last page fails. */
  ghost predicate BrokenChain(pages: string -> Result<Page, Error>, ts: seq<string>) {
    |ts| > 0 && Linked(pages, ts) && pages(ts[|ts| - 1]).Failure?
  }

  /** The videos of the pages of `ts`, in the order the pages are fetched. */
  function Gathered(pages: string -> Result<Page, Error>, ts: seq<string>): seq<Video> {
    if ts == [] then []
    else (if pages(ts[0]).Success? then pages(ts[0]).value.videos else []) + Gathered(pages, ts[1..])
  }

  /** The walk succeeds with `vs` after requesting `ts` if and only if `ts` is the
      complete chain from `token`, no longer than the fuel, and `vs` is its pages'
      videos concatenated in fetch order. One request is made per page. */
  lemma {:induction false} WalkCompletesIff(pages: string -> Result<Page, Error>, token: string,
                                            fuel: nat, vs: seq<Video>, ts: seq<string>)
    ensures Walk(pages, token, fuel) == Some(WalkResult(Success(vs), ts)) <==>
      CompleteChain(pages, ts) && ts[0] == token && |ts| <= fuel && vs == Gathered(pages, ts)
    decreases fuel
  {
    if fuel == 0 {
    } else if pages(token).Failure? {
      if |ts| > 1 && ts[0] == token { assert !Linked(pages, ts); }
    } else if pages(token).value.next.None? {
      var page := pages(token).value;
      if |ts| > 1 && ts[0] == token { assert !Linked(pages, ts); }
      if ts == [token] {
        assert Gathered(pages, ts) == page.videos + Gathered(pages, []);
        assert Gathered(pages, ts) == page.videos;
      }
    } else if |ts| <= 1 {
      var rest := Walk(pages, pages(token).value.next.value, fuel - 1);
      assert rest.Some? ==> |[token] + rest.value.requested| >= 2;
    } else {
      var page := pages(token).value;
      var next := page.next.value;
      var n := |page.videos|;
      assert ts == [ts[0]] + ts[1..];
      assert CompleteChain(pages, ts) && ts[0] == token <==>
             ts[0] == token && ts[1] == next && CompleteChain(pages, ts[1..]);
      if |vs| >= n && vs[..n] == page.videos {
        WalkCompletesIff(pages, next, fuel - 1, vs[n..], ts[1..]);
        assert vs == page.videos + vs[n..];
      }
      if Walk(pages, token, fuel) == Some(WalkResult(Success(vs), ts)) {
        var rest := Walk(pages, next, fuel - 1).value;
        assert vs == page.videos + rest.outcome.value;
        assert vs[..n] == page.videos;
      }
      if CompleteChain(pages, ts) && ts[0] == token && vs == Gathered(pages, ts) {
        assert vs == page.videos + Gathered(pages, ts[1..]);
        assert vs[..n] == page.videos;
      }
    }
  }

  /** The walk fails after requesting `ts` if and only if `ts` is a chain from
      `token` whose last page fails, no longer than the fuel; the failure is that
      page's, and whatever the earlier pages held is discarded. */
  lemma {:induction false} WalkAbortsIff(pages: string -> Result<Page, Error>, token: string,
                                         fuel: nat, e: Error, ts: seq<string>)
    ensures Walk(pages, token, fuel) == Some(WalkResult(Failure(e), ts)) <==>
      BrokenChain(pages, ts) && ts[0] == token && |ts| <= fuel && pages(ts[|ts| - 1]) == Failure(e)
    decreases fuel
  {
    if fuel == 0 {
    } else if pages(token).Failure? || pages(token).value.next.None? {
      if |ts| > 1 && ts[0] == token { assert !Linked(pages, ts); }
      if |ts| == 1 { assert ts == [ts[0]]; }
    } else if |ts| <= 1 {
      var rest := Walk(pages, pages(token).value.next.value, fuel - 1);
      assert rest.Some? ==> |[token] + rest.value.requested| >= 2;
    } else {
      var next := pages(token).value.next.value;
      WalkAbortsIff(pages, next, fuel - 1, e, ts[1..]);
      assert ts == [ts[0]] + ts[1..];
      assert ts[|ts| - 1] == ts[1..][|ts[1..]| - 1];
      assert BrokenChain(pages, ts) && ts[0] == token <==>
             ts[0] == token && ts[1] == next && BrokenChain(pages, ts[1..]);
    }
  }

  /** More fuel does not change a walk that already ends. */
  lemma {:induction false} WalkFuelIrrelevant(pages: string -> Result<Page, Error>, token: string,
                                              fuel: nat, more: nat)
    requires Walk(pages, token, fuel).Some?
    requires fuel <= more
    ensures Walk(pages, token, more) == Walk(pages, token, fuel)
    decreases fuel
  {
    if pages(token).Success? && pages(token).value.next.Some? {
      WalkFuelIrrelevant(pages, pages(token).value.next.value, fuel - 1, more - 1);
    }
  }

  /** Every record of a continuation page carries URLs derived from its id. */
  lemma ContinuationPageWellDerived(server: Server, token: string)
    requires ContinuationPage(server, token).Success?
    ensures forall v | v in ContinuationPage(server, token).value.videos :: WellDerived(v)
  {
    var list := Strict(Value(server.continuations[token]), CONTINUATION).value;
    VideosOfWellDerived(Member(list, CONTENTS).value);
  }

  /** Every record gathered along a chain of continuation pages carries URLs
      derived from its id. */
  lemma {:induction false} GatheredWellDerived(server: Server, ts: seq<string>)
    ensures forall v | v in Gathered(PagesOf(server), ts) :: WellDerived(v)
    decreases |ts|
  {
    if ts != [] {
      GatheredWellDerived(server, ts[1..]);
      if ContinuationPage(server, ts[0]).Success? {
        ContinuationPageWellDerived(server, ts[0]);
      }
    }
  }
}
