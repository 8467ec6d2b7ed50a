/** `parseVideosFromJson`: maps an array of raw playlist entries to video records,
    silently skipping each entry whose fields cannot be read and keeping the order
    of the rest. */
module Videos {
  import opened Wrappers
  import opened Text
  import opened JsValue
  import opened Errors

  const BASE_URL := "https://youtube.com"

  const RENDERER := Key("playlistVideoRenderer")
  const TITLE_TEXT := [Key("title"), Key("runs"), Index(0), Key("text")]
  const VIDEO_ID := Key("videoId")
  const LENGTH_TEXT := [Key("lengthText"), Key("simpleText")]
  const LENGTH_SECONDS := Key("lengthSeconds")
  const BYLINE_RUN := [Key("shortBylineText"), Key("runs"), Index(0)]
  const BYLINE_NAME := BYLINE_RUN + [Key("text")]
  const BYLINE_URL := BYLINE_RUN + [Key("navigationEndpoint"), Key("commandMetadata"),
                                    Key("webCommandMetadata"), Key("url")]

  datatype Author = Author(name: Js, url: string)

  /** A video record. Fields read straight from the entry keep their JavaScript
      value, `undefined` included: only an absent intermediate object throws. */
  datatype Video = Video(
    title: Js,
    url: string,
    id: Js,
    length: Js,
    milisLength: Num,
    thumbnailUrl: string,
    author: Author)

  function WatchUrl(id: Js): string {
    BASE_URL + "/watch?v=" + ToJsString(id)
  }

  function ThumbnailUrl(id: Js): string {
    "https://i.ytimg.com/vi/" + ToJsString(id) + "/hqdefault.jpg"
  }

  /** The watch URL and the thumbnail URL of a video both name its id. */
  predicate WellDerived(v: Video) {
    v.url == WatchUrl(v.id) && v.thumbnailUrl == ThumbnailUrl(v.id)
  }

  /** Every path the record literal reads through with plain `.` access. */
  predicate Extractable(r: Js) {
    && Strict(r, TITLE_TEXT).Some?
    && Strict(r, LENGTH_TEXT).Some?
    && Strict(r, BYLINE_NAME).Some?
    && Strict(r, BYLINE_URL).Some?
  }

  /** The body of the per-entry `try`: the record built from one renderer value,
      or `None` where building it throws. */
  function Entry(r: Js): (e: Option<Video>)
    ensures e.Some? <==> Extractable(r)
    ensures e.Some? ==>
      && WellDerived(e.value)
      && e.value.id == Property(r.json, VIDEO_ID)
      && e.value.milisLength == Times(ToNumber(Property(r.json, LENGTH_SECONDS)), 1000)
  {
    var title :- Strict(r, TITLE_TEXT);
    // `r` is an object once `r.title` has been read, so these two never throw
    var id := Property(r.json, VIDEO_ID);
    var length :- Strict(r, LENGTH_TEXT);
    var seconds := Property(r.json, LENGTH_SECONDS);
    var name :- Strict(r, BYLINE_NAME);
    var authorUrl :- Strict(r, BYLINE_URL);
    Some(Video(title, WatchUrl(id), id, length, Times(ToNumber(seconds), 1000),
               ThumbnailUrl(id), Author(name, BASE_URL + ToJsString(authorUrl))))
  }

  /** `videoDataArray.map(v => v.playlistVideoRenderer)`, which throws on a `null`
      element. */
  function Renderers(items: seq<Json>): (rs: seq<Js>)
    requires Null !in items
    ensures |rs| == |items|
  {
    seq(|items|, i requires 0 <= i < |items| => Property(items[i], RENDERER))
  }

  /** The records of the entries that do not throw, in entry order. */
  function Survivors(rs: seq<Js>): (vs: seq<Video>)
    ensures |vs| <= |rs|
  {
    if rs == [] then []
    else
      Survivors(rs[..|rs| - 1]) +
      match Entry(rs[|rs| - 1])
      case Some(v) => [v]
      case None => []
  }

  /** What `parseVideosFromJson` returns or throws. */
  function VideosOf(data: Js): (r: Result<seq<Video>, Error>)
    ensures r.Success? <==> data.Value? && data.json.Arr? && Null !in data.json.items
    ensures r.Failure? ==> r.error == VideoParseFailed
  {
    if data.Value? && data.json.Arr? && Null !in data.json.items
    then Success(Survivors(Renderers(data.json.items)))
    else Failure(VideoParseFailed)
  }

  /** The loop of `parseVideosFromJson`, pushing each record that builds. */
  method ParseVideosFromJson(data: Js) returns (r: Result<seq<Video>, Error>)
    ensures r == VideosOf(data)
  {
    if !(data.Value? && data.json.Arr?) || Null in data.json.items {
      return Failure(VideoParseFailed);
    }
    var renderers := Renderers(data.json.items);
    var videos: seq<Video> := [];
    var k := 0;
    while k < |renderers|
      invariant 0 <= k <= |renderers|
      invariant videos == Survivors(renderers[..k])
    {
      assert renderers[..k + 1][..k] == renderers[..k];
      var e := Entry(renderers[k]);
      if e.Some? {
        videos := videos + [e.value];
      }
      k := k + 1;
    }
    assert renderers[..k] == renderers;
    return Success(videos);
  }

  /** Entries contribute independently: the records of a concatenation are the
      concatenation of the records. */
  lemma {:induction false} SurvivorsAppend(a: seq<Js>, b: seq<Js>)
    ensures Survivors(a + b) == Survivors(a) + Survivors(b)
    decreases |b|
  {
    if b == [] {
      assert a + b == a;
    } else {
      var n := |b| - 1;
      assert (a + b)[..|a + b| - 1] == a + b[..n];
      assert (a + b)[|a + b| - 1] == b[n];
      SurvivorsAppend(a, b[..n]);
    }
  }

  /** An entry that cannot be read is dropped without disturbing the entries
      before or after it; one that can be read contributes exactly its record. */
  lemma EntryContributesItself(a: seq<Js>, x: Js, b: seq<Js>)
    ensures Survivors(a + [x] + b) ==
      Survivors(a) + (if Entry(x).Some? then [Entry(x).value] else []) + Survivors(b)
  {
    SurvivorsAppend(a + [x], b);
    SurvivorsAppend(a, [x]);
    assert [x][..0] == [];
  }

  /** A `null` entry makes the whole batch throw: the renderer mapping runs
      outside the per-entry `try`. */
  lemma NullEntryAbortsBatch(a: seq<Json>, b: seq<Json>)
    ensures VideosOf(Value(Arr(a + [Null] + b))) == Failure(VideoParseFailed)
  {
    assert (a + [Null] + b)[|a|] == Null;
  }

  /** Any other entry whose record cannot be built is skipped: the batch maps as
      if the entry were not there. */
  lemma UnbuildableEntrySkipped(a: seq<Json>, x: Json, b: seq<Json>)
    requires x != Null && !Extractable(Property(x, RENDERER))
    ensures VideosOf(Value(Arr(a + [x] + b))) == VideosOf(Value(Arr(a + b)))
  {
    if Null in a + b {
      assert Null in a + [x] + b by {
        var i :| 0 <= i < |a + b| && (a + b)[i] == Null;
        if i < |a| { assert (a + [x] + b)[i] == Null; } else { assert (a + [x] + b)[i + 1] == Null; }
      }
    } else {
      assert Null !in a && Null !in b by {
        forall i | 0 <= i < |a| ensures a[i] != Null { assert (a + b)[i] == a[i]; }
        forall i | 0 <= i < |b| ensures b[i] != Null { assert (a + b)[|a| + i] == b[i]; }
      }
      var r := Property(x, RENDERER);
      assert Entry(r).None?;
      SkippedRenderer(Renderers(a), r, Renderers(b));
      assert Renderers([x]) == [r];
      RenderersAppend(a, [x]);
      RenderersAppend(a + [x], b);
      RenderersAppend(a, b);
    }
  }

  /** A renderer whose record cannot be built leaves the batch as if it were
      absent. */
  lemma SkippedRenderer(ra: seq<Js>, r: Js, rb: seq<Js>)
    requires Entry(r).None?
    ensures Survivors(ra + [r] + rb) == Survivors(ra + rb)
  {
    EntryContributesItself(ra, r, rb);
    SurvivorsAppend(ra, rb);
    assert Survivors(ra) + [] == Survivors(ra);
  }

  /** The renderer mapping distributes over concatenation. */
  lemma RenderersAppend(a: seq<Json>, b: seq<Json>)
    requires Null !in a && Null !in b
    ensures Null !in a + b
    ensures Renderers(a + b) == Renderers(a) + Renderers(b)
  {
    assert forall i | 0 <= i < |a + b| :: (a + b)[i] == if i < |a| then a[i] else b[i - |a|];
  }

  /** The positions of the entries that produce a record, in increasing order. */
  function Kept(rs: seq<Js>): seq<nat> {
    if rs == [] then []
    else Kept(rs[..|rs| - 1]) + if Entry(rs[|rs| - 1]).Some? then [|rs| - 1] else []
  }

  /** The output is exactly the in-order subsequence of the entries that build:
      the k-th record comes from the k-th such entry. */
  lemma {:induction false} SurvivorsAreKeptEntries(rs: seq<Js>)
    ensures |Survivors(rs)| == |Kept(rs)|
    ensures forall k :: 0 <= k < |Kept(rs)| ==>
      Kept(rs)[k] < |rs| && Entry(rs[Kept(rs)[k]]) == Some(Survivors(rs)[k])
  {
    if rs != [] {
      var n := |rs| - 1;
      var init := rs[..n];
      SurvivorsAreKeptEntries(init);
      var ks, vs := Kept(rs), Survivors(rs);
      forall k | 0 <= k < |ks| ensures ks[k] < |rs| && Entry(rs[ks[k]]) == Some(vs[k]) {
        if k < |Kept(init)| {
          assert ks[k] == Kept(init)[k] && vs[k] == Survivors(init)[k];
          assert rs[ks[k]] == init[ks[k]];
        }
      }
    }
  }

  /** The kept positions are in range and strictly increasing. */
  lemma {:induction false} KeptIsIncreasing(rs: seq<Js>)
    ensures forall k :: 0 <= k < |Kept(rs)| ==> Kept(rs)[k] < |rs|
    ensures forall k, l :: 0 <= k < l < |Kept(rs)| ==> Kept(rs)[k] < Kept(rs)[l]
  {
    if rs != [] {
      var n := |rs| - 1;
      var init := rs[..n];
      KeptIsIncreasing(init);
      var ks, old_ks := Kept(rs), Kept(init);
      assert forall k :: 0 <= k < |old_ks| ==> ks[k] == old_ks[k];
      assert |ks| == |old_ks| || (|ks| == |old_ks| + 1 && ks[|old_ks|] == n);
    }
  }

  /** A position is kept if and only if its entry builds a record. */
  lemma {:induction false} KeptIffBuilds(rs: seq<Js>)
    ensures forall i :: 0 <= i < |rs| ==> (i in Kept(rs) <==> Entry(rs[i]).Some?)
  {
    if rs != [] {
      var n := |rs| - 1;
      var init := rs[..n];
      KeptIffBuilds(init);
      KeptIsIncreasing(init);
      var ks, old_ks := Kept(rs), Kept(init);
      assert n !in old_ks;
      forall i | 0 <= i < |rs| ensures i in ks <==> Entry(rs[i]).Some? {
        if i < n {
          assert rs[i] == init[i];
          assert i in ks <==> i in old_ks;
        }
      }
    }
  }

  /** Every record of a batch carries URLs derived from its own id. */
  lemma {:induction false} SurvivorsWellDerived(rs: seq<Js>)
    ensures forall v | v in Survivors(rs) :: WellDerived(v)
  {
    if rs != [] {
      SurvivorsWellDerived(rs[..|rs| - 1]);
    }
  }

  /** Every record `parseVideosFromJson` returns carries URLs derived from its id. */
  lemma VideosOfWellDerived(data: Js)
    requires VideosOf(data).Success?
    ensures forall v | v in VideosOf(data).value :: WellDerived(v)
  {
    SurvivorsWellDerived(Renderers(data.json.items));
  }

  /** An integer `lengthSeconds`, given as a number or as a string of digits,
      becomes that many thousand milliseconds. */
  lemma EntryMillis(r: Js, seconds: nat)
    requires Entry(r).Some?
    requires Property(r.json, LENGTH_SECONDS) == Value(Number(seconds))
          || Property(r.json, LENGTH_SECONDS) == Value(Str(NatToDecimal(seconds)))
    ensures Entry(r).value.milisLength == Finite(seconds * 1000)
  {
    DecimalRoundTrip(seconds);
  }
}
