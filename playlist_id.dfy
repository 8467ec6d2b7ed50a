/** Resolution of the caller's input to a playlist identifier: the regular
    expression `/[?&]list=([^#\&\?]+)|^([a-zA-Z0-9-_]+)$/` written out as a scan.
    Its first alternative is tried at every position from left to right; the
    second can only match at position 0 and only the whole input. */
module PlaylistId {
  import opened Wrappers
  import opened Text
  import opened Errors

  /** A character that ends the `list=` value: `#`, `&` or `?`. */
  predicate IsStop(c: char) { c == '#' || c == '&' || c == '?' }

  /** `[a-zA-Z0-9-_]`: the hyphen after the digit range is a literal. */
  predicate IsIdChar(c: char) {
    ('a' <= c <= 'z') || ('A' <= c <= 'Z') || ('0' <= c <= '9') || c == '-' || c == '_'
  }

  /** `s` is a whole-string match of `[a-zA-Z0-9-_]+`. */
  predicate IsBareId(s: string) {
    s != [] && forall c | c in s :: IsIdChar(c)
  }

  /** The first alternative matches at position `p`: `?` or `&`, then `list=`,
      then at least one character that is not a stop character. */
  predicate ListAt(s: string, p: nat) {
    p + 6 < |s| && (s[p] == '?' || s[p] == '&') && s[p + 1..p + 6] == "list=" && !IsStop(s[p + 6])
  }

  /** The greedy capture `([^#\&\?]+)` starting at `i`. */
  function RunFrom(s: string, i: nat): string
    requires i <= |s|
  {
    s[i..Find(s, i, IsStop)]
  }

  /** The capture of the leftmost match of the first alternative at or after `p`. */
  function ListValueFrom(s: string, p: nat): Option<string>
    decreases |s| - p
  {
    if p + 6 >= |s| then None
    else if ListAt(s, p) then Some(RunFrom(s, p + 6))
    else ListValueFrom(s, p + 1)
  }

  /** `test[1] || test[2]` of the source, or its `Invalid playlist URL or ID` error. */
  function Resolve(s: string): (r: Result<string, Error>)
    ensures r.Failure? ==> r.error == InvalidInput
    ensures r.Success? ==> r.value != [] && forall c | c in r.value :: !IsStop(c)
  {
    match ListValueFrom(s, 0)
    case Some(id) =>
      ListValueFromSound(s, 0);
      Success(id)
    case None =>
      if IsBareId(s) then Success(s) else Failure(InvalidInput)
  }

  lemma {:induction false} ListValueFromSound(s: string, p: nat)
    requires ListValueFrom(s, p).Some?
    ensures ListValueFrom(s, p).value != []
    ensures forall c | c in ListValueFrom(s, p).value :: !IsStop(c)
    decreases |s| - p
  {
    if !ListAt(s, p) {
      ListValueFromSound(s, p + 1);
    } else {
      var k := Find(s, p + 6, IsStop);
      assert s[p + 6..k][0] == s[p + 6];
      forall c | c in s[p + 6..k] ensures !IsStop(c) {
        var m :| 0 <= m < k - (p + 6) && s[p + 6..k][m] == c;
        assert s[p + 6 + m] == c;
      }
    }
  }

  /** The scan finds the LEFTMOST match of the first alternative, and returns its
      maximal capture; it finds nothing exactly when there is no match at all. */
  lemma {:induction false} ListValueFromLeftmost(s: string, p0: nat)
    ensures ListValueFrom(s, p0).None? <==> forall p: nat :: p0 <= p ==> !ListAt(s, p)
    ensures ListValueFrom(s, p0).Some? ==>
      exists p: nat :: p0 <= p && ListAt(s, p)
        && (forall q: nat :: p0 <= q < p ==> !ListAt(s, q))
        && ListValueFrom(s, p0).value == RunFrom(s, p + 6)
    decreases |s| - p0
  {
    if p0 + 6 >= |s| {
    } else if ListAt(s, p0) {
      assert ListValueFrom(s, p0).value == RunFrom(s, p0 + 6);
    } else {
      ListValueFromLeftmost(s, p0 + 1);
      if ListValueFrom(s, p0).Some? {
        var p: nat :| p0 + 1 <= p && ListAt(s, p)
          && (forall q: nat :: p0 + 1 <= q < p ==> !ListAt(s, q))
          && ListValueFrom(s, p0 + 1).value == RunFrom(s, p + 6);
        assert forall q: nat :: p0 <= q < p ==> !ListAt(s, q);
      } else {
        forall p: nat | p0 <= p ensures !ListAt(s, p) {
          if p != p0 { assert p0 + 1 <= p; }
        }
      }
    }
  }

  /** A bare identifier resolves to itself. */
  lemma BareIdResolvesToItself(s: string)
    requires IsBareId(s)
    ensures Resolve(s) == Success(s)
  {
    forall p: nat ensures !ListAt(s, p) {
      if p < |s| { assert s[p] in s; }
    }
    ListValueFromLeftmost(s, 0);
  }

  /** Input that has no `list=` parameter and is not a bare identifier is
      rejected; in particular the empty string is. */
  lemma RejectsOtherInput(s: string)
    requires forall p: nat :: !ListAt(s, p)
    requires !IsBareId(s)
    ensures Resolve(s) == Failure(InvalidInput)
  {
    ListValueFromLeftmost(s, 0);
  }

  /** Input with a `list=` match resolves to the maximal capture after the
      leftmost match, whether or not it is also a bare identifier. */
  lemma ResolvesLeftmostList(s: string, p: nat)
    requires ListAt(s, p)
    requires forall q: nat :: q < p ==> !ListAt(s, q)
    ensures Resolve(s) == Success(RunFrom(s, p + 6))
  {
    ListValueFromLeftmost(s, 0);
    var p': nat :| ListAt(s, p') && (forall q: nat :: q < p' ==> !ListAt(s, q))
      && ListValueFrom(s, 0).value == RunFrom(s, p' + 6);
    assert p' == p;
  }

  /** Only input with no `list=` match that is not a bare identifier is
      rejected: the converse of `RejectsOtherInput`. */
  lemma RejectedInputMatchesNothing(s: string)
    requires Resolve(s).Failure?
    ensures forall p: nat :: !ListAt(s, p)
    ensures !IsBareId(s)
  {
    ListValueFromLeftmost(s, 0);
  }

  const PLAYLIST_URL_PREFIX := "https://youtube.com/playlist?list="

  /** The playlist URL the scraper builds (`baseURL + '/playlist?list=' + id`)
      resolves back to the identifier, when the identifier is a possible
      `list=` value. */
  lemma PlaylistUrlRoundTrip(id: string)
    requires id != [] && forall c | c in id :: !IsStop(c)
    ensures Resolve(PLAYLIST_URL_PREFIX + id) == Success(id)
  {
    var s := PLAYLIST_URL_PREFIX + id;
    var n := |PLAYLIST_URL_PREFIX|;
    assert n == 34;
    assert s[n] == id[0] && id[0] in id;
    assert ListAt(s, 28);
    forall q: nat | q < 28 ensures !ListAt(s, q) {
      assert s[q] == PLAYLIST_URL_PREFIX[q];
    }
    forall m | n <= m < |s| ensures !IsStop(s[m]) {
      assert s[m] == id[m - n];
    }
    assert Find(s, n, IsStop) == |s|;
    assert s[n..] == id;
    assert RunFrom(s, n) == id;
    ListValueFromLeftmost(s, 0);
    var p: nat :| ListAt(s, p) && (forall q: nat :: q < p ==> !ListAt(s, q))
      && ListValueFrom(s, 0).value == RunFrom(s, p + 6);
    assert p == 28;
  }
}
