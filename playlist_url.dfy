/**
  Playlist-ID extraction (`extract_playlist_id`). Three regular expressions are
  searched for in order and the first that matches gives the ID:

    1. `spotify\.com/playlist/([a-zA-Z0-9]+)`
    2. `spotify\.com/playlist/([a-zA-Z0-9]+)\?`
    3. `playlist/([a-zA-Z0-9]+)`

  `re.search` finds the leftmost position where a pattern matches, and the
  greedy group then takes the longest run of ASCII letters and digits there.
 */
module PlaylistUrl {
  import opened Wrappers
  import opened Text

  const CatalogPrefix := "spotify.com/playlist/"
  const PathPrefix := "playlist/"

  /** The three patterns, as a literal prefix followed by a run of ASCII
      letters and digits, optionally followed by a literal `?`. */
  datatype Pattern = Run(prefix: string) | RunThenQuestionMark(prefix: string)

  const Patterns: seq<Pattern> :=
    [Run(CatalogPrefix), RunThenQuestionMark(CatalogPrefix), Run(PathPrefix)]

  /** The end of the longest run of ASCII letters and digits starting at `j`. */
  function RunEnd(url: string, j: nat): (e: nat)
    requires j <= |url|
    ensures j <= e <= |url|
    ensures forall k :: j <= k < e ==> IsAsciiAlnum(url[k])
    ensures e == |url| || !IsAsciiAlnum(url[e])
    decreases |url| - j
  {
    if j < |url| && IsAsciiAlnum(url[j]) then RunEnd(url, j + 1) else j
  }

  /** The prefix occurs at `i` and is followed by at least one letter or digit. */
  predicate RunMatchesAt(url: string, prefix: string, i: nat) {
    OccursAt(url, prefix, i) && i + |prefix| < |url| && IsAsciiAlnum(url[i + |prefix|])
  }

  /** `p` matches in `url` starting at position `i`. For the second shape only
      the longest run can be followed by `?`, since a shorter one is followed
      by a letter or digit. */
  predicate MatchesAt(url: string, p: Pattern, i: nat) {
    RunMatchesAt(url, p.prefix, i)
    && (p.RunThenQuestionMark? ==>
          var e := RunEnd(url, i + |p.prefix|); e < |url| && url[e] == '?')
  }

  /** The leftmost position at or after `from` where `p` matches. */
  function FirstMatch(url: string, p: Pattern, from: nat): (r: Option<nat>)
    requires from <= |url|
    ensures r.Some? ==> from <= r.value < |url| && MatchesAt(url, p, r.value)
    ensures r.Some? ==> forall j :: from <= j < r.value ==> !MatchesAt(url, p, j)
    ensures r.None? ==> forall j :: from <= j ==> !MatchesAt(url, p, j)
    decreases |url| - from
  {
    if from == |url| then None
    else if MatchesAt(url, p, from) then Some(from)
    else FirstMatch(url, p, from + 1)
  }

  /** `re.search(p, url).group(1)`, or None when the pattern does not match. */
  function Search(url: string, p: Pattern): Option<string> {
    match FirstMatch(url, p, 0)
    case None => None
    case Some(i) => Some(url[i + |p.prefix|..RunEnd(url, i + |p.prefix|)])
  }

  predicate AllAlnum(s: string) {
    forall i :: 0 <= i < |s| ==> IsAsciiAlnum(s[i])
  }

  /** `id` stands in `url` at position `k`, right after `prefix`, and is a
      longest run of ASCII letters and digits there. */
  predicate CapturedAt(url: string, prefix: string, id: string, k: nat) {
    |prefix| <= k && OccursAt(url, prefix, k - |prefix|)
    && OccursAt(url, id, k)
    && (k + |id| == |url| || !IsAsciiAlnum(url[k + |id|]))
  }

  /** `id` is a non-empty run of ASCII letters and digits that directly
      follows `prefix` somewhere in `url` and cannot be extended. */
  ghost predicate IsCaptureAfter(url: string, prefix: string, id: string) {
    id != [] && AllAlnum(id) && exists k: nat :: CapturedAt(url, prefix, id, k)
  }

  /** `extract_playlist_id`: the capture of the first pattern that matches. */
  function ExtractPlaylistId(url: string): Option<string> {
    if Search(url, Patterns[0]).Some? then Search(url, Patterns[0])
    else if Search(url, Patterns[1]).Some? then Search(url, Patterns[1])
    else Search(url, Patterns[2])
  }

  /** The extracted ID is None exactly when `playlist/` is nowhere followed by
      a letter or digit; otherwise it is a non-empty run of ASCII letters and
      digits that directly follows `playlist/` in the URL and cannot be
      extended. */
  lemma ExtractPlaylistIdSpec(url: string)
    ensures ExtractPlaylistId(url).None? <==> forall i: nat :: !RunMatchesAt(url, PathPrefix, i)
    ensures ExtractPlaylistId(url).Some? ==> IsCaptureAfter(url, PathPrefix, ExtractPlaylistId(url).value)
  {
    QuestionMarkPatternNeverDecides(url);
    CaptureFollowsSegment(url, Patterns[0]);
    CaptureFollowsSegment(url, Patterns[2]);
    CatalogMatchIsPathMatch(url);
    if Search(url, Patterns[0]).Some? {
      CatalogCaptureFollowsPath(url);
    }
  }

  /** Which `playlist/` the ID follows: the one in the leftmost match of
      `spotify.com/playlist/` and a letter or digit when there is one, and
      otherwise the leftmost `playlist/` followed by a letter or digit. The
      ID is then the whole run of letters and digits there. */
  lemma ExtractPlaylistIdIsLeftmost(url: string, i: nat)
    ensures RunMatchesAt(url, CatalogPrefix, i) && (forall j: nat :: j < i ==> !RunMatchesAt(url, CatalogPrefix, j))
            ==> ExtractPlaylistId(url) == Some(url[i + |CatalogPrefix|..RunEnd(url, i + |CatalogPrefix|)])
    ensures && (forall j: nat :: !RunMatchesAt(url, CatalogPrefix, j))
            && RunMatchesAt(url, PathPrefix, i) && (forall j: nat :: j < i ==> !RunMatchesAt(url, PathPrefix, j))
            ==> ExtractPlaylistId(url) == Some(url[i + |PathPrefix|..RunEnd(url, i + |PathPrefix|)])
  {
    QuestionMarkPatternNeverDecides(url);
    LeftmostRunMatch(url, Patterns[0], i);
    LeftmostRunMatch(url, Patterns[2], i);
  }

  /** For a plain-run pattern, the leftmost position where its prefix is
      followed by a letter or digit is where `re.search` matches. */
  lemma LeftmostRunMatch(url: string, p: Pattern, i: nat)
    requires p.Run?
    ensures RunMatchesAt(url, p.prefix, i) && (forall j: nat :: j < i ==> !RunMatchesAt(url, p.prefix, j))
            ==> FirstMatch(url, p, 0) == Some(i)
  {
    if RunMatchesAt(url, p.prefix, i) && (forall j: nat :: j < i ==> !RunMatchesAt(url, p.prefix, j)) {
      assert MatchesAt(url, p, i);
      var r := FirstMatch(url, p, 0);
      assert r.Some?;
      assert !(r.value < i);
      assert !(i < r.value);
    }
  }

  /** What the first pattern captures also directly follows `playlist/`. */
  lemma CatalogCaptureFollowsPath(url: string)
    requires Search(url, Patterns[0]).Some?
    ensures IsCaptureAfter(url, PathPrefix, Search(url, Patterns[0]).value)
  {
    CaptureFollowsSegment(url, Patterns[0]);
    var id := Search(url, Patterns[0]).value;
    var k: nat :| CapturedAt(url, CatalogPrefix, id, k);
    CatalogCaptureIsPathCapture(url, id, k);
  }

  /** A capture right after `spotify.com/playlist/` is one right after `playlist/`. */
  lemma CatalogCaptureIsPathCapture(url: string, id: string, k: nat)
    requires CapturedAt(url, CatalogPrefix, id, k)
    ensures CapturedAt(url, PathPrefix, id, k)
  {
    CatalogPrefixEndsInPathPrefix(url, k - |CatalogPrefix|);
  }

  lemma CatalogPrefixEndsInPathPrefix(url: string, i: nat)
    requires OccursAt(url, CatalogPrefix, i)
    ensures OccursAt(url, PathPrefix, i + 12)
  {
    assert CatalogPrefix[12..] == PathPrefix;
    assert url[i + 12..i + 21] == url[i..i + 21][12..];
  }

  /** Where `spotify.com/playlist/` matches, `playlist/` matches 12 characters on. */
  lemma CatalogMatchIsPathMatch(url: string)
    ensures forall i: nat :: RunMatchesAt(url, CatalogPrefix, i) ==> RunMatchesAt(url, PathPrefix, i + 12)
  {
    forall i: nat | RunMatchesAt(url, CatalogPrefix, i)
      ensures RunMatchesAt(url, PathPrefix, i + 12)
    {
      CatalogPrefixEndsInPathPrefix(url, i);
    }
  }

  /** What a plain-run pattern captures is a maximal, non-empty run right after its prefix. */
  lemma CaptureFollowsSegment(url: string, p: Pattern)
    requires p.Run?
    ensures Search(url, p).None? <==> forall i: nat :: !RunMatchesAt(url, p.prefix, i)
    ensures Search(url, p).Some? ==> IsCaptureAfter(url, p.prefix, Search(url, p).value)
  {
    assert forall i: nat :: MatchesAt(url, p, i) <==> RunMatchesAt(url, p.prefix, i);
    match FirstMatch(url, p, 0)
    case None =>
    case Some(i) =>
      var k := i + |p.prefix|;
      var e := RunEnd(url, k);
      var id := url[k..e];
      assert Search(url, p) == Some(id);
      assert OccursAt(url, id, k);
      assert CapturedAt(url, p.prefix, id, k);
  }

  /** The second pattern never decides the result: wherever it matches, the
      first pattern matches too and has already returned. */
  lemma QuestionMarkPatternNeverDecides(url: string)
    ensures Search(url, Patterns[1]).Some? ==> Search(url, Patterns[0]).Some?
    ensures ExtractPlaylistId(url)
            == if Search(url, Patterns[0]).Some? then Search(url, Patterns[0]) else Search(url, Patterns[2])
  {
    if Search(url, Patterns[1]).Some? {
      var i := FirstMatch(url, Patterns[1], 0).value;
      assert MatchesAt(url, Patterns[0], i);
    }
  }

  /** The address shape the graphical front end insists on. */
  const WebPlaylistPrefix := "https://open.spotify.com/playlist/"

  /** An address that passes the front end's check and has a letter or digit
      right after the prefix always yields an ID. */
  lemma WebAddressYieldsId(url: string)
    requires StartsWith(url, WebPlaylistPrefix)
    requires |url| > |WebPlaylistPrefix| && IsAsciiAlnum(url[|WebPlaylistPrefix|])
    ensures ExtractPlaylistId(url).Some?
  {
    assert url[13..34] == WebPlaylistPrefix[13..];
    assert WebPlaylistPrefix[13..] == CatalogPrefix;
    assert MatchesAt(url, Patterns[0], 13);
  }
}
