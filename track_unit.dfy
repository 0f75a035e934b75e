/**
  One track's unit of work: build the search text, look the track up on the
  video platforms (`search_multiple_platforms`, `_search_platform`), pick an
  entry with the candidate matcher and retrieve its audio (`download_track`).
  The search back end is an input: for a search string it answers with the
  entries found, or raises.
 */
module TrackUnit {
  import opened Wrappers
  import opened Text
  import opened Sanitizer
  import opened Matcher
  import opened Catalog
  import opened Retrieval

  /** The answer to a search: the entries found (empty when the answer has no
      entry list), or an exception. */
  datatype SearchAnswer = Found(entries: seq<Entry>) | SearchRaised

  /** The chosen video: the entry's fields, its watch address and the platform. */
  datatype Candidate = Candidate(
    id: string, title: Option<string>, duration: Option<int>, url: string, platform: string)

  const WatchPrefix := "https://www.youtube.com/watch?v="
  const SearchScheme := "ytsearch5"

  /** The search text of a track: its name, its artists joined by `, `, and its album. */
  function SearchQuery(t: TrackInfo): string {
    t.name + " " + Join(t.artists, ", ") + " " + t.album
  }

  /** The platforms searched, in order, as (name, search string). */
  function Platforms(query: string): seq<(string, string)> {
    [("YouTube", SearchScheme + ":" + query)]
  }

  /** `s.split(':', 1)[1]`: what follows the first colon; None where Python
      raises because there is no colon. */
  function AfterFirstColon(s: string): (r: Option<string>)
    ensures r.Some? <==> ':' in s
    ensures r.Some? ==> exists i :: 0 <= i < |s| && s[i] == ':' && ':' !in s[..i] && r.value == s[i + 1..]
  {
    if s == [] then None
    else if s[0] == ':' then
      assert s[..0] == [];
      Some(s[1..])
    else
      var r := AfterFirstColon(s[1..]);
      assert s == [s[0]] + s[1..];
      if r.Some? then
        var i :| 0 <= i < |s[1..]| && s[1..][i] == ':' && ':' !in s[1..][..i] && r.value == s[1..][i + 1..];
        assert s[..i + 1] == [s[0]] + s[1..][..i];
        assert s[i + 1] == ':' && s[i + 2..] == s[1..][i + 1..];
        r
      else r
  }

  /** A prefix without a colon is cut off exactly. */
  lemma {:induction false} AfterPrefixColon(p: string, q: string)
    requires ':' !in p
    ensures AfterFirstColon(p + ":" + q) == Some(q)
  {
    if p != [] {
      assert (p + ":" + q)[1..] == p[1..] + ":" + q;
      assert p == [p[0]] + p[1..];
      AfterPrefixColon(p[1..], q);
    }
  }

  function CandidateOf(e: Entry, platform: string): Candidate {
    Candidate(e.id, e.title, e.duration, WatchPrefix + e.id, platform)
  }

  /** `_search_platform`: None when the search raised, found nothing, or the
      search string has no colon; otherwise the entry the matcher picks for
      the text after the first colon. */
  function SearchPlatform(searchQuery: string, platform: string, search: string -> SearchAnswer)
    : (r: Option<Candidate>)
    ensures r.Some? <==> search(searchQuery).Found? && search(searchQuery).entries != [] && ':' in searchQuery
    ensures r.Some? ==>
      && Entry(r.value.id, r.value.title, r.value.duration) in search(searchQuery).entries
      && r.value.url == WatchPrefix + r.value.id && r.value.platform == platform
  {
    match search(searchQuery)
    case SearchRaised => None
    case Found(entries) =>
      if entries == [] then None
      else match AfterFirstColon(searchQuery)
        case None => None
        case Some(query) => Some(CandidateOf(FindBestMatch(query, entries).value, platform))
  }

  /** The loop of `search_multiple_platforms`: the first platform for which
      `searchOne` yields a candidate. */
  function FirstFound(platforms: seq<(string, string)>, searchOne: ((string, string)) -> Option<Candidate>)
    : (r: Option<Candidate>)
    ensures r.None? <==> forall i :: 0 <= i < |platforms| ==> searchOne(platforms[i]).None?
    ensures r.Some? ==>
      exists i :: (0 <= i < |platforms| && r == searchOne(platforms[i])
                   && forall j :: 0 <= j < i ==> searchOne(platforms[j]).None?)
  {
    if platforms == [] then None
    else
      var r := searchOne(platforms[0]);
      if r.Some? then r
      else
        var rest := FirstFound(platforms[1..], searchOne);
        assert forall i :: 1 <= i < |platforms| ==> platforms[i] == platforms[1..][i - 1];
        if rest.Some? then
          var i :| 0 <= i < |platforms[1..]| && rest == searchOne(platforms[1..][i])
            && forall j :: 0 <= j < i ==> searchOne(platforms[1..][j]).None?;
          assert rest == searchOne(platforms[i + 1]);
          rest
        else rest
  }

  /** `search_multiple_platforms`: each platform in turn, as (name, search string). */
  function SearchMultiplePlatforms(query: string, search: string -> SearchAnswer): Option<Candidate> {
    FirstFound(Platforms(query), (p: (string, string)) => SearchPlatform(p.1, p.0, search))
  }

  /** The single platform searched is asked for five results for the query
      itself, and the matcher sees the query unchanged. */
  lemma SearchSeesQuery(query: string, search: string -> SearchAnswer)
    ensures var answer := search(SearchScheme + ":" + query);
      SearchMultiplePlatforms(query, search)
      == if answer.Found? && answer.entries != []
         then Some(CandidateOf(FindBestMatch(query, answer.entries).value, "YouTube"))
         else None
  {
    assert forall i :: 0 <= i < |SearchScheme| ==> SearchScheme[i] != ':';
    AfterPrefixColon(SearchScheme, query);
    assert ':' in SearchScheme + ":" + query by {
      assert (SearchScheme + ":" + query)[|SearchScheme|] == ':';
    }
  }

  /** The file stem of a track: `folder/playlist/<sanitised "name - artists">`. */
  function OutputStem(downloadFolder: string, playlistName: string, t: TrackInfo): string {
    PathJoin(PathJoin(downloadFolder, playlistName), SanitizeFilename(t.name + " - " + Join(t.artists, ", ")))
  }

  /** A sanitised name holds no path separator. */
  lemma SanitizedHasNoSeparator(s: string)
    ensures '/' !in SanitizeFilename(s)
  {
  }

  /** Joining a relative name puts at most one separator between the parts. */
  lemma JoinRelative(dir: string, name: string)
    requires name == [] || name[0] != '/'
    ensures PathJoin(dir, name) == dir + name || PathJoin(dir, name) == dir + "/" + name
  {
  }

  /** The stem is the playlist folder, at most one separator, and a single
      path component of at most 200 characters: the track's file lands
      directly inside the playlist folder. */
  lemma OutputStemInPlaylistFolder(downloadFolder: string, playlistName: string, t: TrackInfo)
    ensures var dir := PathJoin(downloadFolder, playlistName);
            var name := SanitizeFilename(t.name + " - " + Join(t.artists, ", "));
            && '/' !in name && |name| <= MaxNameLength
            && (OutputStem(downloadFolder, playlistName, t) == dir + name
                || OutputStem(downloadFolder, playlistName, t) == dir + "/" + name)
  {
    var dir := PathJoin(downloadFolder, playlistName);
    var name := SanitizeFilename(t.name + " - " + Join(t.artists, ", "));
    SanitizedHasNoSeparator(t.name + " - " + Join(t.artists, ", "));
    assert name == [] || name[0] != '/';
    JoinRelative(dir, name);
  }

  /** `download_track`: False, with nothing written and nothing requested, when
      no platform yields a candidate; otherwise the audio retrieval for the
      candidate's address into the track's stem decides. */
  method DownloadTrack(t: TrackInfo, playlistName: string, downloadFolder: string,
                       fs0: set<string>, search: string -> SearchAnswer,
                       backend: (string, Request) -> Attempt)
    returns (ok: bool, fs: set<string>, requests: seq<Request>)
    ensures SearchMultiplePlatforms(SearchQuery(t), search).None? ==> !ok && fs == fs0 && requests == []
    ensures SearchMultiplePlatforms(SearchQuery(t), search).Some? ==>
      Outcome(ok, fs, requests)
      == AudioOutcome(SearchMultiplePlatforms(SearchQuery(t), search).value.url,
                      OutputStem(downloadFolder, playlistName, t), fs0, backend)
  {
    var found := SearchMultiplePlatforms(SearchQuery(t), search);
    if found.None? {
      return false, fs0, [];
    }
    var stem := OutputStem(downloadFolder, playlistName, t);
    ok, fs, requests := DownloadAudio(found.value.url, stem, fs0, backend);
  }
}
