/**
  The catalog side of the downloader: `get_playlist_info` and the paginated
  `get_playlist_tracks`. The catalog service itself is an input: whether a
  connection exists, what a playlist lookup answers, and the sequence of page
  answers that successive `playlist_tracks` requests receive.
 */
module Catalog {
  import opened Wrappers
  import opened PlaylistUrl

  datatype TrackInfo = TrackInfo(
    name: string, artists: seq<string>, album: string,
    durationMs: int, externalUrl: string, id: string)

  datatype PlaylistInfo = PlaylistInfo(
    id: string, name: string, description: string, tracksCount: int, owner: string)

  /** What the catalog answers for a playlist; a missing description is None. */
  datatype PlaylistRecord = PlaylistRecord(
    name: string, description: Option<string>, total: int, ownerName: string)

  /** One entry of a page; `track` is None for an entry without a playable track. */
  datatype Item = Item(track: Option<TrackInfo>)

  /** The answer to one `playlist_tracks` request: a page of entries, or an exception. */
  datatype PageResponse = Page(items: seq<Item>) | Failed

  /** The page size and the step of the offset. */
  const PageSize := 100

  /** `get_playlist_info`: None without a connection, for an address with no ID,
      or when the lookup raises; otherwise the record under the extracted ID. */
  function GetPlaylistInfo(connected: bool, url: string, lookup: string -> Option<PlaylistRecord>)
    : (r: Option<PlaylistInfo>)
    ensures r.Some? <==> connected && ExtractPlaylistId(url).Some? && lookup(ExtractPlaylistId(url).value).Some?
    ensures r.Some? ==> ExtractPlaylistId(url) == Some(r.value.id)
    ensures r.Some? ==>
      var rec := lookup(r.value.id).value;
      && r.value.name == rec.name && r.value.tracksCount == rec.total && r.value.owner == rec.ownerName
      && r.value.description == if rec.description.Some? then rec.description.value else ""
  {
    if !connected then None
    else match ExtractPlaylistId(url)
      case None => None
      case Some(id) =>
        match lookup(id)
        case None => None
        case Some(rec) =>
          Some(PlaylistInfo(id, rec.name,
                            match rec.description case None => "" case Some(d) => d,
                            rec.total, rec.ownerName))
  }

  /** The answer to the `n`-th request; past the end of the given answers the
      catalog returns empty pages. */
  function PageAt(pages: seq<PageResponse>, n: nat): PageResponse {
    if n < |pages| then pages[n] else Page([])
  }

  /** The loop requests another page after this answer: it did not raise and
      held at least a full page of entries. */
  predicate Continues(r: PageResponse) {
    r.Page? && |r.items| >= PageSize
  }

  /** The tracks of a list of entries, skipping the entries without one. */
  function KeptTracks(items: seq<Item>): seq<TrackInfo> {
    if items == [] then []
    else
      var keep := KeptTracks(items[..|items| - 1]);
      match items[|items| - 1].track
      case None => keep
      case Some(t) => keep + [t]
  }

  /** The tracks kept are exactly those of the entries that carry one, and
      there are no more of them than entries. */
  lemma {:induction false} KeptTracksMembers(items: seq<Item>)
    ensures |KeptTracks(items)| <= |items|
    ensures forall t :: t in KeptTracks(items) <==> Item(Some(t)) in items
  {
    if items != [] {
      var init := items[..|items| - 1];
      assert items == init + [items[|items| - 1]];
      KeptTracksMembers(init);
    }
  }

  /** The tracks collected from the first `n` answers. */
  function CollectedTracks(pages: seq<PageResponse>, n: nat): seq<TrackInfo> {
    if n == 0 then []
    else
      CollectedTracks(pages, n - 1)
      + match PageAt(pages, n - 1) case Failed => [] case Page(items) => KeptTracks(items)
  }

  /** The requests made and the tracks collected against the answers `pages`:
      requests at offsets 0, 100, 200, ...; every answer but the last a full
      page, the last one short or raised; the tracks those answers carry. */
  ghost predicate Listing(pages: seq<PageResponse>, tracks: seq<TrackInfo>, offsets: seq<nat>) {
    && |offsets| >= 1
    && (forall i :: 0 <= i < |offsets| ==> offsets[i] == i * PageSize)
    && (forall i :: 0 <= i < |offsets| - 1 ==> Continues(PageAt(pages, i)))
    && !Continues(PageAt(pages, |offsets| - 1))
    && tracks == CollectedTracks(pages, |offsets|)
  }

  /** `get_playlist_tracks`. Without a connection or an ID no request is made.
      Otherwise requests go out at offsets 0, 100, 200, ...; every answer but
      the last was a full page, the last one was short or raised, and the
      result is the tracks of the answered pages in order, entries without a
      track left out. */
  method GetPlaylistTracks(connected: bool, url: string, pagesOf: string -> seq<PageResponse>)
    returns (tracks: seq<TrackInfo>, offsets: seq<nat>)
    ensures !connected || ExtractPlaylistId(url).None? ==> tracks == [] && offsets == []
    ensures connected && ExtractPlaylistId(url).Some? ==>
      Listing(pagesOf(ExtractPlaylistId(url).value), tracks, offsets)
  {
    tracks, offsets := [], [];
    if !connected {
      return;
    }
    var playlistId := ExtractPlaylistId(url);
    if playlistId.None? {
      return;
    }
    tracks, offsets := ListPages(pagesOf(playlistId.value));
  }

  /** The `while True` loop of `get_playlist_tracks` against the answers `pages`. */
  method ListPages(pages: seq<PageResponse>) returns (tracks: seq<TrackInfo>, offsets: seq<nat>)
    ensures Listing(pages, tracks, offsets)
  {
    tracks, offsets := [], [];
    var offset := 0;
    var n := 0;
    while true
      invariant n <= |pages| && offset == n * PageSize
      invariant ListedSoFar(pages, tracks, offsets, n)
      decreases |pages| - n
    {
      var results := PageAt(pages, n);
      if results.Failed? {
        ListedStop(pages, tracks, offsets, n);
        offsets := offsets + [offset];
        return;
      }
      var items := results.items;
      var more := AppendPlayable(tracks, items);
      if |items| < PageSize {
        ListedStop(pages, tracks, offsets, n);
        tracks, offsets := more, offsets + [offset];
        return;
      }
      ListedContinue(pages, tracks, offsets, n);
      tracks, offsets := more, offsets + [offset];
      offset := offset + PageSize;
      n := n + 1;
    }
  }

  /** After `n` full pages: the `n` requests so far and the tracks they carried. */
  ghost predicate ListedSoFar(pages: seq<PageResponse>, tracks: seq<TrackInfo>, offsets: seq<nat>, n: nat) {
    && |offsets| == n
    && (forall i :: 0 <= i < n ==> offsets[i] == i * PageSize)
    && AllContinue(pages, n)
    && tracks == CollectedTracks(pages, n)
  }

  /** The first `n` answers were all full pages. */
  predicate AllContinue(pages: seq<PageResponse>, n: nat) {
    n == 0 || (AllContinue(pages, n - 1) && Continues(PageAt(pages, n - 1)))
  }

  lemma {:induction false} AllContinueMeans(pages: seq<PageResponse>, n: nat)
    ensures AllContinue(pages, n) <==> forall i :: 0 <= i < n ==> Continues(PageAt(pages, i))
  {
    if n > 0 {
      AllContinueMeans(pages, n - 1);
    }
  }

  /** Another full page: one more request, its tracks appended. */
  lemma ListedContinue(pages: seq<PageResponse>, tracks: seq<TrackInfo>, offsets: seq<nat>, n: nat)
    requires ListedSoFar(pages, tracks, offsets, n) && Continues(PageAt(pages, n))
    ensures n < |pages|
    ensures ListedSoFar(pages, tracks + KeptTracks(PageAt(pages, n).items), offsets + [n * PageSize], n + 1)
  {
  }

  /** A short or raised answer ends the listing with its request. */
  lemma ListedStop(pages: seq<PageResponse>, tracks: seq<TrackInfo>, offsets: seq<nat>, n: nat)
    requires ListedSoFar(pages, tracks, offsets, n) && !Continues(PageAt(pages, n))
    ensures Listing(pages, tracks + (if PageAt(pages, n).Page? then KeptTracks(PageAt(pages, n).items) else []),
                    offsets + [n * PageSize])
  {
    AllContinueMeans(pages, n);
  }

  /** The inner loop of `get_playlist_tracks`: append the track of every
      entry that has one, in order. */
  method AppendPlayable(acc: seq<TrackInfo>, items: seq<Item>) returns (tracks: seq<TrackInfo>)
    ensures tracks == acc + KeptTracks(items)
  {
    tracks := acc;
    var j := 0;
    while j < |items|
      invariant j <= |items|
      invariant tracks == acc + KeptTracks(items[..j])
    {
      assert items[..j + 1][..j] == items[..j];
      var item := items[j];
      if item.track.Some? {
        tracks := tracks + [item.track.value];
      }
      j := j + 1;
    }
    assert items[..|items|] == items;
  }

  /** Two answers, one of 100 playable entries and one of 37: the loop makes
      exactly two requests and collects 137 tracks. */
  lemma HundredThenThirtySeven(first: seq<Item>, second: seq<Item>, tracks: seq<TrackInfo>, offsets: seq<nat>)
    requires |first| == 100 && |second| == 37
    requires forall k :: 0 <= k < |first| ==> first[k].track.Some?
    requires forall k :: 0 <= k < |second| ==> second[k].track.Some?
    requires Listing([Page(first), Page(second)], tracks, offsets)
    ensures offsets == [0, 100] && |tracks| == 137
  {
    var pages := [Page(first), Page(second)];
    assert Continues(PageAt(pages, 0)) && !Continues(PageAt(pages, 1));
    if |offsets| == 1 {
      assert false;
    } else if |offsets| > 2 {
      assert false;
    }
    assert offsets == [0, 100];
    KeptAll(first);
    KeptAll(second);
    assert CollectedTracks(pages, 1) == KeptTracks(first);
    assert CollectedTracks(pages, 2) == KeptTracks(first) + KeptTracks(second);
  }

  /** A list of entries that all carry a track keeps every one of them. */
  lemma {:induction false} KeptAll(items: seq<Item>)
    requires forall k :: 0 <= k < |items| ==> items[k].track.Some?
    ensures |KeptTracks(items)| == |items|
  {
    if items != [] {
      KeptAll(items[..|items| - 1]);
    }
  }
}
