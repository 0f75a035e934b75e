/**
  The engine's playlist run (`download_playlist` of the downloader): fetch
  the playlist record and its tracks, create the playlist folder, hand every
  track to a worker and tally what the workers report. Each worker's result
  is an input, by the track's position in the list: the `download_track`
  verdict, or an exception.
 */
module Orchestrator {
  import opened Wrappers
  import opened Text
  import opened Sanitizer
  import opened PlaylistUrl
  import opened Catalog

  /** What a worker reports for one track. */
  datatype UnitOutcome = Done(success: bool) | Raised

  /** A report that counts as a success; everything else, an exception
      included, counts as a failure. */
  predicate IsSuccess(o: UnitOutcome) {
    o == Done(true)
  }

  /** The reports of the tracks, in submission order; `outcomeAt(i)` is what
      the worker for the `i`-th track reports. */
  function Outcomes(tracks: seq<TrackInfo>, outcomeAt: nat -> UnitOutcome): (os: seq<UnitOutcome>)
    ensures |os| == |tracks|
    ensures forall i :: 0 <= i < |tracks| ==> os[i] == outcomeAt(i)
  {
    seq(|tracks|, i requires 0 <= i < |tracks| => outcomeAt(i))
  }

  /** The number of successes among some reports. */
  function Successes(os: seq<UnitOutcome>): (n: nat)
    ensures n <= |os|
  {
    if os == [] then 0
    else Successes(os[..|os| - 1]) + (if IsSuccess(os[|os| - 1]) then 1 else 0)
  }

  /** The success count is how often `Done(true)` occurs among the reports. */
  lemma {:induction false} SuccessesCountsDone(os: seq<UnitOutcome>)
    ensures Successes(os) == multiset(os)[Done(true)]
  {
    if os != [] {
      var init := os[..|os| - 1];
      assert os == init + [os[|os| - 1]];
      SuccessesCountsDone(init);
    }
  }

  /** Counting commutes: reports arriving in any order give the same tally,
      so folding in submission order gives what `as_completed` would. */
  lemma SuccessesIgnoresOrder(os: seq<UnitOutcome>, arrivals: seq<UnitOutcome>)
    requires multiset(arrivals) == multiset(os)
    ensures Successes(arrivals) == Successes(os)
    ensures |arrivals| - Successes(arrivals) == |os| - Successes(os)
  {
    SuccessesCountsDone(os);
    SuccessesCountsDone(arrivals);
    assert |arrivals| == |multiset(arrivals)|;
  }

  /** The result of a run: the verdict, the playlist folder made (None when
      the run ended before making one), the two counters, and after each
      collected report the number completed so far. */
  datatype RunReport = RunReport(
    ok: bool, folder: Option<string>, successful: nat, failed: nat, progress: seq<nat>)

  /** `download_playlist`: False before any folder is made when the playlist
      record cannot be fetched or it has no tracks; otherwise the folder
      `downloadFolder/<sanitised playlist name>` is made, every track is
      counted once, as a success or a failure, and the verdict is True. */
  method DownloadPlaylist(connected: bool, url: string,
                          lookup: string -> Option<PlaylistRecord>,
                          pagesOf: string -> seq<PageResponse>,
                          downloadFolder: string,
                          outcomeAt: nat -> UnitOutcome)
    returns (report: RunReport, tracks: seq<TrackInfo>)
    ensures GetPlaylistInfo(connected, url, lookup).None? ==>
      report == RunReport(false, None, 0, 0, []) && tracks == []
    ensures GetPlaylistInfo(connected, url, lookup).Some? ==>
      exists offsets :: Listing(pagesOf(ExtractPlaylistId(url).value), tracks, offsets)
    ensures report.ok <==> report.folder.Some?
    ensures report.ok <==> GetPlaylistInfo(connected, url, lookup).Some? && tracks != []
    ensures report.ok ==>
      && report.folder == Some(PathJoin(downloadFolder, SanitizeFilename(GetPlaylistInfo(connected, url, lookup).value.name)))
      && report.successful == Successes(Outcomes(tracks, outcomeAt))
      && report.successful + report.failed == |tracks|
      && |report.progress| == |tracks|
      && forall i :: 0 <= i < |tracks| ==> report.progress[i] == i + 1
    ensures !report.ok ==> report.successful == 0 && report.failed == 0 && report.progress == []
  {
    tracks := [];
    var info := GetPlaylistInfo(connected, url, lookup);
    if info.None? {
      return RunReport(false, None, 0, 0, []), tracks;
    }
    var offsets;
    tracks, offsets := GetPlaylistTracks(connected, url, pagesOf);
    if tracks == [] {
      return RunReport(false, None, 0, 0, []), tracks;
    }
    var successful, failed, progress := CollectResults(tracks, outcomeAt);
    report := RunReport(true, Some(PathJoin(downloadFolder, SanitizeFilename(info.value.name))),
                        successful, failed, progress);
  }

  /** The results loop: one report per track, an exception counted as a
      failure, and the completed count shown after each report. */
  method CollectResults(tracks: seq<TrackInfo>, outcomeAt: nat -> UnitOutcome)
    returns (successful: nat, failed: nat, progress: seq<nat>)
    ensures successful == Successes(Outcomes(tracks, outcomeAt))
    ensures successful + failed == |tracks|
    ensures |progress| == |tracks| && forall i :: 0 <= i < |tracks| ==> progress[i] == i + 1
  {
    var outcomes := Outcomes(tracks, outcomeAt);
    successful, failed, progress := 0, 0, [];
    var i := 0;
    while i < |tracks|
      invariant i <= |tracks|
      invariant successful == Successes(outcomes[..i])
      invariant successful + failed == i
      invariant |progress| == i && forall k :: 0 <= k < i ==> progress[k] == k + 1
    {
      assert outcomes[..i + 1][..i] == outcomes[..i];
      var outcome := outcomeAt(i);
      match outcome {
        case Done(success) =>
          if success {
            successful := successful + 1;
          } else {
            failed := failed + 1;
          }
        case Raised =>
          failed := failed + 1;
      }
      progress := progress + [successful + failed];
      i := i + 1;
    }
    assert outcomes[..|tracks|] == outcomes;
  }
}
