# Spotify playlist downloader — a Dafny model

This project models the core of a Spotify playlist downloader. The downloader
takes a Spotify playlist address, reads the playlist's tracks from the Spotify
catalog, and looks each track up on YouTube. It then downloads the audio of
the best-matching video into `<download folder>/<playlist name>/<track name> -
<artists>.<ext>`. It also has a graphical front end that starts, pauses,
resumes and stops such a run.

The modules follow the program's structure:

| module | what it models |
|---|---|
| `Wrappers` | `Option` |
| `Text` | the Python string operations the program relies on, restricted to ASCII: `isspace`, `strip`, `split`, `lower`, the substring test `w in t`, `join`, and POSIX `os.path.join` |
| `Sanitizer` | `sanitize_filename` |
| `Matcher` | `_find_best_match`, the candidate matcher |
| `PlaylistUrl` | `extract_playlist_id`, its three regular expressions written out as scans |
| `Catalog` | `get_playlist_info`, and the paginated `get_playlist_tracks` |
| `Retrieval` | `download_audio` and its last resort `_simple_download` |
| `TrackUnit` | `search_multiple_platforms`, `_search_platform`, and `download_track` |
| `Orchestrator` | the engine's `download_playlist` |
| `Config` | the default merge of `load_config` |
| `RunState` | the front end's run state: the flags, the statistics, the transitions and the gated track loop |

The services the program calls become inputs of the model:

- **The Spotify catalog** is three inputs:
  - whether a connection exists;
  - a lookup from playlist ID to a record, or None where the lookup raises;
  - for each playlist ID, the answers that successive `playlist_tracks` requests receive, each a page of entries or an exception.
- **The YouTube search** is a function from a search string to the entries found, or an exception.
- **The media download** is a function from a video address and a request (format selector and output template) to the paths that attempt creates, together with whether it raised.
- **The file system** is the set of paths that exist.
- **Each worker's result** in a playlist run is an input, indexed by the track's position: the `download_track` verdict, or an exception. Two equal tracks may therefore get different results.
- **The user's button presses** in the front end are a script. For each poll point of the track loop it lists, in order, the presses made since the previous one. A press is either the start/pause button, together with the text then in the address field, or the stop button. The poll points are the flag check at the top of every iteration and each wake-up of the pause loop. A run's trace records, for every poll point, the presses delivered and then the check that closes it. Every processed track comes directly after such a check. The `c`-th check has seen exactly the presses of the first `c` poll points (`RunState.Synced`). So each track is tied to the poll point that let it through (`RunState.TrackFollowsScript`).

Two points where the program's behaviour is easy to misread:

- **The candidate matcher.** Its comments name a full-match check and then a partial-match check, which reads like a two-pass match: first the first entry containing every query word, then the first containing any. The code (`spotifylisteindir.py:301-310`) applies both tests to each entry before moving to the next. It therefore returns the first entry whose title contains any query word. `Matcher.PartialMatchBeatsLaterFullMatch` exhibits the difference: an earlier partial match is chosen over a later full match.
- **Stop, then start, before the next check.** The start/pause button starts a new run whenever none is on (`spotify_modern_gui.py:299-341`). A stop followed by a valid start, both made after a track was counted and before the loop's next check (`spotify_modern_gui.py:389`, `400`), switches the flags back on before that check. The old loop then goes on with the next track and counts it into the new run's freshly zeroed statistics, whose `total` is still 0 (`spotify_modern_gui.py:336`). `RunState.RestartRevivesLoop` exhibits this. The model keeps the behaviour as written, so "nothing is processed after a stop" holds only up to the next start (`RunState.NothingAfterStop`, `RunState.StopLeavesAtNextCheck`). The same presses made while a track is downloading would also move that track's own count into the new statistics; the model delivers presses only at poll points (see "Left out").
- **The playlist name.** The front end hands the unsanitised playlist name to `download_track` (`spotify_modern_gui.py:413`). The engine's own run hands it the sanitised name (`spotifylisteindir.py:474`, `487`). In the model the front end's track results are inputs, so the difference does not show in its contracts.

## Model

| member | source | states |
|---|---|---|
| Text.LowerChar | spotifylisteindir.py:299-302 | a lower-cased character is never a capital; a capital becomes the same letter in small case, and any other character stays |
| Text.Lower | spotifylisteindir.py:299-302 | `lower()` keeps the length and leaves no ASCII capital |
| Text.LowerIdempotent | spotifylisteindir.py:299-302 | lower-casing twice is lower-casing once |
| Text.LowerOfLowerCase | spotifylisteindir.py:299 | text without capitals is its own lower-case form |
| Text.StripLeft | spotifylisteindir.py:406 | `lstrip()`: never longer than its argument; what it returns is stated by `StripLeftDropsSpace` |
| Text.StripRight | spotifylisteindir.py:406 | `rstrip()`: never longer than its argument; what it returns is stated by `StripRightDropsSpace` |
| Text.Strip | spotifylisteindir.py:406 | `strip()`: specified by `StripIsInfix`, `StripTrimsBothEnds` and `StripIdempotent` |
| Text.StripLeftDropsSpace | spotifylisteindir.py:406 | `lstrip()` returns a suffix of its argument that does not start with whitespace, and everything it dropped is whitespace |
| Text.StripRightDropsSpace | spotifylisteindir.py:406 | `rstrip()` returns a prefix of its argument that does not end with whitespace, and everything it dropped is whitespace |
| Text.StripIsInfix | spotifylisteindir.py:406 | `strip()` returns a contiguous piece of its argument |
| Text.StripTrimsBothEnds | spotifylisteindir.py:406 | the stripped text has whitespace at neither end |
| Text.StripIdempotent | spotifylisteindir.py:406 | stripping twice is stripping once |
| Text.TakeWord | spotifylisteindir.py:305 | the first word is a whitespace-free prefix ending at whitespace or at the end, and is non-empty when the text starts with a non-space |
| Text.Split | spotifylisteindir.py:305 | `split()` yields only non-empty whitespace-free words, and yields none exactly when the text is all whitespace |
| Text.TakeWordBeforeSpace | spotifylisteindir.py:305 | the first word of `w + " " + rest` is `w` |
| Text.TakeWordWhole | spotifylisteindir.py:305 | a whitespace-free text is one word |
| Text.SplitSkipsSpace | spotifylisteindir.py:305 | leading whitespace does not change `split()` |
| Text.SplitOfStripped | spotifylisteindir.py:305 | two texts that agree once their leading whitespace is dropped split alike |
| Text.SplitWordThenSpace | spotifylisteindir.py:305 | `split()` of a word, a blank and more text is that word followed by the split of the rest |
| Text.SplitOneWord | spotifylisteindir.py:305 | `split()` of a single word is that word alone |
| Text.OccursInJoined | spotifylisteindir.py:305-309 | both halves of `a + " " + b` occur in it at their positions |
| Text.Contains | spotifylisteindir.py:305-309 | Python's substring test: specified by `ContainsIsOccurrence` |
| Text.ContainsIsOccurrence | spotifylisteindir.py:305-309 | the substring test holds exactly when the word occurs at some position of the title |
| Sanitizer.RemoveIllegal | spotifylisteindir.py:402 | the result is no longer than the input and holds none of `< > : " / \ \| ? *` |
| Sanitizer.RemoveIllegalKeepsOthers | spotifylisteindir.py:402 | every other character keeps its number of occurrences |
| Sanitizer.RemoveIllegalInOrder | spotifylisteindir.py:402 | the removal works character by character: cleaning `a + b` is cleaning `a`, then `b`, so the kept characters stay in their order |
| Sanitizer.RemoveIllegalCons | spotifylisteindir.py:402 | a leading illegal character is dropped and any other is kept in front |
| Sanitizer.Truncate | spotifylisteindir.py:404-405 | the result is a prefix of at most 200 characters; text of up to 200 characters is unchanged, and longer text is cut to exactly 200 |
| Sanitizer.SanitizeFilename | spotifylisteindir.py:399-406 | no illegal character, at most 200 characters, no whitespace at either end, and a contiguous piece of the cleaned and cut text |
| Sanitizer.StripKeepsClean | spotifylisteindir.py:402-406 | the final `strip()` brings back no illegal character |
| Sanitizer.RemoveIllegalKeepsClean | spotifylisteindir.py:402 | text without illegal characters passes the removal unchanged |
| Sanitizer.SanitizeIdempotent | spotifylisteindir.py:399-406 | sanitising a sanitised name changes nothing |
| Matcher.FirstAccepted | spotifylisteindir.py:301-310 | the position found is the first entry that passes the full-match or the partial-match test; None means no entry passes |
| Matcher.FindBestMatch | spotifylisteindir.py:297-313 | None exactly for an empty entry list; otherwise one of the entries |
| Matcher.AcceptsIsMentions | spotifylisteindir.py:305-310 | for a query with at least one word, the per-entry test is "the title contains some query word" |
| Matcher.FindBestMatchPicksFirstMention | spotifylisteindir.py:297-313 | the matcher returns the first entry whose lower-cased title contains some lower-cased query word |
| Matcher.FindBestMatchFallsBackToFirst | spotifylisteindir.py:311-313 | with no entry mentioning any query word, the first entry is returned |
| Matcher.QueryWordsOfTwo | spotifylisteindir.py:299-305 | the words of the lower-case query "a b" are `a` and `b` |
| Matcher.JoinedHoldsBoth | spotifylisteindir.py:305-307 | a title `a b` contains both query words `a` and `b`, so it passes the full-match test |
| Matcher.PartialOnly | spotifylisteindir.py:305-310 | a title `a` without `b` passes the partial-match test and fails the full-match test for the words `a`, `b` |
| Matcher.PartialMatchBeatsLaterFullMatch | spotifylisteindir.py:301-310 | for query "a b", an earlier entry titled "a" is chosen over a later entry holding both words |
| PlaylistUrl.RunEnd | spotifylisteindir.py:134-136 | the greedy group `[a-zA-Z0-9]+` ends where the longest run of letters and digits ends |
| PlaylistUrl.FirstMatch | spotifylisteindir.py:139-140 | `re.search` finds the leftmost position where the pattern matches, or reports that it matches nowhere |
| PlaylistUrl.ExtractPlaylistId | spotifylisteindir.py:131-144 | `extract_playlist_id`, the capture of the first pattern that matches: specified by `ExtractPlaylistIdSpec` |
| PlaylistUrl.ExtractPlaylistIdSpec | spotifylisteindir.py:131-144 | None exactly when `playlist/` is nowhere followed by a letter or digit; otherwise a non-empty run of letters and digits that directly follows `playlist/` and cannot be extended |
| PlaylistUrl.ExtractPlaylistIdIsLeftmost | spotifylisteindir.py:131-144 | the ID is the run after the leftmost `spotify.com/playlist/` followed by a letter or digit; where there is none, the run after the leftmost such `playlist/` |
| PlaylistUrl.LeftmostRunMatch | spotifylisteindir.py:140-142 | `re.search` with a plain-run pattern matches at the leftmost position where its prefix is followed by a letter or digit |
| PlaylistUrl.CatalogCaptureIsPathCapture | spotifylisteindir.py:134-136 | a capture right after `spotify.com/playlist/` is one right after `playlist/` |
| PlaylistUrl.CatalogPrefixEndsInPathPrefix | spotifylisteindir.py:134-136 | where `spotify.com/playlist/` occurs, `playlist/` occurs 12 characters on |
| PlaylistUrl.CatalogCaptureFollowsPath | spotifylisteindir.py:134-140 | the first pattern's capture is a run of letters and digits directly after `playlist/` |
| PlaylistUrl.CatalogMatchIsPathMatch | spotifylisteindir.py:134-136 | wherever the first pattern matches, the third pattern matches too |
| PlaylistUrl.CaptureFollowsSegment | spotifylisteindir.py:134-141 | a plain pattern fails exactly when its prefix is never followed by a letter or digit; otherwise its group is a maximal non-empty run right after the prefix |
| PlaylistUrl.QuestionMarkPatternNeverDecides | spotifylisteindir.py:133-142 | wherever the second pattern matches, the first one matches as well; the result is the first pattern's capture, else the third's |
| PlaylistUrl.WebAddressYieldsId | spotify_modern_gui.py:320 | an address that passes the front end's prefix check and has a letter or digit after it always yields an ID |
| Catalog.GetPlaylistInfo | spotifylisteindir.py:146-168 | a record exactly when connected, an ID is extracted, and the lookup succeeds. The record carries the extracted ID and the looked-up name, track total and owner name; a missing description becomes "" |
| Catalog.KeptTracksMembers | spotifylisteindir.py:189-200 | the tracks kept are exactly those of the entries that carry one, and there are no more of them than entries |
| Catalog.GetPlaylistTracks | spotifylisteindir.py:170-210 | no request without a connection or an ID. Otherwise requests go out at offsets 0, 100, 200, … as long as the previous answer was a full page. The last answer is short or raised. The result is the tracks of the answered pages, in order, with entries lacking a track skipped |
| Catalog.ListPages | spotifylisteindir.py:181-205 | the `while True` loop requests offsets 0, 100, 200, … while every answer so far was a full page, stops at the first short or raised answer, and returns the tracks of the answered pages in order |
| Catalog.AllContinueMeans | spotifylisteindir.py:202-205 | the loop went on past the first `n` answers exactly when each of them was a full page |
| Catalog.ListedStop | spotifylisteindir.py:202-203 | a short or raised answer ends the listing, with its own request counted and its tracks kept |
| Catalog.AppendPlayable | spotifylisteindir.py:189-200 | appending the tracks of a page keeps what was collected and adds that page's tracks in order |
| Catalog.HundredThenThirtySeven | spotifylisteindir.py:186-205 | for a page of 100 tracks followed by one of 37, every listing the loop can produce makes requests at offsets 0 and 100 only, and yields 137 tracks |
| Catalog.KeptAll | spotifylisteindir.py:189-200 | a page whose entries all carry a track keeps every one |
| Retrieval.FormatRequests | spotifylisteindir.py:318-332 | the `k`-th format request has the `k`-th selector and writes to `stem.mp3` |
| Retrieval.FirstFormatSuccess | spotifylisteindir.py:325-355 | the format attempt found is the first that did not raise and left `stem.mp3`; None means none did |
| Retrieval.SimpleDownload | spotifylisteindir.py:368-397 | the file system gains what the attempt wrote; True exactly when the attempt did not raise and one of `stem.mp4/.webm/.m4a/.mp3` exists |
| Retrieval.DownloadAudio | spotifylisteindir.py:315-366 | the loop makes exactly the requests, and leaves the file system and verdict, that the format chain followed by the last resort prescribes |
| Retrieval.FsAfterFormatsGrows | spotifylisteindir.py:325-355 | format attempts only ever add files |
| Retrieval.AudioOutcome | spotifylisteindir.py:315-397 | the audio download's verdict, files and requests: specified by `AudioOutcomeSound` and `StopsAtFirstSuccess`, and computed by `DownloadAudio` |
| Retrieval.AudioOutcomeSound | spotifylisteindir.py:315-397 | True implies a wanted file exists; no file disappears; the last resort is requested only after all four formats failed |
| Retrieval.StopsAtFirstSuccess | spotifylisteindir.py:351-353 | when format `k` is the first to succeed, the verdict is True and exactly formats 0..k were requested |
| TrackUnit.AfterFirstColon | spotifylisteindir.py:283 | `split(':', 1)[1]` is the text after the first colon, and is None exactly when there is no colon |
| TrackUnit.AfterPrefixColon | spotifylisteindir.py:283 | with a colon-free prefix, the text after the colon is recovered exactly |
| TrackUnit.SearchPlatform | spotifylisteindir.py:262-295 | a candidate exactly when the search did not raise and found entries, and the search string has a colon; the candidate is one of the entries, with its watch address and the platform name |
| TrackUnit.FirstFound | spotifylisteindir.py:250-260 | the first platform that yields a candidate wins, and None means no platform does |
| TrackUnit.SearchMultiplePlatforms | spotifylisteindir.py:243-260 | the first platform with a candidate, in order: specified by `FirstFound`'s contract and `SearchSeesQuery` |
| TrackUnit.SearchSeesQuery | spotifylisteindir.py:243-260 | the single platform is searched with `ytsearch5:<query>`, and the matcher sees the query unchanged |
| TrackUnit.OutputStemInPlaylistFolder | spotifylisteindir.py:427-428 | the output stem is the playlist folder, at most one separator, and one path component of at most 200 characters |
| TrackUnit.DownloadTrack | spotifylisteindir.py:408-444 | no candidate gives False with nothing requested and nothing written; otherwise audio retrieval from the candidate's address into the track's stem decides |
| Orchestrator.Successes | spotifylisteindir.py:492-502 | the success count never exceeds the number of reports |
| Orchestrator.SuccessesCountsDone | spotifylisteindir.py:492-502 | the success count is the number of `Done(true)` reports |
| Orchestrator.SuccessesIgnoresOrder | spotifylisteindir.py:492-502 | reports collected in any completion order give the same success and failure counts |
| Orchestrator.DownloadPlaylist | spotifylisteindir.py:446-516 | False with no folder and no counts without a playlist record or without tracks. Otherwise True, with the folder `<download folder>/<sanitised name>`. Every track is counted exactly once, as a success or a failure, and the completed count rises by one per report |
| Orchestrator.CollectResults | spotifylisteindir.py:492-507 | the counters after the results loop: successes as counted, successes plus failures equal to the number of tracks, progress 1, 2, … |
| Config.Member | spotifylisteindir.py:64-68 | Python's `in` is a key, element or substring test; None exactly when `in` raises |
| Config.FillTable | spotifylisteindir.py:66-69 | the sub-key loop of one table: specified by `FillTableClosed`, and computed in place by `FillSub` |
| Config.FillTableClosed | spotifylisteindir.py:66-69 | the sub-key loop keeps an object's entries and adds the missing defaults; it raises exactly when a missing sub-key cannot be assigned |
| Config.MergeTables | spotifylisteindir.py:62-69 | the table loop of the merge: specified by `MergeTablesClosed` and `MergeKeepsAndFills`, and computed in place by `MergeDefaults` |
| Config.MergeTablesClosed | spotifylisteindir.py:62-69 | the merge loop gives the closed form, and raises exactly when a present table cannot be filled |
| Config.MergeKeepsAndFills | spotifylisteindir.py:62-69 | the merge fails exactly for a non-object or an unfillable table. Otherwise the keys are the file's plus the table names, every existing entry is kept, and every missing table and sub-key is supplied |
| Config.MergedIsMergeable | spotifylisteindir.py:62-69 | a merged configuration can be merged again without raising |
| Config.MergedIsFixed | spotifylisteindir.py:62-69 | merging an already merged configuration gives it back |
| Config.MergeIdempotent | spotifylisteindir.py:62-69 | completing a completed configuration changes nothing |
| Config.EmptyObjectGivesDefaults | spotifylisteindir.py:47-69 | the file `{}` completes to exactly the built-in defaults |
| Config.MergeDefaults | spotifylisteindir.py:63-69 | the in-place table loop computes the merge, or fails where it raises |
| Config.FillSub | spotifylisteindir.py:66-69 | the in-place sub-key loop computes the sub-key merge, or fails where it raises |
| Config.LoadConfig | spotifylisteindir.py:44-77 | the defaults for a missing file, an unparsable file, or a failing merge; otherwise the completed file |
| RunState.Apply | spotify_modern_gui.py:296-356 | a press switches a run on exactly when none is on and the start checks pass, and that clears the statistics. During a run the start/pause button flips the pause and keeps the statistics, and stop ends the run. Outside a run, a press that fails the checks changes nothing. The folder never changes |
| RunState.OffUntilStart | spotify_modern_gui.py:299-350 | once the run is off, it stays off until a press starts a new one |
| RunState.NothingAfterStop | spotify_modern_gui.py:388-401 | after a stop is delivered, no track is processed until a press starts a new run |
| RunState.StopLeavesAtNextCheck | spotify_modern_gui.py:388-391 | in a loop's result, a stop delivered with no new run started after it ends the loop at the next check: that check is the last event and the run completes |
| RunState.RestartRevivesLoop | spotify_modern_gui.py:336-413 | stop and then a valid start, both after a track was counted and before the next check, let the old loop process its next track, into the new run's statistics, whose total is 0 |
| RunState.PollNext | spotify_modern_gui.py:389-397 | within a poll point, the next event is the next press due and, once all are delivered, the check; a press it returns is one the script lists by then |
| RunState.FollowsStep | spotify_modern_gui.py:388-422 | appending the loop's next event to a trace that follows the loop keeps it following the loop |
| RunState.FollowsMeans | spotify_modern_gui.py:388-422 | in a trace that follows the loop, each event is the loop's next event after those before it |
| RunState.CommonPrefix | spotify_modern_gui.py:388-422 | two traces that follow the loop agree on their common length |
| RunState.TraceUnique | spotify_modern_gui.py:388-441 | two traces that follow the loop to its end, from the same state, for the same tracks, results and presses, are equal |
| RunState.NothingAfterOffCheck | spotify_modern_gui.py:388-401 | a check that finds the run off is the loop's last event |
| RunState.AfterTrack | spotify_modern_gui.py:388-441 | at the head of the loop the run ends after a track that raised or after the last track; otherwise a poll point follows |
| RunState.PollNextIn | spotify_modern_gui.py:389-397 | with the first `k` presses of a poll point delivered, the next event is press `k`, or the check once the batch is in |
| RunState.BatchFollows | spotify_modern_gui.py:389-397 | delivering the first `k` presses of a poll point's batch is what the loop does; it counts no check and adds exactly those presses |
| RunState.DeliveryStepFollows | spotify_modern_gui.py:389-397 | a press the loop delivers next keeps the trace following the loop and adds just that press |
| RunState.PollFollows | spotify_modern_gui.py:389-397 | a whole poll point, its batch and then its check, is what the loop does from the start of that poll point |
| RunState.LoopResultUnique | spotify_modern_gui.py:388-441 | the loop's result is determined by the start state, the tracks, their results and the presses: trace, poll points, end and final state |
| RunState.StopFirstLeavesAtFirstCheck | spotify_modern_gui.py:388-391 | with a stop pressed before the first poll point, the loop ends completed at its first check, having processed no track |
| RunState.EmptyFirstBatchRunsFirstTrack | spotify_modern_gui.py:388-413 | with nothing pressed before the first poll point, a run that is on and unpaused processes the first track right after the first check |
| RunState.GatedMeans | spotify_modern_gui.py:389-401 | in a gated trace, each track comes directly after a check, and the run was then on and not paused |
| RunState.SyncedMeans | spotify_modern_gui.py:389-397 | in a synced trace, the `c`-th check has seen exactly the presses of the first `c` poll points |
| RunState.FlagsFollowPresses | spotify_modern_gui.py:296-356 | the flags and the folder after a trace are those its presses alone produce, whatever tracks were processed in between |
| RunState.TrackFollowsScript | spotify_modern_gui.py:388-413 | each processed track comes after the check of some poll point `c` (at least the first); that check saw exactly the presses of the first `c` poll points, and those presses, applied from the start state, leave a run on and unpaused |
| RunState.FirstCheckSeesStop | spotify_modern_gui.py:388-391 | with stop as the only press, made before the first check, no track is processed |
| RunState.BatchesOfStop | spotify_modern_gui.py:389-397 | in the one-stop script every poll point from the first on has seen just that stop |
| RunState.PanelAfterAppend | spotify_modern_gui.py:388-422 | running a trace in two parts is running the second part from where the first ends |
| RunState.DeliveryStep | spotify_modern_gui.py:389-397 | delivering a press changes the state as `Apply` says, processes no track, makes no check, and keeps the trace gated and synced |
| RunState.CheckStep | spotify_modern_gui.py:389-393 | the check closing a poll point whose presses are all in changes nothing and counts one more poll point, keeping the trace gated and synced |
| RunState.ProcessStep | spotify_modern_gui.py:403-422 | processing the next track directly after a check that found the run on and unpaused adds its report in order and keeps the trace gated and synced |
| RunState.StepCounts | spotify_modern_gui.py:413-422 | an event that starts no run keeps the total, and adds one to exactly the counter of the track's verdict |
| RunState.CountsWithinProcessed | spotify_modern_gui.py:415-422 | successes plus failures never grow by more than the tracks processed |
| RunState.CountsWithoutRestart | spotify_modern_gui.py:385-422 | without a restart, the total stays, and each counter grows by the number of tracks with its verdict |
| RunState.HitsWithin | spotify_modern_gui.py:415-422 | the successes and the failures together are at most the tracks processed |
| RunState.CountsWithinTotal | spotify_modern_gui.py:385-422 | in a run started with cleared statistics and its number of tracks as total, and not restarted, successes plus failures stay within the total |
| RunState.FolderStays | spotify_modern_gui.py:296-356 | no press changes the selected folder |
| RunState.EndsPaused | spotify_modern_gui.py:393-397 | a loop left paused once the script is used up meets the loop's promise |
| RunState.EndsFailed | spotify_modern_gui.py:413-441 | a loop ended by a track that raised meets the loop's promise, with the flags cleared |
| RunState.EndsOk | spotify_modern_gui.py:388-437 | a loop that processed every track, or found the run off, meets the loop's promise, with the flags cleared |
| RunState.DownloadController.constructor | spotify_modern_gui.py:46-49 | no run, not paused, no folder, zero statistics |
| RunState.DownloadController.SelectFolder | spotify_modern_gui.py:284-294 | a chosen folder replaces the selection; a cancelled dialog changes nothing |
| RunState.DownloadController.StartDownload | spotify_modern_gui.py:296-344 | during a run it only flips pause. Otherwise a run starts exactly when the stripped entry is non-empty, has the playlist prefix, and a folder is chosen; starting sets the flags and zeroes the statistics, and not starting changes nothing |
| RunState.DownloadController.TogglePause | spotify_modern_gui.py:299-312 | the button during a run flips `is_paused` and changes nothing else |
| RunState.DownloadController.TryStart | spotify_modern_gui.py:314-336 | outside a run: a run starts exactly when the stripped entry is non-empty, has the playlist prefix, and a folder is chosen; starting sets both flags for running and zeroes the statistics; otherwise nothing changes |
| RunState.DownloadController.StopDownload | spotify_modern_gui.py:346-356 | clears both flags in a run; nothing changes otherwise |
| RunState.DownloadController.DownloadComplete | spotify_modern_gui.py:443-446 | always clears both flags and keeps the statistics |
| RunState.DownloadController.Deliver | spotify_modern_gui.py:296-356 | a button press changes the state as `Apply` says, also outside a run |
| RunState.DownloadController.DeliverAll | spotify_modern_gui.py:296-356 | the presses of a batch are delivered in order, and no track is processed |
| RunState.DownloadController.Poll | spotify_modern_gui.py:389-397 | one poll point delivers, in order, the presses made since the previous one, then checks the flags; the trace stays consistent and ends with that check |
| RunState.DownloadController.CheckBeforeTrack | spotify_modern_gui.py:389-401 | the checks before a track: a stopped run leaves the loop, a paused one waits; only a run found on and unpaused by the latest check goes on, and the trace then ends with that check |
| RunState.DownloadController.AwaitResume | spotify_modern_gui.py:393-397 | the pause loop ends unpaused or stopped; it reports a run that stays paused once the script is used up |
| RunState.DownloadController.ProcessTrack | spotify_modern_gui.py:403-422 | one track processed while running and unpaused; exactly one counter rises on a verdict, and none on an exception |
| RunState.DownloadController.StepTrack | spotify_modern_gui.py:388-422 | one iteration: the checks and then the track; an iteration that ends the loop (a stop, a pause that waits for ever, a track that raised) meets the loop's promise, and any other reaches the head before the next track |
| RunState.DownloadController.TrackLoop | spotify_modern_gui.py:388-441 | the trace is exactly what the loop does, event after event, to where the loop ends: a check that finds the run off ends it, a check that finds it on and unpaused is followed by the next track, and the last track or one that raised ends it. Tracks are processed in order, each directly after the check of a poll point that found the run on and unpaused; each check saw exactly the presses due by then, and `polls` checks were made. The statistics are those the events produce, and the folder stays. A track that raises, and only that, ends the run as failed, right after it. A completed run processed every track or found the run off. A run left paused used up the script. The flags are cleared on completion |
| RunState.DownloadController.RunDownload | spotify_modern_gui.py:358-441 | without a playlist record or tracks the run completes as failed with the statistics untouched. Otherwise the tracks are the catalog listing, `total` is their number, and the track loop's promise holds from there |

## Left out

- The Spotify API client and `yt_dlp` are left out. Their answers are inputs, as described above, and so is the catalog connection made in `connect_spotify`.
- Real file-system effects are left out: `os.makedirs` and the existence checks against a real disk. The file system is the set of existing paths, and the directories made are not modelled.
- Reading and writing `config.json` is left out: `save_config`, and the default file written when none exists. `LoadConfig` takes the parsed file, or its absence, as input.
- Threads are left out: the thread pool with `as_completed`, and the front end's background thread. The results loop folds the reports in submission order; `Orchestrator.SuccessesIgnoresOrder` shows that any completion order gives the same counts.
- Orchestrator.DownloadPlaylist: assumes a valid pool size. A configured `max_workers` of 0 or less (`false` among them), or one that is neither a number nor null (a string, a list, an object), makes the thread pool raise (`spotifylisteindir.py:484`) after the playlist folder is made (`spotifylisteindir.py:476`). The exception is not caught, also not where `main` calls the run (`spotifylisteindir.py:566`). The model returns its normal result instead. Null gives the pool its default size (`spotifylisteindir.py:33`, `spotifylisteindir.py:447-448`), and `true` or a positive fraction is accepted as a small pool; neither raises, and the pool size changes no count. The settings menu's 1..10 check (`spotifylisteindir.py:618`) only guards values entered there, not the file.
- The `time.sleep(0.1)` wake-ups of the pause loop are left out. Each wake-up is a poll point that takes the presses the script lists for it.
- The second thread that a restart starts (`spotify_modern_gui.py:339-341`) is left out, and so is its later write of `total` (`spotify_modern_gui.py:386`). The model follows only the loop it was started with; `RunState.CountsWithinTotal` therefore requires that no restart happened.
- RunState.DownloadController.TrackLoop: presses take effect only at poll points, so a press made while a track is downloading takes effect after that track is counted. In the program a restart during a track clears the statistics at once (`spotify_modern_gui.py:336`), and that track's count (`spotify_modern_gui.py:416`, `420`) then goes into the new run. For two tracks that both succeed, with stop and start pressed during the first, the program ends with 2 successes and the model with 1. Presses made during the last track are not delivered, because no check follows it, so their effect on the flags and the statistics before `download_complete` is not modelled.
- RunState.RestartRevivesLoop: states the restart made between a counted track and the next check only; a restart made during the track's download, which also moves that track into the new statistics, is not modelled (see the line above).
- For `RunState.DownloadController.AwaitResume`, a run that stays paused for ever is cut short once the script is used up: it is reported as `StillPaused`.
- Floating-point progress values, the progress bar and the percentage print are left out. The engine's progress is modelled as the completed count.
- All Tk/customtkinter widgets, message boxes, log colours and log messages are left out.
- The console menus are left out: `main`, `edit_settings` and `test_youtube_download` are interactive loops.
- `search_youtube` (`spotifylisteindir.py:212-241`) is left out, because no other code calls it.
- `run_gui.py` is not part of this model. It only checks that files exist and starts the front end.
- The front end's `load_config`, which builds the downloader and preselects its download folder (`spotify_modern_gui.py:214-242`), is left out. `SelectFolder` sets the same field.
- The assignment of the selected folder to the downloader (`spotify_modern_gui.py:364`) is left out. The front end's track results are inputs.
- Unicode behaviour of `lower`, `isspace`, `strip` and the regular expressions is left out. Only ASCII letters are lower-cased, and ASCII whitespace as `str.isspace` defines it is stripped and split on.
- Windows path rules are left out. `os.path.join` has its POSIX meaning.
- JSON numbers other than integers are left out.
- Data-shape failures inside an answer are left out: an entry with a `title` key holding null, a `None` entry in the search results, and a track record missing a field partway through a page. In the model a page either arrives whole or raises at the request.
- An entry without an `id` is left out: the program would build the address `watch?v=None`, while the model's entries always carry an ID.
- Entries that are empty dictionaries are left out. The program treats such an entry as not found; in the model every entry is a candidate.
- `Catalog.GetPlaylistInfo`: a record whose `description` key holds null has the description None in the program and "" in the model. The other missing fields of a record are covered by the lookup returning None.
- `RunState.DownloadController.constructor`: the statistics do not exist in the program until the first start; the model starts them at zero.
