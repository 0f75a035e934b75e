/**
  The run state of the graphical front end: the `is_downloading` and
  `is_paused` flags, the statistics, the selected folder, the start / pause /
  resume / stop / complete transitions, and the track loop of its
  `download_playlist`, which checks the flags before every track.

  The user's button presses reach the loop at its poll points: the check at
  the top of every iteration and each wake-up of the pause loop. A script
  gives, for each poll point, the presses made since the previous one, in
  order; past its end the user presses nothing more. The start/pause button
  starts a new run whenever none is on, also while the loop of a stopped run
  is still busy with its current track.
 */
module RunState {
  import opened Wrappers
  import opened Text
  import opened PlaylistUrl
  import opened Catalog
  import opened Orchestrator

  /** A button press: the start/pause button, with the text then in the
      address field, or the stop button. */
  datatype Command = Press(entry: string) | Stop

  /** What the front end's run state holds: the two flags, the statistics
      and the selected folder. */
  datatype Panel = Panel(
    downloading: bool, paused: bool, successful: nat, failed: nat, total: nat, folder: string)

  /** A run is on and not paused. */
  predicate Running(s: Panel) {
    s.downloading && !s.paused
  }

  /** A step of a run: a press delivered at a poll point, the flag check
      that closes a poll point once its presses are in, or a track handed
      to `download_track` and what came back. */
  datatype Event = Delivered(cmd: Command) | Checked | Processed(index: nat, outcome: UnitOutcome)

  /** How the loop ended: `download_complete(True)`, `download_complete(False)`,
      or still in the pause loop with no press left to end it. */
  datatype RunEnd = CompletedOk | CompletedFailed | StillPaused

  /** What the checks before a track decide: download it, leave the loop
      because the run was stopped, or wait in the pause loop for ever. */
  datatype Verdict = Proceed | Cancelled | WaitsForever

  /** The start checks: a non-empty stripped address with the playlist
      prefix, and a selected (non-empty) folder. */
  predicate CanStart(entry: string, folder: string) {
    AcceptedAddress(Strip(entry)) && folder != ""
  }

  /** The address checks: not empty, and with the playlist prefix. */
  predicate AcceptedAddress(url: string) {
    url != [] && StartsWith(url, WebPlaylistPrefix)
  }

  /** The press starts a new run: no run is on and the start checks pass. */
  predicate StartsRun(s: Panel, cmd: Command) {
    !s.downloading && cmd.Press? && CanStart(cmd.entry, s.folder)
  }

  /** A press's effect on the run state. A run is switched on only by a press
      that passes the start checks while none is on, and that clears the
      statistics; during a run the button flips the pause and stop ends the
      run; nothing else changes anything. */
  function Apply(s: Panel, cmd: Command): (r: Panel)
    ensures r.folder == s.folder
    ensures (r.downloading && !s.downloading) <==> StartsRun(s, cmd)
    ensures StartsRun(s, cmd) ==> Running(r) && r.successful == 0 && r.failed == 0 && r.total == 0
    ensures !s.downloading && !StartsRun(s, cmd) ==> r == s
    ensures s.downloading ==> r.successful == s.successful && r.failed == s.failed && r.total == s.total
    ensures cmd == Stop ==> !r.downloading
    ensures s.downloading && cmd.Press? ==> r.downloading && r.paused == !s.paused
  {
    match cmd
    case Press(entry) =>
      if s.downloading then s.(paused := !s.paused)
      else if CanStart(entry, s.folder) then Panel(true, false, 0, 0, 0, s.folder)
      else s
    case Stop =>
      if s.downloading then s.(downloading := false, paused := false) else s
  }

  /** A track's verdict counted: a success or a failure; an exception counts
      as neither. */
  function Counted(s: Panel, o: UnitOutcome): Panel {
    s.(successful := s.successful + (if o == Done(true) then 1 else 0),
       failed := s.failed + (if o == Done(false) then 1 else 0))
  }

  /** One event's effect on the run state. */
  function Step(s: Panel, e: Event): Panel {
    match e
    case Delivered(cmd) => Apply(s, cmd)
    case Checked => s
    case Processed(_, o) => Counted(s, o)
  }

  /** The run state after `events`, from `start`. */
  function PanelAfter(start: Panel, events: seq<Event>): Panel {
    if events == [] then start
    else Step(PanelAfter(start, events[..|events| - 1]), events[|events| - 1])
  }

  /** Some press in `events` started a new run. */
  predicate Restarted(start: Panel, events: seq<Event>) {
    if events == [] then false
    else
      var init := events[..|events| - 1];
      var e := events[|events| - 1];
      Restarted(start, init) || (e.Delivered? && StartsRun(PanelAfter(start, init), e.cmd))
  }

  /** The presses delivered, in order. */
  function Commands(events: seq<Event>): seq<Command> {
    if events == [] then []
    else
      Commands(events[..|events| - 1])
      + match events[|events| - 1] case Delivered(cmd) => [cmd] case Checked => [] case Processed(_, _) => []
  }

  /** The tracks processed, in order, with what came back for each. */
  function Log(events: seq<Event>): seq<(nat, UnitOutcome)> {
    if events == [] then []
    else
      Log(events[..|events| - 1])
      + match events[|events| - 1] case Delivered(_) => [] case Checked => [] case Processed(i, o) => [(i, o)]
  }

  /** The number of processed tracks that came back with `o`. */
  function Hits(log: seq<(nat, UnitOutcome)>, o: UnitOutcome): nat {
    if log == [] then 0
    else Hits(log[..|log| - 1], o) + (if log[|log| - 1].1 == o then 1 else 0)
  }

  /** The presses made before poll point `d`. */
  function ScriptAt(script: seq<seq<Command>>, d: nat): seq<Command> {
    if d < |script| then script[d] else []
  }

  /** The presses delivered at the first `n` poll points, in order. */
  function Batches(script: seq<seq<Command>>, n: nat): seq<Command> {
    if n == 0 then [] else Batches(script, n - 1) + ScriptAt(script, n - 1)
  }

  /** The latest event is a check. */
  predicate AtCheck(events: seq<Event>) {
    events != [] && events[|events| - 1].Checked?
  }

  /** The number of poll points whose check has been made. */
  function Checks(events: seq<Event>): nat {
    if events == [] then 0
    else Checks(events[..|events| - 1]) + (if events[|events| - 1].Checked? then 1 else 0)
  }

  /** Every track was processed right after a check that found a run on and
      not paused. */
  predicate Gated(start: Panel, events: seq<Event>) {
    if events == [] then true
    else
      var init := events[..|events| - 1];
      && Gated(start, init)
      && (events[|events| - 1].Processed? ==>
            AtCheck(init) && Running(PanelAfter(start, init)))
  }

  /** Each check sees the presses of its own and all earlier poll points,
      and no others. */
  predicate Synced(events: seq<Event>, script: seq<seq<Command>>) {
    if events == [] then true
    else
      var init := events[..|events| - 1];
      && Synced(init, script)
      && (events[|events| - 1].Checked? ==> Commands(init) == Batches(script, Checks(init) + 1))
  }

  /** In a gated trace, each processed track comes right after a check, and
      the state then was running and unpaused. */
  lemma {:induction false} GatedMeans(start: Panel, events: seq<Event>, p: nat)
    requires Gated(start, events) && p < |events|
    ensures events[p].Processed? ==>
      p > 0 && events[p - 1].Checked? && Running(PanelAfter(start, events[..p]))
  {
    var init := events[..|events| - 1];
    if p < |events| - 1 {
      assert init[p] == events[p] && init[..p] == events[..p];
      GatedMeans(start, init, p);
      if p > 0 {
        assert init[p - 1] == events[p - 1];
      }
    } else {
      assert events[..p] == init;
    }
  }

  /** In a synced trace, the check of the `c`-th poll point (counting from 1)
      has seen the presses of the first `c` poll points. */
  lemma {:induction false} SyncedMeans(events: seq<Event>, script: seq<seq<Command>>, p: nat)
    requires Synced(events, script) && p < |events|
    ensures events[p].Checked? ==> Commands(events[..p]) == Batches(script, Checks(events[..p]) + 1)
  {
    var init := events[..|events| - 1];
    if p < |events| - 1 {
      assert init[p] == events[p] && init[..p] == events[..p];
      SyncedMeans(init, script, p);
    } else {
      assert events[..p] == init;
    }
  }

  /** The presses applied one after another. */
  function ApplyAll(s: Panel, cmds: seq<Command>): Panel {
    if cmds == [] then s else Apply(ApplyAll(s, cmds[..|cmds| - 1]), cmds[|cmds| - 1])
  }

  /** Two states with the same flags and folder. */
  predicate SameFlags(a: Panel, b: Panel) {
    a.downloading == b.downloading && a.paused == b.paused && a.folder == b.folder
  }

  /** A press's effect on the flags depends on the flags and the folder only. */
  lemma ApplyFlags(a: Panel, b: Panel, cmd: Command)
    requires SameFlags(a, b)
    ensures SameFlags(Apply(a, cmd), Apply(b, cmd))
  {
  }

  /** The flags after a trace are those the presses in it produce, whatever
      tracks were processed in between. */
  lemma {:induction false} FlagsFollowPresses(start: Panel, events: seq<Event>)
    ensures SameFlags(PanelAfter(start, events), ApplyAll(start, Commands(events)))
  {
    if events != [] {
      var init := events[..|events| - 1];
      var e := events[|events| - 1];
      FlagsFollowPresses(start, init);
      assert events == init + [e];
      AppendRecord(init, e);
      if e.Delivered? {
        var cmds := Commands(init) + [e.cmd];
        assert cmds[..|cmds| - 1] == Commands(init);
        ApplyFlags(PanelAfter(start, init), ApplyAll(start, Commands(init)), e.cmd);
      }
    }
  }

  /** The loop follows the script: every processed track comes right after
      the check of some poll point `c`, counting from 1, that check saw
      exactly the presses of the first `c` poll points, and those presses,
      applied from the start state, leave a run on and unpaused. */
  lemma TrackFollowsScript(start: Panel, events: seq<Event>, script: seq<seq<Command>>, p: nat)
    requires Gated(start, events) && Synced(events, script) && p < |events|
    ensures events[p].Processed? ==>
      && Checks(events[..p]) >= 1
      && Commands(events[..p]) == Batches(script, Checks(events[..p]))
      && Running(ApplyAll(start, Batches(script, Checks(events[..p]))))
  {
    if events[p].Processed? {
      GatedMeans(start, events, p);
      SyncedMeans(events, script, p - 1);
      var pre := events[..p - 1];
      assert events[..p] == pre + [Checked];
      assert events[..p][..p - 1] == pre;
      FlagsFollowPresses(start, events[..p]);
    }
  }

  /** With stop as the only press, made before the first check, no track is
      ever processed. */
  lemma FirstCheckSeesStop(start: Panel, events: seq<Event>, p: nat)
    requires Gated(start, events) && Synced(events, [[Stop]]) && p < |events|
    ensures !events[p].Processed?
  {
    TrackFollowsScript(start, events, [[Stop]], p);
    BatchesOfStop(Checks(events[..p]));
    var one: seq<Command> := [Stop];
    assert one[..0] == [];
  }

  /** The presses of the first `n` poll points of the one-stop script. */
  lemma {:induction false} BatchesOfStop(n: nat)
    ensures n >= 1 ==> Batches([[Stop]], n) == [Stop]
  {
    if n > 1 {
      BatchesOfStop(n - 1);
    }
  }

  /** The tracks are processed one by one from the first; `outcomeAt(k)` is
      what came back for the `k`-th. */
  predicate InOrder(events: seq<Event>, tracks: seq<TrackInfo>, outcomeAt: nat -> UnitOutcome) {
    && |Log(events)| <= |tracks|
    && forall k :: 0 <= k < |Log(events)| ==> Log(events)[k] == (k, outcomeAt(k))
  }

  /** Running a trace in two parts is running the second from where the first ends. */
  lemma {:induction false} PanelAfterAppend(start: Panel, a: seq<Event>, b: seq<Event>)
    ensures PanelAfter(start, a + b) == PanelAfter(PanelAfter(start, a), b)
    decreases |b|
  {
    if b == [] {
      assert a + b == a;
    } else {
      var init := b[..|b| - 1];
      assert (a + b)[..|a + b| - 1] == a + init;
      assert (a + b)[|a + b| - 1] == b[|b| - 1];
      PanelAfterAppend(start, a, init);
    }
  }

  /** Once a run is off, it stays off until a press starts a new one. */
  lemma {:induction false} OffUntilStart(s: Panel, more: seq<Event>)
    requires !s.downloading && !Restarted(s, more)
    ensures !PanelAfter(s, more).downloading
    decreases |more|
  {
    if more != [] {
      OffUntilStart(s, more[..|more| - 1]);
    }
  }

  /** After a stop is delivered, no track is processed unless a press has
      started a new run in between. */
  lemma NothingAfterStop(start: Panel, events: seq<Event>, p: nat, q: nat)
    requires Gated(start, events)
    requires p < q < |events| && events[p] == Delivered(Stop)
    requires !Restarted(PanelAfter(start, events[..p + 1]), events[p + 1..q])
    ensures !events[q].Processed?
  {
    var pre := events[..p + 1];
    assert pre[..p] == events[..p] && pre[p] == Delivered(Stop);
    assert !PanelAfter(start, pre).downloading;
    OffUntilStart(PanelAfter(start, pre), events[p + 1..q]);
    PanelAfterAppend(start, pre, events[p + 1..q]);
    assert pre + events[p + 1..q] == events[..q];
    GatedMeans(start, events, q);
  }

  /** The loop of a stopped run comes back to life: when stop and then a
      valid start are pressed after a track was counted and before the next
      check, that check passes, the loop goes on with its next track, and
      that track is counted into the new run's statistics, whose total is
      still 0. */
  lemma RestartRevivesLoop(s: Panel, entry: string, o: bool)
    requires Running(s) && CanStart(entry, s.folder)
    ensures var events := [Delivered(Stop), Delivered(Press(entry)), Checked, Processed(0, Done(o))];
      && Gated(s, events) && Synced(events, [[Stop, Press(entry)]])
      && Running(PanelAfter(s, events[..3]))
      && var r := PanelAfter(s, events);
         r.successful + r.failed == 1 && r.total == 0
  {
    var script := [[Stop, Press(entry)]];
    var e0: seq<Event> := [];
    var e1 := e0 + [Delivered(Stop)];
    var e2 := e1 + [Delivered(Press(entry))];
    var e3 := e2 + [Checked];
    DeliveryStep(s, e0, script, Stop);
    DeliveryStep(s, e1, script, Press(entry));
    assert StartsRun(PanelAfter(s, e1), Press(entry));
    assert Batches(script, 1) == [Stop, Press(entry)] by {
      assert Batches(script, 0) == [];
    }
    CheckStep(s, e2, script);
    AppendEvent(s, e3, Processed(0, Done(o)));
    AppendSynced(e3, script, Processed(0, Done(o)));
    var events := e3 + [Processed(0, Done(o))];
    assert events == [Delivered(Stop), Delivered(Press(entry)), Checked, Processed(0, Done(o))];
    assert events[..3] == e3;
  }

  /** The two counters together never grow by more than the number of tracks
      processed. */
  lemma {:induction false} CountsWithinProcessed(start: Panel, events: seq<Event>)
    ensures PanelAfter(start, events).successful + PanelAfter(start, events).failed
            <= start.successful + start.failed + |Log(events)|
  {
    if events != [] {
      CountsWithinProcessed(start, events[..|events| - 1]);
    }
  }

  /** Without a restart the total stays, and each counter grows by the
      number of tracks that came back with its verdict. */
  lemma {:induction false} CountsWithoutRestart(start: Panel, events: seq<Event>)
    requires !Restarted(start, events)
    ensures PanelAfter(start, events).total == start.total
    ensures PanelAfter(start, events).successful == start.successful + Hits(Log(events), Done(true))
    ensures PanelAfter(start, events).failed == start.failed + Hits(Log(events), Done(false))
  {
    if events != [] {
      var init := events[..|events| - 1];
      assert !Restarted(start, init);
      CountsWithoutRestart(start, init);
      var e := events[|events| - 1];
      assert events == init + [e];
      StepCounts(PanelAfter(start, init), e);
      HitsStep(init, e, Done(true));
      HitsStep(init, e, Done(false));
    }
  }

  /** Successes and failures together are at most the tracks processed. */
  lemma {:induction false} HitsWithin(log: seq<(nat, UnitOutcome)>)
    ensures Hits(log, Done(true)) + Hits(log, Done(false)) <= |log|
  {
    if log != [] {
      HitsWithin(log[..|log| - 1]);
    }
  }

  /** In a run started with cleared counters and the number of its tracks as
      total, and not restarted, successes plus failures stay within the
      total. */
  lemma CountsWithinTotal(start: Panel, events: seq<Event>, tracks: seq<TrackInfo>, outcomeAt: nat -> UnitOutcome)
    requires InOrder(events, tracks, outcomeAt) && !Restarted(start, events)
    requires start.successful == 0 && start.failed == 0 && start.total == |tracks|
    ensures PanelAfter(start, events).successful + PanelAfter(start, events).failed
            <= PanelAfter(start, events).total
  {
    CountsWithoutRestart(start, events);
    HitsWithin(Log(events));
  }

  /** One more event: the state takes one step, and the trace stays gated
      when a processed track comes right after a check that found the run on
      and unpaused. */
  lemma AppendEvent(start: Panel, events: seq<Event>, e: Event)
    ensures PanelAfter(start, events + [e]) == Step(PanelAfter(start, events), e)
    ensures Gated(start, events)
            && (e.Processed? ==> AtCheck(events) && Running(PanelAfter(start, events)))
            ==> Gated(start, events + [e])
  {
    var all := events + [e];
    assert all[..|all| - 1] == events;
  }

  /** One more event: a press joins the presses, a processed track the log,
      a check the checks. */
  lemma AppendRecord(events: seq<Event>, e: Event)
    ensures Commands(events + [e]) == if e.Delivered? then Commands(events) + [e.cmd] else Commands(events)
    ensures Log(events + [e]) == if e.Processed? then Log(events) + [(e.index, e.outcome)] else Log(events)
    ensures Checks(events + [e]) == Checks(events) + if e.Checked? then 1 else 0
  {
    var all := events + [e];
    assert all[..|all| - 1] == events;
  }

  /** One more event keeps the trace synced, a check only when it has seen
      the presses of its own and all earlier poll points. */
  lemma AppendSynced(events: seq<Event>, script: seq<seq<Command>>, e: Event)
    requires Synced(events, script)
    requires e.Checked? ==> Commands(events) == Batches(script, Checks(events) + 1)
    ensures Synced(events + [e], script)
  {
    var all := events + [e];
    assert all[..|all| - 1] == events;
  }

  /** A step that does not start a run keeps the total and counts a track's
      verdict. */
  lemma StepCounts(s: Panel, e: Event)
    requires !(e.Delivered? && StartsRun(s, e.cmd))
    ensures Step(s, e).total == s.total
    ensures Step(s, e).successful == s.successful + (if e.Processed? && e.outcome == Done(true) then 1 else 0)
    ensures Step(s, e).failed == s.failed + (if e.Processed? && e.outcome == Done(false) then 1 else 0)
  {
  }

  /** One more event adds a hit exactly when it is a track with that verdict. */
  lemma HitsStep(events: seq<Event>, e: Event, o: UnitOutcome)
    ensures Hits(Log(events + [e]), o) == Hits(Log(events), o) + (if e.Processed? && e.outcome == o then 1 else 0)
  {
    AppendRecord(events, e);
    var log := Log(events + [e]);
    if e.Processed? {
      assert log[..|log| - 1] == Log(events);
    }
  }

  /** A press delivered at a poll point changes the state as `Apply` says and
      processes no track. */
  lemma DeliveryStep(start: Panel, events0: seq<Event>, script: seq<seq<Command>>, cmd: Command)
    requires Gated(start, events0) && Synced(events0, script)
    ensures var events := events0 + [Delivered(cmd)];
      && PanelAfter(start, events) == Apply(PanelAfter(start, events0), cmd)
      && Gated(start, events) && Synced(events, script)
      && Commands(events) == Commands(events0) + [cmd]
      && Log(events) == Log(events0) && Checks(events) == Checks(events0)
  {
    AppendEvent(start, events0, Delivered(cmd));
    AppendRecord(events0, Delivered(cmd));
    AppendSynced(events0, script, Delivered(cmd));
  }

  /** The check that closes a poll point, once all its presses are in,
      changes nothing and counts one more poll point. */
  lemma CheckStep(start: Panel, events0: seq<Event>, script: seq<seq<Command>>)
    requires Gated(start, events0) && Synced(events0, script)
    requires Commands(events0) == Batches(script, Checks(events0) + 1)
    ensures var events := events0 + [Checked];
      && PanelAfter(start, events) == PanelAfter(start, events0)
      && Gated(start, events) && Synced(events, script)
      && Commands(events) == Commands(events0) && Log(events) == Log(events0)
      && Checks(events) == Checks(events0) + 1
  {
    AppendEvent(start, events0, Checked);
    AppendRecord(events0, Checked);
    AppendSynced(events0, script, Checked);
  }

  /** Processing the next track while running and unpaused counts its
      verdict, keeps the trace gated and adds its report in order. */
  lemma ProcessStep(start: Panel, events0: seq<Event>, script: seq<seq<Command>>,
                    tracks: seq<TrackInfo>, outcomeAt: nat -> UnitOutcome, i: nat)
    requires i < |tracks| && Running(PanelAfter(start, events0))
    requires Gated(start, events0) && Synced(events0, script)
    requires AtCheck(events0)
    requires |Log(events0)| == i && InOrder(events0, tracks, outcomeAt)
    ensures var events := events0 + [Processed(i, outcomeAt(i))];
      && PanelAfter(start, events) == Counted(PanelAfter(start, events0), outcomeAt(i))
      && Commands(events) == Commands(events0) && Checks(events) == Checks(events0)
      && Gated(start, events) && Synced(events, script)
      && |Log(events)| == i + 1 && InOrder(events, tracks, outcomeAt)
  {
    AppendEvent(start, events0, Processed(i, outcomeAt(i)));
    AppendRecord(events0, Processed(i, outcomeAt(i)));
    AppendSynced(events0, script, Processed(i, outcomeAt(i)));
    InOrderGrows(Log(events0), tracks, outcomeAt);
  }

  /** The next track's report extends an in-order log. */
  lemma InOrderGrows(log: seq<(nat, UnitOutcome)>, tracks: seq<TrackInfo>, outcomeAt: nat -> UnitOutcome)
    requires |log| < |tracks| && forall k :: 0 <= k < |log| ==> log[k] == (k, outcomeAt(k))
    ensures var log' := log + [(|log|, outcomeAt(|log|))];
      forall k :: 0 <= k < |log'| ==> log'[k] == (k, outcomeAt(k))
  {
  }

  /** The next event of a poll point under way: the next press of its batch
      not yet delivered, or the check once all of them are in. */
  function PollNext(events: seq<Event>, script: seq<seq<Command>>): (e: Event)
    ensures e.Delivered? ==> e.cmd in Batches(script, Checks(events) + 1)
  {
    var due := Batches(script, Checks(events) + 1);
    var d := |Commands(events)|;
    if d < |due| then Delivered(due[d]) else Checked
  }

  /** What the track loop does next, for `n` tracks, after `events`: the
      loop starts with a poll point when there is a track; a check that finds
      the run off leaves the loop; one that finds it on and unpaused hands
      over the next track; one that finds it paused waits for the next poll
      point, and leaves the loop (waiting for ever) once the script is used
      up; after a track the next iteration's poll point follows, unless the
      track raised or was the last; after a press its poll point goes on. */
  function NextEvent(start: Panel, events: seq<Event>, script: seq<seq<Command>>,
                     n: nat, outcomeAt: nat -> UnitOutcome): Option<Event>
  {
    if events == [] then
      if n == 0 then None else Some(PollNext(events, script))
    else
      var e := events[|events| - 1];
      var s := PanelAfter(start, events);
      var done := |Log(events)|;
      if e.Checked? then
        if !s.downloading then None
        else if !s.paused then Some(Processed(done, outcomeAt(done)))
        else if Checks(events) >= |script| then None
        else Some(PollNext(events, script))
      else if e.Processed? && (e.outcome == Raised || done >= n) then None
      else Some(PollNext(events, script))
  }

  /** Every event is the one the loop produces after the events before it. */
  predicate Follows(start: Panel, events: seq<Event>, script: seq<seq<Command>>,
                    n: nat, outcomeAt: nat -> UnitOutcome)
  {
    if events == [] then true
    else
      var init := events[..|events| - 1];
      Follows(start, init, script, n, outcomeAt)
      && NextEvent(start, init, script, n, outcomeAt) == Some(events[|events| - 1])
  }

  /** The loop's next event, appended, keeps the trace following the loop. */
  lemma FollowsStep(start: Panel, events: seq<Event>, script: seq<seq<Command>>,
                    n: nat, outcomeAt: nat -> UnitOutcome, e: Event)
    requires Follows(start, events, script, n, outcomeAt)
    requires NextEvent(start, events, script, n, outcomeAt) == Some(e)
    ensures Follows(start, events + [e], script, n, outcomeAt)
  {
    var all := events + [e];
    assert all[..|all| - 1] == events;
  }

  /** In a trace that follows the loop, each event is the one the loop
      produces after the events before it. */
  lemma {:induction false} FollowsMeans(start: Panel, events: seq<Event>, script: seq<seq<Command>>,
                                        n: nat, outcomeAt: nat -> UnitOutcome, k: nat)
    requires Follows(start, events, script, n, outcomeAt)
    ensures k < |events| ==> NextEvent(start, events[..k], script, n, outcomeAt) == Some(events[k])
  {
    if k < |events| {
      var init := events[..|events| - 1];
      if k == |events| - 1 {
        assert events[..k] == init;
      } else {
        assert init[..k] == events[..k] && init[k] == events[k];
        FollowsMeans(start, init, script, n, outcomeAt, k);
      }
    }
  }

  /** Two traces that follow the loop agree on their common length. */
  lemma {:induction false} CommonPrefix(start: Panel, a: seq<Event>, b: seq<Event>, script: seq<seq<Command>>,
                                        n: nat, outcomeAt: nat -> UnitOutcome, k: nat)
    requires Follows(start, a, script, n, outcomeAt) && Follows(start, b, script, n, outcomeAt)
    requires k <= |a| && k <= |b|
    ensures a[..k] == b[..k]
  {
    if k > 0 {
      CommonPrefix(start, a, b, script, n, outcomeAt, k - 1);
      FollowsMeans(start, a, script, n, outcomeAt, k - 1);
      FollowsMeans(start, b, script, n, outcomeAt, k - 1);
      TakeSnoc(a, k);
      TakeSnoc(b, k);
    }
  }

  /** A prefix is the one before it and its last element. */
  lemma TakeSnoc<T>(s: seq<T>, k: nat)
    requires 0 < k <= |s|
    ensures s[..k] == s[..k - 1] + [s[k - 1]]
  {
  }

  /** The loop's trace is determined: two traces that follow the loop to
      its end, from the same state, for the same tracks, results and
      script, are the same. */
  lemma TraceUnique(start: Panel, a: seq<Event>, b: seq<Event>, script: seq<seq<Command>>,
                    n: nat, outcomeAt: nat -> UnitOutcome)
    requires Follows(start, a, script, n, outcomeAt) && NextEvent(start, a, script, n, outcomeAt).None?
    requires Follows(start, b, script, n, outcomeAt) && NextEvent(start, b, script, n, outcomeAt).None?
    ensures a == b
  {
    var m := if |a| <= |b| then |a| else |b|;
    CommonPrefix(start, a, b, script, n, outcomeAt, m);
    FollowsMeans(start, a, script, n, outcomeAt, m);
    FollowsMeans(start, b, script, n, outcomeAt, m);
    assert a[..|a|] == a && b[..|b|] == b;
  }

  /** A check that finds the run off is the loop's last event. */
  lemma NothingAfterOffCheck(start: Panel, events: seq<Event>, script: seq<seq<Command>>,
                             n: nat, outcomeAt: nat -> UnitOutcome, p: nat)
    requires Follows(start, events, script, n, outcomeAt)
    requires p < |events| && events[p].Checked? && !PanelAfter(start, events[..p + 1]).downloading
    ensures |events| == p + 1
  {
    assert events[..p + 1][p] == events[p];
    FollowsMeans(start, events, script, n, outcomeAt, p + 1);
  }

  /** At the head of the loop, before any track or after one: the loop
      ends after a track that raised or once every track is processed, and
      otherwise a poll point follows. */
  lemma AfterTrack(start: Panel, events: seq<Event>, script: seq<seq<Command>>,
                   n: nat, outcomeAt: nat -> UnitOutcome)
    requires events == [] || events[|events| - 1].Processed?
    ensures NextEvent(start, events, script, n, outcomeAt)
            == if (events != [] && events[|events| - 1].outcome == Raised) || |Log(events)| >= n then None
               else Some(PollNext(events, script))
  {
  }

  /** The events that record the delivery of `cmds`, in order. */
  function Deliveries(cmds: seq<Command>): (r: seq<Event>)
    ensures |r| == |cmds|
  {
    if cmds == [] then [] else Deliveries(cmds[..|cmds| - 1]) + [Delivered(cmds[|cmds| - 1])]
  }

  /** From the start of a poll point, delivering the first `k` presses of its
      batch is what the loop does, and the poll point goes on: it ends with
      its check once the whole batch is delivered. */
  lemma {:induction false} BatchFollows(start: Panel, events0: seq<Event>, script: seq<seq<Command>>,
                                         n: nat, outcomeAt: nat -> UnitOutcome, k: nat)
    requires k <= |ScriptAt(script, Checks(events0))|
    requires Commands(events0) == Batches(script, Checks(events0))
    requires Follows(start, events0, script, n, outcomeAt)
    requires NextEvent(start, events0, script, n, outcomeAt) == Some(PollNext(events0, script))
    ensures var batch := ScriptAt(script, Checks(events0));
      var events := events0 + Deliveries(batch[..k]);
      && Checks(events) == Checks(events0) && Commands(events) == Commands(events0) + batch[..k]
      && Follows(start, events, script, n, outcomeAt)
      && NextEvent(start, events, script, n, outcomeAt)
         == Some(if k < |batch| then Delivered(batch[k]) else Checked)
  {
    var batch := ScriptAt(script, Checks(events0));
    if k == 0 {
      assert events0 + Deliveries(batch[..0]) == events0;
      PollNextIn(events0, script, 0);
    } else {
      BatchFollows(start, events0, script, n, outcomeAt, k - 1);
      var before := events0 + Deliveries(batch[..k - 1]);
      DeliveryStepFollows(start, before, script, n, outcomeAt, batch[k - 1]);
      var after := before + [Delivered(batch[k - 1])];
      DeliveriesSnoc(events0, batch, k);
      PollNextIn(after, script, k);
    }
  }

  /** A whole poll point, its batch delivered and then the check, is what
      the loop does from the start of that poll point. */
  lemma PollFollows(start: Panel, events0: seq<Event>, script: seq<seq<Command>>,
                    n: nat, outcomeAt: nat -> UnitOutcome, pos: nat)
    requires Checks(events0) == pos && Commands(events0) == Batches(script, pos)
    requires Follows(start, events0, script, n, outcomeAt)
    requires NextEvent(start, events0, script, n, outcomeAt) == Some(PollNext(events0, script))
    ensures Follows(start, events0 + Deliveries(ScriptAt(script, pos)) + [Checked], script, n, outcomeAt)
  {
    var batch := ScriptAt(script, pos);
    BatchFollows(start, events0, script, n, outcomeAt, |batch|);
    assert batch[..|batch|] == batch;
    FollowsStep(start, events0 + Deliveries(batch), script, n, outcomeAt, Checked);
  }

  /** Recording the first `k` presses is recording the first `k - 1` and
      then the `k`-th. */
  lemma DeliveriesSnoc(events0: seq<Event>, cmds: seq<Command>, k: nat)
    requires 0 < k <= |cmds|
    ensures events0 + Deliveries(cmds[..k]) == events0 + Deliveries(cmds[..k - 1]) + [Delivered(cmds[k - 1])]
    ensures Commands(events0) + cmds[..k] == Commands(events0) + cmds[..k - 1] + [cmds[k - 1]]
  {
    assert cmds[..k][..k - 1] == cmds[..k - 1];
    assert cmds[..k] == cmds[..k - 1] + [cmds[k - 1]];
  }

  /** A press the loop delivers next keeps the trace following the loop,
      counts no check and adds that press. */
  lemma DeliveryStepFollows(start: Panel, events: seq<Event>, script: seq<seq<Command>>,
                            n: nat, outcomeAt: nat -> UnitOutcome, cmd: Command)
    requires Follows(start, events, script, n, outcomeAt)
    requires NextEvent(start, events, script, n, outcomeAt) == Some(Delivered(cmd))
    ensures var after := events + [Delivered(cmd)];
      && Follows(start, after, script, n, outcomeAt)
      && NextEvent(start, after, script, n, outcomeAt) == Some(PollNext(after, script))
      && Checks(after) == Checks(events) && Commands(after) == Commands(events) + [cmd]
  {
    FollowsStep(start, events, script, n, outcomeAt, Delivered(cmd));
    AppendRecord(events, Delivered(cmd));
    var after := events + [Delivered(cmd)];
    assert after[|after| - 1] == Delivered(cmd);
  }

  /** Within a poll point, with the first `k` presses of its batch
      delivered, the next event is the next press, or the check once all of
      them are in. */
  lemma PollNextIn(events: seq<Event>, script: seq<seq<Command>>, k: nat)
    requires k <= |ScriptAt(script, Checks(events))|
    requires Commands(events) == Batches(script, Checks(events)) + ScriptAt(script, Checks(events))[..k]
    ensures PollNext(events, script)
            == if k < |ScriptAt(script, Checks(events))| then Delivered(ScriptAt(script, Checks(events))[k])
               else Checked
  {
    var c := Checks(events);
    assert Batches(script, c + 1) == Batches(script, c) + ScriptAt(script, c);
  }

  /** What the track loop promises, from the state `start` it began with to
      the state `now` it leaves: tracks are processed in order, each right
      after the check of a poll point that found the run on and unpaused;
      each check saw the presses of its own and all earlier poll points,
      and `polls` checks were made; every event is the one the loop
      produces after the events before it, and after the last the loop has
      nothing more to do; the statistics are those the events produce and
      the folder stays; an exception from a track, and only that, ends the
      run as failed, right after that track; a completed run processed
      every track, the last one last, or ended at a check that found the run
      off; a run left paused ended at a check, with the script used up. */
  ghost predicate LoopResult(start: Panel, now: Panel, end: RunEnd, events: seq<Event>, polls: nat,
                             tracks: seq<TrackInfo>, outcomeAt: nat -> UnitOutcome,
                             script: seq<seq<Command>>)
  {
    && Gated(start, events) && Synced(events, script) && Checks(events) == polls
    && Commands(events) == Batches(script, polls)
    && InOrder(events, tracks, outcomeAt)
    && Follows(start, events, script, |tracks|, outcomeAt)
    && NextEvent(start, events, script, |tracks|, outcomeAt).None?
    && var s := PanelAfter(start, events);
    && now.successful == s.successful && now.failed == s.failed && now.total == s.total
    && now.folder == start.folder
    && (end == CompletedFailed <==> exists k :: 0 <= k < |Log(events)| && outcomeAt(k) == Raised)
    && (end == CompletedFailed ==> events != [] && events[|events| - 1] == Processed(|Log(events)| - 1, Raised))
    && (end == CompletedOk ==> |Log(events)| == |tracks| || !s.downloading)
    && (end == CompletedOk ==> FinishedOk(start, events, tracks, outcomeAt))
    && (end == StillPaused ==> now.downloading && now.paused && s.downloading && s.paused && polls >= |script|)
    && (end == StillPaused ==> AtCheck(events))
    && (end != StillPaused ==> !now.downloading && !now.paused)
  }

  /** How a loop that completes normally ends: without tracks it does
      nothing, otherwise at a check that found the run off, or right after
      its last track. */
  predicate FinishedOk(start: Panel, events: seq<Event>, tracks: seq<TrackInfo>, outcomeAt: nat -> UnitOutcome) {
    || (events == [] && tracks == [])
    || (AtCheck(events) && !PanelAfter(start, events).downloading)
    || (|tracks| > 0 && events != []
        && events[|events| - 1] == Processed(|tracks| - 1, outcomeAt(|tracks| - 1)))
  }

  /** None of the first `n` tracks raised an exception. */
  predicate NoneRaised(outcomeAt: nat -> UnitOutcome, n: nat) {
    forall k :: 0 <= k < n ==> outcomeAt(k) != Raised
  }

  /** The state `now` is the one the events produce from `start`, every
      track so far was processed right after a check that found the run on
      and unpaused, each check saw the presses due by then, and `polls`
      checks were made, after the presses of the first `polls` poll points. */
  ghost predicate Traced(start: Panel, now: Panel, events: seq<Event>, script: seq<seq<Command>>, polls: nat) {
    && now == PanelAfter(start, events) && Gated(start, events) && Synced(events, script)
    && Checks(events) == polls && Commands(events) == Batches(script, polls)
  }

  /** No press changes the selected folder. */
  lemma {:induction false} FolderStays(start: Panel, events: seq<Event>)
    ensures PanelAfter(start, events).folder == start.folder
  {
    if events != [] {
      FolderStays(start, events[..|events| - 1]);
    }
  }

  /** The loop left paused with the script used up. */
  lemma EndsPaused(start: Panel, now: Panel, events: seq<Event>, polls: nat,
                   tracks: seq<TrackInfo>, outcomeAt: nat -> UnitOutcome, script: seq<seq<Command>>)
    requires Traced(start, now, events, script, polls) && InOrder(events, tracks, outcomeAt)
    requires Follows(start, events, script, |tracks|, outcomeAt)
    requires NextEvent(start, events, script, |tracks|, outcomeAt).None?
    requires now.downloading && now.paused && polls >= |script| && AtCheck(events)
    requires NoneRaised(outcomeAt, |Log(events)|)
    ensures LoopResult(start, now, StillPaused, events, polls, tracks, outcomeAt, script)
  {
    FolderStays(start, events);
  }

  /** The loop ended by a track that raised, the last event. */
  lemma EndsFailed(start: Panel, now: Panel, events: seq<Event>, polls: nat,
                   tracks: seq<TrackInfo>, outcomeAt: nat -> UnitOutcome, script: seq<seq<Command>>)
    requires Traced(start, now, events, script, polls) && InOrder(events, tracks, outcomeAt)
    requires Follows(start, events, script, |tracks|, outcomeAt)
    requires NextEvent(start, events, script, |tracks|, outcomeAt).None?
    requires events != [] && |Log(events)| > 0
    requires events[|events| - 1] == Processed(|Log(events)| - 1, Raised)
    requires outcomeAt(|Log(events)| - 1) == Raised
    ensures LoopResult(start, now.(downloading := false, paused := false), CompletedFailed,
                       events, polls, tracks, outcomeAt, script)
  {
    FolderStays(start, events);
  }

  /** The loop ended with every track processed, or by a stop. */
  lemma EndsOk(start: Panel, now: Panel, events: seq<Event>, polls: nat,
               tracks: seq<TrackInfo>, outcomeAt: nat -> UnitOutcome, script: seq<seq<Command>>)
    requires Traced(start, now, events, script, polls) && InOrder(events, tracks, outcomeAt)
    requires Follows(start, events, script, |tracks|, outcomeAt)
    requires NextEvent(start, events, script, |tracks|, outcomeAt).None?
    requires FinishedOk(start, events, tracks, outcomeAt)
    requires |Log(events)| == |tracks| || !now.downloading
    requires NoneRaised(outcomeAt, |Log(events)|)
    ensures LoopResult(start, now.(downloading := false, paused := false), CompletedOk,
                       events, polls, tracks, outcomeAt, script)
  {
    FolderStays(start, events);
  }

  /** The loop's result is determined by where it starts, the tracks,
      their results and the presses: two results agree on the trace, the
      number of poll points, the end and the final state. */
  lemma LoopResultUnique(start: Panel, tracks: seq<TrackInfo>, outcomeAt: nat -> UnitOutcome,
                         script: seq<seq<Command>>,
                         now1: Panel, end1: RunEnd, events1: seq<Event>, polls1: nat,
                         now2: Panel, end2: RunEnd, events2: seq<Event>, polls2: nat)
    requires LoopResult(start, now1, end1, events1, polls1, tracks, outcomeAt, script)
    requires LoopResult(start, now2, end2, events2, polls2, tracks, outcomeAt, script)
    ensures events1 == events2 && polls1 == polls2 && end1 == end2 && now1 == now2
  {
    TraceUnique(start, events1, events2, script, |tracks|, outcomeAt);
  }

  /** A stop delivered with no new run started after it ends the loop at
      the next check: that check is the last event, no track follows, and
      the run completes. */
  lemma StopLeavesAtNextCheck(start: Panel, now: Panel, end: RunEnd, events: seq<Event>, polls: nat,
                              tracks: seq<TrackInfo>, outcomeAt: nat -> UnitOutcome,
                              script: seq<seq<Command>>, p: nat, q: nat)
    requires LoopResult(start, now, end, events, polls, tracks, outcomeAt, script)
    requires p < q < |events| && events[p] == Delivered(Stop) && events[q].Checked?
    requires !Restarted(PanelAfter(start, events[..p + 1]), events[p + 1..q])
    ensures |events| == q + 1 && end == CompletedOk
  {
    var pre := events[..p + 1];
    assert pre[..p] == events[..p] && pre[p] == Delivered(Stop);
    assert !PanelAfter(start, pre).downloading;
    OffUntilStart(PanelAfter(start, pre), events[p + 1..q]);
    PanelAfterAppend(start, pre, events[p + 1..q]);
    assert pre + events[p + 1..q] == events[..q];
    var upTo := events[..q + 1];
    assert upTo[..q] == events[..q] && upTo[q] == events[q];
    NothingAfterOffCheck(start, events, script, |tracks|, outcomeAt, q);
    assert upTo == events;
  }

  /** A stop pressed before the first poll point ends the loop at its first
      check, before any track. */
  lemma StopFirstLeavesAtFirstCheck(start: Panel, now: Panel, end: RunEnd, events: seq<Event>, polls: nat,
                                    tracks: seq<TrackInfo>, outcomeAt: nat -> UnitOutcome,
                                    rest: seq<seq<Command>>)
    requires LoopResult(start, now, end, events, polls, tracks, outcomeAt, [[Stop]] + rest)
    requires tracks != []
    ensures events == [Delivered(Stop), Checked] && end == CompletedOk && Log(events) == []
  {
    var script := [[Stop]] + rest;
    var n := |tracks|;
    assert ScriptAt(script, 0) == [Stop];
    assert Batches(script, 1) == [Stop];
    var one := [Delivered(Stop)];
    assert NextEvent(start, [], script, n, outcomeAt) == Some(Delivered(Stop));
    FollowsStep(start, [], script, n, outcomeAt, Delivered(Stop));
    AppendRecord([], Delivered(Stop));
    assert [] + [Delivered(Stop)] == one;
    assert NextEvent(start, one, script, n, outcomeAt) == Some(Checked);
    FollowsStep(start, one, script, n, outcomeAt, Checked);
    var two := one + [Checked];
    AppendEvent(start, one, Checked);
    AppendEvent(start, [], Delivered(Stop));
    assert !PanelAfter(start, two).downloading;
    assert NextEvent(start, two, script, n, outcomeAt).None?;
    TraceUnique(start, events, two, script, n, outcomeAt);
    AppendRecord(one, Checked);
  }

  /** With nothing pressed before the first poll point, a run that is on
      and unpaused processes the first track right after the first check. */
  lemma EmptyFirstBatchRunsFirstTrack(start: Panel, now: Panel, end: RunEnd, events: seq<Event>, polls: nat,
                                      tracks: seq<TrackInfo>, outcomeAt: nat -> UnitOutcome,
                                      rest: seq<seq<Command>>)
    requires LoopResult(start, now, end, events, polls, tracks, outcomeAt, [[]] + rest)
    requires tracks != [] && Running(start)
    ensures |events| >= 2 && events[0] == Checked && events[1] == Processed(0, outcomeAt(0))
  {
    var script := [[]] + rest;
    var n := |tracks|;
    assert ScriptAt(script, 0) == [];
    assert Batches(script, 1) == [];
    assert NextEvent(start, [], script, n, outcomeAt) == Some(Checked);
    FollowsMeans(start, events, script, n, outcomeAt, 0);
    assert events[..0] == [];
    var one := [Checked];
    AppendEvent(start, [], Checked);
    assert [] + [Checked] == one;
    assert NextEvent(start, one, script, n, outcomeAt) == Some(Processed(0, outcomeAt(0)));
    assert events[..1] == one;
    FollowsMeans(start, events, script, n, outcomeAt, 1);
  }

  class DownloadController {
    var isDownloading: bool
    var isPaused: bool
    var successful: nat
    var failed: nat
    var total: nat
    /** The chosen download folder; empty while none is chosen. */
    var selectedFolder: string

    constructor ()
      ensures !isDownloading && !isPaused && selectedFolder == ""
      ensures successful == 0 && failed == 0 && total == 0
    {
      isDownloading, isPaused := false, false;
      successful, failed, total := 0, 0, 0;
      selectedFolder := "";
    }

    function CurrentPanel(): Panel
      reads this
    {
      Panel(isDownloading, isPaused, successful, failed, total, selectedFolder)
    }

    /** `select_folder`: a chosen folder replaces the selection; a cancelled
      dialog (empty answer) changes nothing. */
    method SelectFolder(folder: string)
      modifies this
      ensures selectedFolder == if folder != "" then folder else old(selectedFolder)
      ensures isDownloading == old(isDownloading) && isPaused == old(isPaused)
      ensures successful == old(successful) && failed == old(failed) && total == old(total)
    {
      if folder != "" {
        selectedFolder := folder;
      }
    }

    /** `start_download`. During a run it only flips `is_paused`. Otherwise a
        run starts, with both flags set for running and the statistics reset,
        exactly when the stripped entry is a playlist address and a folder
        is selected; when it does not, nothing changes. */
    method StartDownload(entry: string) returns (started: bool, url: string)
      modifies this
      ensures old(isDownloading) ==>
        && !started && isDownloading && isPaused == !old(isPaused)
        && successful == old(successful) && failed == old(failed) && total == old(total)
      ensures !old(isDownloading) ==> (started <==> CanStart(entry, old(selectedFolder)))
      ensures !old(isDownloading) && started ==>
        && url == Strip(entry) && isDownloading && !isPaused
        && successful == 0 && failed == 0 && total == 0
      ensures !old(isDownloading) && !started ==>
        && isDownloading == old(isDownloading) && isPaused == old(isPaused)
        && successful == old(successful) && failed == old(failed) && total == old(total)
      ensures selectedFolder == old(selectedFolder)
    {
      if isDownloading {
        TogglePause();
        return false, "";
      }
      started, url := TryStart(entry);
    }

    /** The pause button during a run: flip `is_paused`, nothing else. */
    method TogglePause()
      requires isDownloading
      modifies this
      ensures isDownloading && isPaused == !old(isPaused)
      ensures successful == old(successful) && failed == old(failed) && total == old(total)
      ensures selectedFolder == old(selectedFolder)
    {
      isPaused := !isPaused;
    }

    /** The start checks outside a run, in the program's order: a non-empty
        stripped entry, the playlist prefix, a selected folder. */
    method TryStart(entry: string) returns (started: bool, url: string)
      requires !isDownloading
      modifies this
      ensures url == Strip(entry)
      ensures started <==> CanStart(entry, old(selectedFolder))
      ensures started ==> isDownloading && !isPaused && successful == 0 && failed == 0 && total == 0
      ensures !started ==>
        && isDownloading == old(isDownloading) && isPaused == old(isPaused)
        && successful == old(successful) && failed == old(failed) && total == old(total)
      ensures selectedFolder == old(selectedFolder)
    {
      url := Strip(entry);
      // each failed check shows its own message and changes nothing
      started := AcceptedAddress(url) && selectedFolder != "";
      if started {
        isDownloading, isPaused := true, false;
        successful, failed, total := 0, 0, 0;
      }
    }

    /** `stop_download`: clears both flags during a run, does nothing otherwise. */
    method StopDownload()
      modifies this
      ensures old(isDownloading) ==> !isDownloading && !isPaused
      ensures !old(isDownloading) ==> isDownloading == old(isDownloading) && isPaused == old(isPaused)
      ensures successful == old(successful) && failed == old(failed) && total == old(total)
      ensures selectedFolder == old(selectedFolder)
    {
      if isDownloading {
        isDownloading, isPaused := false, false;
      }
    }

    /** `download_complete`: always clears both flags. */
    method DownloadComplete(success: bool)
      modifies this
      ensures !isDownloading && !isPaused
      ensures successful == old(successful) && failed == old(failed) && total == old(total)
      ensures selectedFolder == old(selectedFolder)
    {
      isDownloading, isPaused := false, false;
    }

    /** A button press: the state changes as `Apply` says. */
    method Deliver(cmd: Command)
      modifies this
      ensures CurrentPanel() == Apply(old(CurrentPanel()), cmd)
    {
      match cmd {
        case Press(entry) =>
          var _, _ := StartDownload(entry);
        case Stop =>
          StopDownload();
      }
    }

    /** The current state is traced by the events from `start`, after `pos`
        poll points. */
    ghost predicate Tracked(start: Panel, events: seq<Event>, script: seq<seq<Command>>, pos: nat)
      reads this
    {
      Traced(start, CurrentPanel(), events, script, pos)
    }

    /** The state is the one the events produce from `start`, every track so
        far was processed right after a check that found the run on and
        unpaused, each check saw the presses due by then, and `delivered` are
        the presses delivered. */
    ghost predicate Delivering(start: Panel, events: seq<Event>, script: seq<seq<Command>>, delivered: seq<Command>)
      reads this
    {
      && CurrentPanel() == PanelAfter(start, events) && Gated(start, events)
      && Synced(events, script) && Commands(events) == delivered
    }

    /** A press delivered and recorded as the next event. */
    method DeliverTracked(cmd: Command, ghost start: Panel, events0: seq<Event>,
                          ghost script: seq<seq<Command>>, ghost delivered: seq<Command>)
      returns (events: seq<Event>)
      requires Delivering(start, events0, script, delivered)
      modifies this
      ensures events == events0 + [Delivered(cmd)]
      ensures Delivering(start, events, script, delivered + [cmd])
      ensures Log(events) == Log(events0) && Checks(events) == Checks(events0)
    {
      Deliver(cmd);
      DeliveryStep(start, events0, script, cmd);
      events := events0 + [Delivered(cmd)];
    }

    /** The presses of one batch delivered in order, each recorded as the
        next event. */
    method DeliverAll(batch: seq<Command>, ghost start: Panel, events0: seq<Event>,
                      ghost script: seq<seq<Command>>, ghost delivered0: seq<Command>)
      returns (events: seq<Event>)
      requires Delivering(start, events0, script, delivered0)
      modifies this
      ensures Delivering(start, events, script, delivered0 + batch)
      ensures Log(events) == Log(events0) && Checks(events) == Checks(events0)
      ensures events == events0 + Deliveries(batch)
    {
      events := events0;
      ghost var delivered := delivered0;
      var k := 0;
      while k < |batch|
        invariant k <= |batch| && delivered == delivered0 + batch[..k]
        invariant Delivering(start, events, script, delivered)
        invariant Log(events) == Log(events0) && Checks(events) == Checks(events0)
        invariant events == events0 + Deliveries(batch[..k])
      {
        events := DeliverTracked(batch[k], start, events, script, delivered);
        DeliveriesSnoc(events0, batch, k + 1);
        assert batch[..k + 1] == batch[..k] + [batch[k]];
        delivered := delivered + [batch[k]];
        k := k + 1;
      }
      assert batch[..k] == batch;
    }

    /** One poll point: the presses made since the previous one are delivered,
        in order, and then the flags are checked. */
    method Poll(script: seq<seq<Command>>, pos0: nat, ghost start: Panel, events0: seq<Event>)
      returns (pos: nat, events: seq<Event>)
      requires Tracked(start, events0, script, pos0)
      modifies this
      ensures Tracked(start, events, script, pos)
      ensures pos == pos0 + 1 && Log(events) == Log(events0) && AtCheck(events)
      ensures events == events0 + Deliveries(ScriptAt(script, pos0)) + [Checked]
    {
      var delivered := DeliverAll(ScriptAt(script, pos0), start, events0, script, Batches(script, pos0));
      assert Batches(script, pos0 + 1) == Batches(script, pos0) + ScriptAt(script, pos0);
      CheckStep(start, delivered, script);
      events := delivered + [Checked];
      pos := pos0 + 1;
    }

    /** The pause loop: wait while paused, taking the presses at each
        wake-up. Returns false when it would wait for ever. */
    method AwaitResume(script: seq<seq<Command>>, pos0: nat, ghost start: Panel, events0: seq<Event>,
                       ghost n: nat, ghost outcomeAt: nat -> UnitOutcome)
      returns (resumed: bool, pos: nat, events: seq<Event>)
      requires Tracked(start, events0, script, pos0) && AtCheck(events0)
      requires Follows(start, events0, script, n, outcomeAt)
      modifies this
      ensures resumed ==> !(isPaused && isDownloading)
      ensures !resumed ==> isPaused && isDownloading && pos >= |script|
      ensures Tracked(start, events, script, pos) && AtCheck(events)
      ensures Log(events) == Log(events0)
      ensures Follows(start, events, script, n, outcomeAt)
      ensures !resumed ==> NextEvent(start, events, script, n, outcomeAt).None?
    {
      pos, events := pos0, events0;
      while isPaused && isDownloading
        invariant Tracked(start, events, script, pos) && AtCheck(events)
        invariant Log(events) == Log(events0)
        invariant Follows(start, events, script, n, outcomeAt)
        decreases |script| - pos
      {
        if pos >= |script| {
          return false, pos, events;
        }
        PollFollows(start, events, script, n, outcomeAt, pos);
        pos, events := Poll(script, pos, start, events);
      }
      resumed := true;
    }

    /** The checks before a track: a stopped run leaves the loop, a paused
        one waits for a resume, and a run stopped while paused leaves it
        too. Only a run found on and unpaused by the latest check goes on to
        the track. */
    method CheckBeforeTrack(script: seq<seq<Command>>, pos0: nat, ghost start: Panel, events0: seq<Event>,
                            ghost n: nat, ghost outcomeAt: nat -> UnitOutcome)
      returns (verdict: Verdict, pos: nat, events: seq<Event>)
      requires Tracked(start, events0, script, pos0)
      requires Follows(start, events0, script, n, outcomeAt)
      requires NextEvent(start, events0, script, n, outcomeAt) == Some(PollNext(events0, script))
      modifies this
      ensures Tracked(start, events, script, pos) && AtCheck(events) && Log(events) == Log(events0)
      ensures verdict == Proceed ==> Running(CurrentPanel())
      ensures verdict == Cancelled ==> !isDownloading
      ensures verdict == WaitsForever ==> isDownloading && isPaused && pos >= |script|
      ensures Follows(start, events, script, n, outcomeAt)
      ensures verdict == Proceed ==>
        NextEvent(start, events, script, n, outcomeAt) == Some(Processed(|Log(events)|, outcomeAt(|Log(events)|)))
      ensures verdict != Proceed ==> NextEvent(start, events, script, n, outcomeAt).None?
    {
      PollFollows(start, events0, script, n, outcomeAt, pos0);
      pos, events := Poll(script, pos0, start, events0);
      if !isDownloading {
        return Cancelled, pos, events;
      }
      var resumed;
      resumed, pos, events := AwaitResume(script, pos, start, events, n, outcomeAt);
      if !resumed {
        return WaitsForever, pos, events;
      }
      if !isDownloading {
        return Cancelled, pos, events;
      }
      verdict := Proceed;
    }

    /** One track handed to `download_track` while running and unpaused, and
        its success or failure counted. */
    method ProcessTrack(tracks: seq<TrackInfo>, i: nat, outcomeAt: nat -> UnitOutcome,
                        script: seq<seq<Command>>, pos: nat, ghost start: Panel, events0: seq<Event>)
      returns (outcome: UnitOutcome, events: seq<Event>)
      requires i < |tracks| && Running(CurrentPanel())
      requires Tracked(start, events0, script, pos) && AtCheck(events0)
      requires |Log(events0)| == i && InOrder(events0, tracks, outcomeAt)
      requires Follows(start, events0, script, |tracks|, outcomeAt)
      requires NextEvent(start, events0, script, |tracks|, outcomeAt) == Some(Processed(i, outcomeAt(i)))
      modifies this
      ensures outcome == outcomeAt(i)
      ensures events == events0 + [Processed(i, outcome)]
      ensures CurrentPanel() == Counted(old(CurrentPanel()), outcome)
      ensures Tracked(start, events, script, pos)
      ensures |Log(events)| == i + 1 && InOrder(events, tracks, outcomeAt)
      ensures Follows(start, events, script, |tracks|, outcomeAt)
    {
      outcome := outcomeAt(i);
      ProcessStep(start, events0, script, tracks, outcomeAt, i);
      FollowsStep(start, events0, script, |tracks|, outcomeAt, Processed(i, outcome));
      events := events0 + [Processed(i, outcome)];
      match outcome {
        case Done(success) =>
          if success {
            successful := successful + 1;
          } else {
            failed := failed + 1;
          }
        case Raised =>
      }
    }

    /** The loop's head before track `i`: the state is traced from `start`,
        the first `i` tracks were processed in order, none raised, and the
        events so far are what the loop does, ending with track `i - 1`. */
    ghost predicate AtTrack(start: Panel, events: seq<Event>, polls: nat, i: nat,
                            tracks: seq<TrackInfo>, outcomeAt: nat -> UnitOutcome, script: seq<seq<Command>>)
      reads this
    {
      && i <= |tracks| && Tracked(start, events, script, polls)
      && |Log(events)| == i && InOrder(events, tracks, outcomeAt) && NoneRaised(outcomeAt, i)
      && Follows(start, events, script, |tracks|, outcomeAt)
      && (i == 0 ==> events == [])
      && (i > 0 ==> events != [] && events[|events| - 1] == Processed(i - 1, outcomeAt(i - 1)))
    }

    /** One iteration of the track loop: the checks before track `i`, then
        the track. It returns the run's end when the iteration ends the loop
        (a stop, a pause that waits for ever, a track that raised) and
        otherwise reaches the head before track `i + 1`. */
    method StepTrack(tracks: seq<TrackInfo>, i: nat, outcomeAt: nat -> UnitOutcome, script: seq<seq<Command>>,
                     polls0: nat, ghost start: Panel, events0: seq<Event>)
      returns (end: Option<RunEnd>, events: seq<Event>, polls: nat)
      requires i < |tracks| && AtTrack(start, events0, polls0, i, tracks, outcomeAt, script)
      modifies this
      ensures end.None? ==> AtTrack(start, events, polls, i + 1, tracks, outcomeAt, script)
      ensures end.Some? ==> LoopResult(start, CurrentPanel(), end.value, events, polls, tracks, outcomeAt, script)
    {
      AfterTrack(start, events0, script, |tracks|, outcomeAt);
      var verdict;
      verdict, polls, events := CheckBeforeTrack(script, polls0, start, events0, |tracks|, outcomeAt);
      if verdict == Cancelled {
        EndsOk(start, CurrentPanel(), events, polls, tracks, outcomeAt, script);
        DownloadComplete(true);
        return Some(CompletedOk), events, polls;
      }
      if verdict == WaitsForever {
        EndsPaused(start, CurrentPanel(), events, polls, tracks, outcomeAt, script);
        return Some(StillPaused), events, polls;
      }
      var outcome;
      outcome, events := ProcessTrack(tracks, i, outcomeAt, script, polls, start, events);
      if outcome.Raised? {
        AfterTrack(start, events, script, |tracks|, outcomeAt);
        EndsFailed(start, CurrentPanel(), events, polls, tracks, outcomeAt, script);
        DownloadComplete(false);
        return Some(CompletedFailed), events, polls;
      }
      end := None;
    }

    /** The track loop: before every track the flags are checked, the run
        waits while paused, a stop ends it, completed, before the next track;
        each track's success or failure is counted once, and an exception
        from a track ends the run as failed. */
    method TrackLoop(tracks: seq<TrackInfo>, outcomeAt: nat -> UnitOutcome, script: seq<seq<Command>>)
      returns (end: RunEnd, events: seq<Event>, polls: nat)
      modifies this
      ensures LoopResult(old(CurrentPanel()), CurrentPanel(), end, events, polls, tracks, outcomeAt, script)
    {
      ghost var start := CurrentPanel();
      events, polls := [], 0;
      var i := 0;
      while i < |tracks|
        invariant AtTrack(start, events, polls, i, tracks, outcomeAt, script)
      {
        var stop;
        stop, events, polls := StepTrack(tracks, i, outcomeAt, script, polls, start, events);
        if stop.Some? {
          return stop.value, events, polls;
        }
        i := i + 1;
      }
      AfterTrack(start, events, script, |tracks|, outcomeAt);
      EndsOk(start, CurrentPanel(), events, polls, tracks, outcomeAt, script);
      DownloadComplete(true);
      return CompletedOk, events, polls;
    }

    /** The front end's `download_playlist`. Without a playlist record or
        without tracks it completes as failed; otherwise the statistics
        record the number of tracks and the track loop runs. */
    method RunDownload(url: string, connected: bool,
                       lookup: string -> Option<PlaylistRecord>,
                       pagesOf: string -> seq<PageResponse>,
                       outcomeAt: nat -> UnitOutcome,
                       script: seq<seq<Command>>)
      returns (end: RunEnd, events: seq<Event>, polls: nat, tracks: seq<TrackInfo>)
      modifies this
      ensures GetPlaylistInfo(connected, url, lookup).None? || tracks == [] ==>
        && end == CompletedFailed && events == [] && !isDownloading && !isPaused
        && successful == old(successful) && failed == old(failed) && total == old(total)
      ensures GetPlaylistInfo(connected, url, lookup).Some? ==>
        exists offsets :: Listing(pagesOf(ExtractPlaylistId(url).value), tracks, offsets)
      ensures GetPlaylistInfo(connected, url, lookup).Some? && tracks != [] ==>
        LoopResult(old(CurrentPanel()).(total := |tracks|), CurrentPanel(), end, events, polls,
                   tracks, outcomeAt, script)
      ensures selectedFolder == old(selectedFolder)
    {
      events, polls, tracks := [], 0, [];
      var info := GetPlaylistInfo(connected, url, lookup);
      if info.None? {
        DownloadComplete(false);
        return CompletedFailed, events, polls, tracks;
      }
      var offsets;
      tracks, offsets := GetPlaylistTracks(connected, url, pagesOf);
      if tracks == [] {
        DownloadComplete(false);
        return CompletedFailed, events, polls, tracks;
      }
      total := |tracks|;
      assert CurrentPanel() == old(CurrentPanel()).(total := |tracks|);
      end, events, polls := TrackLoop(tracks, outcomeAt, script);
    }
  }
}
