/** What every interleaving of starts, syncs, cancels, failures, crashes and
    recoveries keeps about scans, and when a sweep is exact. */
module ScanRuns {
  import opened Basics
  import opened Tables
  import opened ScanStore
  import opened ScanProtocol

  lemma {:induction false} RunInv(s: State, run: seq<Event>)
    requires Inv(s) && Runs(s, run)
    ensures Inv(Final(s, run))
    decreases |run|
  {
    if run != [] {
      InvStep(s, run[0]);
      RunInv(Next(s, run[0]), run[1..]);
    }
  }

  ghost predicate Reachable(s: State) {
    exists run :: Runs(Init(), run) && Final(Init(), run) == s
  }

  lemma ReachableInv(s: State)
    requires Reachable(s)
    ensures Inv(s)
  {
    var run :| Runs(Init(), run) && Final(Init(), run) == s;
    InitInv();
    RunInv(Init(), run);
  }

  predicate Alive(s: State, r: nat) {
    r < |s.runs| && !s.runs[r].phase.Over?
  }

  /** Each location has at most one live run and one 'running' row, a cancel finds
      the run it means, and later scans have higher generations. */
  lemma ScansStayExclusive(s: State)
    requires Reachable(s)
    ensures forall r: nat, q: nat | Alive(s, r) && Alive(s, q) && s.runs[r].location == s.runs[q].location :: r == q
    ensures OneRunning(s.scans)
    ensures forall scan | scan in s.byScan ::
      var r := s.byScan[scan];
      && Alive(s, r) && s.runs[r].location in s.byLoc && s.byLoc[s.runs[r].location] == r
      && scan in s.scans && s.scans[scan].location == s.runs[r].location
    ensures Ordered(s.scans)
    ensures forall d | d in s.dirs ::
      s.dirs[d].location in s.generations && s.dirs[d].seen <= s.generations[s.dirs[d].location]
  {
    ReachableInv(s);
    hide Reachable, Marks, Ordered, OneRunning, Bounded;
    forall r: nat, q: nat | Alive(s, r) && Alive(s, q) && s.runs[r].location == s.runs[q].location ensures r == q {
      if r != q { Alone(s, r, q); }
    }
    forall scan | scan in s.byScan
      ensures scan in s.scans && s.scans[scan].location == s.runs[s.byScan[scan]].location
    {
      assert RecordOf(s, s.runs[s.byScan[scan]]);
    }
  }

  /** The cleanup of BeginScan only aborts records that no live run owns. */
  lemma BeginSparesLiveRuns(s: State, e: Event, x: Id, q: nat)
    requires Reachable(s) && Enabled(s, e) && e.Begin?
    requires Alive(s, q) && Recorded(s.runs[q].phase) && s.runs[q].phase.scan == x
    ensures x in s.scans && Next(s, e).scans[x] == s.scans[x]
  {
    ReachableInv(s);
    assert RecordOf(s, s.runs[q]);
    Alone(s, q, e.r);
  }

  /** The record of a live run is still running when it is closed, so closing it
      always records how the scan ended and what it counted. */
  lemma FinishRecords(s: State, e: Event)
    requires Reachable(s) && Enabled(s, e) && e.Finish? && e.ok
    ensures var p := s.runs[e.r].phase;
      && p.scan in s.scans
      && Next(s, e).scans == s.scans[p.scan := s.scans[p.scan].(
           state := if p.outcome.Succeeded? then Done else if p.outcome.Cancelled? then Aborted else Failed,
           progress := e.progress)]
  {
    ReachableInv(s);
    assert RecordOf(s, s.runs[e.r]);
  }

  /** A cancel reaches the one run that works on the scan, a shutdown every live run. */
  lemma CancelsReach(s: State, e: Event, r: nat)
    requires Reachable(s) && Enabled(s, e) && (e.Cancel? || e.Shutdown?) && Alive(s, r)
    ensures var run, after := s.runs[r], Next(s, e).runs[r];
      && after.phase == run.phase && after.location == run.location && after.emitted == run.emitted
      && (after.cancelled <==>
            run.cancelled || e.Shutdown? || (Tracked(run.phase) && run.phase.scan == e.scan))
  {
    ReachableInv(s);
    if e.Cancel? && r != s.byScan[e.scan] { Alone(s, r, s.byScan[e.scan]); }
  }

  /** A finished scan keeps its row through every run. */
  lemma {:induction false} FinishedForever(s: State, run: seq<Event>, x: Id)
    requires Runs(s, run) && x in s.scans && !s.scans[x].state.Running?
    ensures x in Final(s, run).scans && Final(s, run).scans[x] == s.scans[x]
    decreases |run|
  {
    if run != [] {
      FinishedStep(s, run[0], x);
      FinishedForever(Next(s, run[0]), run[1..], x);
    }
  }

  lemma FinishedStep(s: State, e: Event, x: Id)
    requires Enabled(s, e) && x in s.scans && !s.scans[x].state.Running?
    ensures x in Next(s, e).scans && Next(s, e).scans[x] == s.scans[x]
  {
  }

  /** A dir that the run has not synced yet carries an older generation, so a walk
      that emits each dir once syncs it once per generation. */
  lemma SyncRaisesGeneration(s: State, e: Event)
    requires Reachable(s) && Enabled(s, e) && e.Sync? && e.d in s.dirs && e.relpath !in s.runs[e.r].emitted
    ensures s.dirs[e.d].seen < Next(s, e).dirs[e.d].seen
  {
    ReachableInv(s);
    assert Marked(s, s.runs[e.r]) && RecordOf(s, s.runs[e.r]);
  }

  // ----- what each step does to the rows -----

  /** A dir's row changes only when its location's scan begins, which unlocks and dirties
      it if it was locked; when it is synced; when a sweep of its location finds it
      unseen; or by the parse queue, which moves only lock and dirty. */
  lemma DirRows(s: State, e: Event, d: Id)
    requires Enabled(s, e) && d in s.dirs
    ensures d in Next(s, e).dirs
    ensures var row, after := s.dirs[d], Next(s, e).dirs[d];
      match e
      case Begin(r, _, _, _) =>
        after == if s.runs[r].location == row.location && row.locked.Some?
                 then row.(locked := None, dirty := true) else row
      case Sync(r, x, _, dirty) =>
        after == if x == d
                 then row.(seen := s.runs[r].phase.generation, missing := false, dirty := row.dirty || dirty) else row
      case Sweep(r, ok) =>
        after == row.(missing := row.missing ||
          (ok && row.location == s.runs[r].location && row.seen < s.runs[r].phase.generation))
      case QueueStep(_) => after == row.(locked := after.locked, dirty := after.dirty)
      case _ => after == row
  {
  }

  /** New rows come from syncs alone. */
  lemma NewDirRows(s: State, e: Event, d: Id)
    requires Enabled(s, e) && d !in s.dirs && d in Next(s, e).dirs
    ensures e.Sync? && e.d == d
    ensures Next(s, e).dirs[d]
      == DirRow(s.runs[e.r].location, e.relpath, s.runs[e.r].phase.generation, false, e.dirty, None)
  {
  }

  /** A scan's row changes only when a scan of its location begins, which aborts it if it
      was running, when it is closed, or at a restart. */
  lemma ScanRows(s: State, e: Event, x: Id)
    requires Enabled(s, e) && x in s.scans
    ensures x in Next(s, e).scans
    ensures var row, after := s.scans[x], Next(s, e).scans[x];
      match e
      case Begin(r, _, _, _) =>
        after == if row.state.Running? && row.location == s.runs[r].location then row.(state := Aborted) else row
      case Finish(r, progress, ok) =>
        if ok && s.runs[r].phase.scan == x && row.state.Running?
        then after.progress == progress && !after.state.Running? && after.location == row.location
             && after.generation == row.generation && after.start == row.start
        else after == row
      case Recover => after == if row.state.Running? then row.(state := Aborted) else row
      case _ => after == row
  {
  }

  // ----- mark and sweep -----

  /** The present dirs of the location are the ones this run synced. */
  ghost predicate Exact(s: State, run: Run) {
    && (forall d | d in s.dirs && s.dirs[d].location == run.location ::
          !s.dirs[d].missing <==> s.dirs[d].relpath in run.emitted)
    && forall p | p in run.emitted :: exists d :: AtPath(s.dirs, run.location, p, d)
  }

  /** After a walk the rows are exact if and only if nothing stale is left, which
      a successful sweep guarantees. */
  lemma ExactIff(s: State, r: nat)
    requires Reachable(s) && Alive(s, r) && Recorded(s.runs[r].phase)
    ensures Exact(s, s.runs[r]) <==>
      forall d :: d in s.dirs ==> !Stale(s.dirs[d], s.runs[r].location, s.runs[r].phase.generation)
    ensures Swept(s.runs[r].phase) ==> Exact(s, s.runs[r])
  {
    ReachableInv(s);
    var run := s.runs[r];
    assert Marked(s, run) && RecordOf(s, run);
    if Exact(s, run) {
      forall d | d in s.dirs ensures !Stale(s.dirs[d], run.location, run.phase.generation) {
      }
    }
  }

  /** The step marks the dir missing: a run whose walk was complete sweeps it,
      and had not met it. */
  ghost predicate SweepsOut(s: State, e: Event, d: Id) {
    && e.Sweep? && e.ok && e.r < |s.runs| && s.runs[e.r].phase.Walked?
    && d in s.dirs && s.dirs[d].location == s.runs[e.r].location && s.dirs[d].relpath !in s.runs[e.r].emitted
  }

  ghost predicate SweptOut(s: State, run: seq<Event>, d: Id)
    requires Runs(s, run)
    decreases |run|
  {
    run != [] && (SweepsOut(s, run[0], d) || SweptOut(Next(s, run[0]), run[1..], d))
  }

  /** Only that makes a dir missing: never a failed or cancelled scan. */
  lemma {:induction false} MissingOnlyBySweep(s: State, run: seq<Event>, d: Id)
    requires Inv(s) && Runs(s, run) && d in s.dirs && !s.dirs[d].missing
    ensures d in Final(s, run).dirs
    ensures Final(s, run).dirs[d].missing ==> SweptOut(s, run, d)
    decreases |run|
  {
    if run != [] {
      var t := Next(s, run[0]);
      InvStep(s, run[0]);
      MissingStep(s, run[0], d);
      if t.dirs[d].missing {
        DirsStay(t, run[1..], d);
      } else {
        MissingOnlyBySweep(t, run[1..], d);
      }
    }
  }

  lemma MissingStep(s: State, e: Event, d: Id)
    requires Inv(s) && Enabled(s, e) && d in s.dirs && !s.dirs[d].missing
    ensures d in Next(s, e).dirs
    ensures Next(s, e).dirs[d].missing ==> SweepsOut(s, e, d)
  {
    if e.Sweep? {
      assert Marked(s, s.runs[e.r]);
    } else if !e.Sync? {
      MarksKept(s, e);
    }
  }

  lemma {:induction false} DirsStay(s: State, run: seq<Event>, d: Id)
    requires Runs(s, run) && d in s.dirs
    ensures d in Final(s, run).dirs
    decreases |run|
  {
    if run != [] {
      var e := run[0];
      if !MovesMarks(e) { MarksKept(s, e); }
      DirsStay(Next(s, e), run[1..], d);
    }
  }

  /** A run that closes with this outcome, or is over. */
  predicate Doomed(phase: Phase, outcome: Outcome) {
    phase.Over? || ((phase.Closing? || phase.Closed?) && phase.outcome == outcome)
  }

  /** A run whose walk failed or was cancelled never sweeps, and closes that way. */
  lemma FailedNeverSweeps(s: State, run: seq<Event>, r: nat, outcome: Outcome)
    requires Enabled(s, WalkEnds(r, outcome)) && !outcome.Succeeded? && Runs(Next(s, WalkEnds(r, outcome)), run)
    ensures forall i | 0 <= i < |run| :: !(run[i].Sweep? && run[i].r == r)
    ensures var t := Final(Next(s, WalkEnds(r, outcome)), run);
      r < |t.runs| && (t.runs[r].phase.Closed? ==> t.runs[r].phase.outcome == outcome)
  {
    DoomedRun(Next(s, WalkEnds(r, outcome)), run, r, outcome);
  }

  lemma {:induction false} DoomedRun(s: State, run: seq<Event>, r: nat, outcome: Outcome)
    requires Runs(s, run) && r < |s.runs| && Doomed(s.runs[r].phase, outcome)
    ensures forall i | 0 <= i < |run| :: !(run[i].Sweep? && run[i].r == r)
    ensures r < |Final(s, run).runs| && Doomed(Final(s, run).runs[r].phase, outcome)
    decreases |run|
  {
    if run != [] {
      DoomedStep(s, run[0], r, outcome);
      DoomedRun(Next(s, run[0]), run[1..], r, outcome);
      assert forall i | 1 <= i < |run| :: run[i] == run[1..][i - 1];
    }
  }

  lemma DoomedStep(s: State, e: Event, r: nat, outcome: Outcome)
    requires Enabled(s, e) && r < |s.runs| && Doomed(s.runs[r].phase, outcome)
    ensures r < |Next(s, e).runs| && Doomed(Next(s, e).runs[r].phase, outcome)
    ensures !(e.Sweep? && e.r == r)
  {
  }

  // ----- every run can end -----

  /** The steps that run r still has to take, whatever fails on the way. */
  function Ahead(phase: Phase): nat {
    match phase
    case Over => 0
    case Unopened => 1
    case Closed(_, _, _, _) => 1
    case Closing(_, _, _, _) => 2
    case Walked(_, _) => 3
    case Syncing(_, _) => 3
    case Begun(_, _) => 4
    case Claimed => 2
  }

  /** Such a step: a begin that fails, a walk that breaks, a sweep or a close that fails. */
  function EndingStep(s: State, r: nat): Event
    requires Alive(s, r)
  {
    match s.runs[r].phase
    case Claimed => BeginFails(r)
    case Begun(_, _) => Track(r)
    case Syncing(_, _) => WalkEnds(r, Broken)
    case Walked(_, _) => Sweep(r, false)
    case Closing(_, _, _, _) => Finish(r, NO_PROGRESS, false)
    case _ => Release(r)
  }

  lemma EndingStepEnabled(s: State, r: nat)
    requires Alive(s, r)
    ensures Enabled(s, EndingStep(s, r))
  {
    hide AtPath, SameMarks;
  }

  /** Run r is a step nearer to its end, and at the end its location is free. */
  ghost predicate Nearer(s: State, t: State, r: nat)
    requires r < |s.runs|
  {
    && r < |t.runs| && t.runs[r].location == s.runs[r].location
    && Ahead(t.runs[r].phase) < Ahead(s.runs[r].phase)
    && (Ahead(t.runs[r].phase) == 0 ==> s.runs[r].location !in t.byLoc)
  }

  lemma NearerEarly(s: State, r: nat)
    requires Alive(s, r)
    ensures s.runs[r].phase.Claimed? ==> Nearer(s, SetPhase(s, r, Unopened), r)
    ensures s.runs[r].phase.Begun? ==> Nearer(s, AfterTrack(s, r), r)
    ensures s.runs[r].phase.Syncing? ==> Nearer(s, AfterWalk(s, r, Broken), r)
  {
  }

  lemma NearerLate(s: State, r: nat)
    requires Alive(s, r)
    ensures s.runs[r].phase.Walked? ==> Nearer(s, AfterSweep(s, r, false), r)
    ensures s.runs[r].phase.Closing? ==> Nearer(s, AfterFinish(s, r, NO_PROGRESS, false), r)
    ensures s.runs[r].phase.Closed? || s.runs[r].phase.Unopened? ==> Nearer(s, AfterRelease(s, r), r)
  {
    hide SweepRows, FinishRows;
  }

  lemma EndingStepWorks(s: State, r: nat)
    requires Alive(s, r) && Enabled(s, EndingStep(s, r))
    ensures Nearer(s, Next(s, EndingStep(s, r)), r)
  {
    NearerEarly(s, r);
    NearerLate(s, r);
    hide Enabled, Nearer, SetPhase, AfterTrack, AfterWalk, AfterSweep, AfterFinish, AfterRelease;
  }

  /** No location stays claimed: every live run can end, even if everything fails that
      can, and then its location is free. */
  lemma {:induction false} RunCanEnd(s: State, r: nat) returns (run: seq<Event>)
    requires Alive(s, r)
    ensures Runs(s, run) && |run| <= Ahead(s.runs[r].phase) && s.runs[r].location !in Final(s, run).byLoc
    decreases Ahead(s.runs[r].phase)
  {
    hide Next, Enabled, EndingStep;
    var e := EndingStep(s, r);
    EndingStepEnabled(s, r);
    EndingStepWorks(s, r);
    if Alive(Next(s, e), r) {
      var more := RunCanEnd(Next(s, e), r);
      StepThen(s, e, more);
      run := [e] + more;
    } else {
      StepThen(s, e, []);
      run := [e] + [];
    }
  }

  lemma StepThen(s: State, e: Event, run: seq<Event>)
    requires Enabled(s, e) && Runs(Next(s, e), run)
    ensures Runs(s, [e] + run) && Final(s, [e] + run) == Final(Next(s, e), run)
  {
    hide Next, Enabled;
    assert ([e] + run)[1..] == run;
  }

  // ----- a done scan whose rows are stale -----

  lemma {:induction false} RunThen(s: State, run: seq<Event>, e: Event)
    requires Runs(s, run) && Enabled(Final(s, run), e)
    ensures Runs(s, run + [e]) && Final(s, run + [e]) == Next(Final(s, run), e)
    decreases |run|
  {
    if run == [] {
      assert run + [e] == [e];
      assert [e][1..] == [];
      assert Runs(Next(s, e), []);
    } else {
      RunThen(Next(s, run[0]), run[1..], e);
      assert (run + [e])[1..] == run[1..] + [e];
    }
  }

  lemma Reach(s: State, e: Event) returns (t: State)
    requires Reachable(s) && Enabled(s, e)
    ensures t == Next(s, e) && Reachable(t)
  {
    var run :| Runs(Init(), run) && Final(Init(), run) == s;
    RunThen(Init(), run, e);
    t := Next(s, e);
  }

  /** The process died during the first scan of location 1, after it had synced
      dir 7; the second scan has run `r` claimed. */
  ghost predicate SecondScan(s: State) {
    && Reachable(s) && s.generations == map[1 := 1] && s.scans == map[3 := ScanRow(1, 1, Running, 0, NO_PROGRESS)]
    && s.dirs == map[7 := DirRow(1, "Album", 1, false, true, None)]
    && |s.runs| == 2 && s.runs[1] == Run(1, Claimed, {}, false) && s.byLoc == map[1 := 1]
  }

  lemma FirstScanRuns() returns (s: State)
    ensures Reachable(s)
    ensures s == State(map[1 := 1], map[3 := ScanRow(1, 1, Running, 0, NO_PROGRESS)], map[],
                       [Run(1, Syncing(3, 1), {}, false)], map[1 := 0], map[3 := 0])
  {
    assert Runs(Init(), []) && Final(Init(), []) == Init();
    s := Reach(Init(), AddLocation(1));
    s := Reach(s, Claim(1));
    s := FirstRecord(s);
    s := Reach(s, Track(0));
  }

  lemma FirstRecord(s: State) returns (t: State)
    requires Reachable(s) && s == State(map[1 := 0], map[], map[], [Run(1, Claimed, {}, false)], map[1 := 0], map[])
    ensures Reachable(t)
    ensures t == State(map[1 := 1], map[3 := ScanRow(1, 1, Running, 0, NO_PROGRESS)], map[],
                       [Run(1, Begun(3, 1), {}, false)], map[1 := 0], map[])
  {
    t := Reach(s, Begin(0, 3, 0, true));
    assert t.scans == map[3 := ScanRow(1, 1, Running, 0, NO_PROGRESS)] && t.dirs == map[];
  }

  lemma FirstScanDies() returns (s: State)
    ensures SecondScan(s)
  {
    s := FirstScanRuns();
    s := Reach(s, Sync(0, 7, "Album", true));
    s := Reach(s, Crash);
    s := Reach(s, Claim(1));
  }

  /** The scan is recorded as done, and a dir that it did not meet is present. */
  ghost predicate DoneButStale(s: State, r: nat, x: Id, d: Id) {
    && Reachable(s) && r < |s.runs| && s.runs[r].phase.Closed? && s.runs[r].phase.scan == x
    && x in s.scans && s.scans[x].state.Done?
    && d in s.dirs && s.dirs[d].location == s.runs[r].location
    && !s.dirs[d].missing && s.dirs[d].relpath !in s.runs[r].emitted
  }

  /** The album is gone, the second walk completes, and its sweep fails. */
  lemma SweepFailsDone() returns (s: State)
    ensures DoneButStale(s, 1, 4, 7)
  {
    s := FirstScanDies();
    s := Reach(s, Begin(1, 4, 0, true));
    assert s.runs[1] == Run(1, Begun(4, 2), {}, false) && s.scans[4] == ScanRow(1, 2, Running, 0, NO_PROGRESS);
    s := Reach(s, Track(1));
    s := Reach(s, WalkEnds(1, Succeeded));
    s := Reach(s, Sweep(1, false));
    s := Reach(s, Finish(1, NO_PROGRESS, true));
  }
}
