/** Scans of many locations as one step system: mutex sections of the scanner,
    store transactions, cancellation, crashes, and the parse queue as environment. */
module ScanProtocol {
  import opened Basics
  import opened Tables
  import opened ScanStore

  /** How far a run has come; `scan` and `generation` are its record's. */
  datatype Phase =
    | Claimed
    | Unopened
    | Begun(scan: Id, generation: int)
    | Syncing(scan: Id, generation: int)
    | Walked(scan: Id, generation: int)
    | Closing(scan: Id, generation: int, outcome: Outcome, swept: bool)
    | Closed(scan: Id, generation: int, outcome: Outcome, swept: bool)
    | Over

  /** `emitted` holds the relpaths synced so far. */
  datatype Run = Run(location: Id, phase: Phase, emitted: set<string>, cancelled: bool)

  datatype State = State(
    generations: map<Id, int>,
    scans: map<Id, ScanRow>,
    dirs: map<Id, DirRow>,
    runs: seq<Run>,
    byLoc: map<Id, nat>,
    byScan: map<Id, nat>)

  datatype Event =
    | AddLocation(location: Id)
    | Claim(location: Id)
    | Begin(r: nat, scan: Id, start: int, replied: bool)
    | BeginFails(r: nat)
    | Track(r: nat)
    | Sync(r: nat, d: Id, relpath: string, dirty: bool)
    | WalkEnds(r: nat, outcome: Outcome)
    | Sweep(r: nat, ok: bool)
    | Finish(r: nat, progress: Progress, ok: bool)
    | Release(r: nat)
    | Cancel(scan: Id)
    | Shutdown
    | QueueStep(dirs: map<Id, DirRow>)
    | Crash
    | Recover

  function Init(): State {
    State(map[], map[], map[], [], map[], map[])
  }

  predicate Recorded(phase: Phase) {
    phase.Begun? || phase.Syncing? || phase.Walked? || phase.Closing? || phase.Closed?
  }

  /** The record is still open. */
  predicate Unfinished(phase: Phase) {
    Recorded(phase) && !phase.Closed?
  }

  predicate Tracked(phase: Phase) {
    Recorded(phase) && !phase.Begun?
  }

  predicate Swept(phase: Phase) {
    (phase.Closing? || phase.Closed?) && phase.swept
  }

  /** The parse queue moves only `dirty` and `locked`. */
  ghost predicate SameMarks(before: map<Id, DirRow>, after: map<Id, DirRow>) {
    && after.Keys == before.Keys
    && forall d | d in before ::
         && after[d].location == before[d].location && after[d].relpath == before[d].relpath
         && after[d].seen == before[d].seen && after[d].missing == before[d].missing
  }

  ghost predicate Enabled(s: State, e: Event) {
    match e
    case AddLocation(location) => location !in s.generations
    case Claim(location) => location in s.generations && location !in s.byLoc
    case Begin(r, scan, _, _) =>
      && r < |s.runs| && s.runs[r].phase.Claimed? && s.runs[r].location in s.generations
      && forall x :: x in s.scans ==> x < scan
    case BeginFails(r) => r < |s.runs| && s.runs[r].phase.Claimed?
    case Track(r) => r < |s.runs| && s.runs[r].phase.Begun?
    case Sync(r, d, relpath, _) =>
      && r < |s.runs| && s.runs[r].phase.Syncing?
      && (d in s.dirs ==> AtPath(s.dirs, s.runs[r].location, relpath, d))
      && (d !in s.dirs ==> forall x :: !AtPath(s.dirs, s.runs[r].location, relpath, x))
    case WalkEnds(r, outcome) =>
      r < |s.runs| && s.runs[r].phase.Syncing? && (outcome.Cancelled? ==> s.runs[r].cancelled)
    case Sweep(r, _) => r < |s.runs| && s.runs[r].phase.Walked?
    case Finish(r, _, _) => r < |s.runs| && s.runs[r].phase.Closing?
    case Release(r) => r < |s.runs| && (s.runs[r].phase.Closed? || s.runs[r].phase.Unopened?)
    case Cancel(scan) => scan in s.byScan && s.byScan[scan] < |s.runs|
    case Shutdown => true
    case QueueStep(dirs) => SameMarks(s.dirs, dirs)
    case Crash => true
    case Recover => forall r :: 0 <= r < |s.runs| ==> s.runs[r].phase.Over?
  }

  function SetPhase(s: State, r: nat, phase: Phase): State
    requires r < |s.runs|
  {
    s.(runs := s.runs[r := s.runs[r].(phase := phase)])
  }

  /** BeginScan: one transaction. A reply can be lost after the commit. */
  function AfterBegin(s: State, r: nat, scan: Id, start: int, replied: bool): State
    requires r < |s.runs| && s.runs[r].location in s.generations
  {
    var location := s.runs[r].location;
    var generation := s.generations[location] + 1;
    SetPhase(s, r, if replied then Begun(scan, generation) else Unopened).(
      generations := s.generations[location := generation],
      scans := AbortRows(s.scans, Some(location))[scan := ScanRow(location, generation, Running, start, NO_PROGRESS)],
      dirs := RecoverRows(s.dirs, location))
  }

  function AfterTrack(s: State, r: nat): State
    requires r < |s.runs| && s.runs[r].phase.Begun?
  {
    var p := s.runs[r].phase;
    SetPhase(s, r, Syncing(p.scan, p.generation)).(byScan := s.byScan[p.scan := r])
  }

  function AfterSync(s: State, r: nat, d: Id, relpath: string, dirty: bool): State
    requires r < |s.runs| && s.runs[r].phase.Syncing?
  {
    var run := s.runs[r];
    s.(runs := s.runs[r := run.(emitted := run.emitted + {relpath})],
       dirs := SyncRows(s.dirs, d, run.location, relpath, run.phase.generation, dirty))
  }

  function AfterWalk(s: State, r: nat, outcome: Outcome): State
    requires r < |s.runs| && s.runs[r].phase.Syncing?
  {
    var p := s.runs[r].phase;
    SetPhase(s, r, if outcome.Succeeded? then Walked(p.scan, p.generation)
                   else Closing(p.scan, p.generation, outcome, false))
  }

  /** A failed sweep is logged, and the scan still succeeds. */
  function AfterSweep(s: State, r: nat, ok: bool): State
    requires r < |s.runs| && s.runs[r].phase.Walked?
  {
    var p := s.runs[r].phase;
    SetPhase(s, r, Closing(p.scan, p.generation, Succeeded, ok)).(
      dirs := if ok then SweepRows(s.dirs, s.runs[r].location, p.generation) else s.dirs)
  }

  function AfterFinish(s: State, r: nat, progress: Progress, ok: bool): State
    requires r < |s.runs| && s.runs[r].phase.Closing?
  {
    var p := s.runs[r].phase;
    SetPhase(s, r, Closed(p.scan, p.generation, p.outcome, p.swept)).(
      scans := if ok then FinishRows(s.scans, p.scan, progress, p.outcome) else s.scans)
  }

  function AfterRelease(s: State, r: nat): State
    requires r < |s.runs| && (s.runs[r].phase.Closed? || s.runs[r].phase.Unopened?)
  {
    var p := s.runs[r].phase;
    SetPhase(s, r, Over).(
      byLoc := s.byLoc - {s.runs[r].location},
      byScan := if p.Closed? then s.byScan - {p.scan} else s.byScan)
  }

  function CancelRun(run: Run): Run {
    run.(cancelled := true)
  }

  function EndRuns(runs: seq<Run>): seq<Run> {
    seq(|runs|, i requires 0 <= i < |runs| => runs[i].(phase := Over))
  }

  function Next(s: State, e: Event): State
    requires Enabled(s, e)
  {
    match e
    case AddLocation(location) => s.(generations := s.generations[location := 0])
    case Claim(location) =>
      s.(runs := s.runs + [Run(location, Claimed, {}, false)], byLoc := s.byLoc[location := |s.runs|])
    case Begin(r, scan, start, replied) => AfterBegin(s, r, scan, start, replied)
    case BeginFails(r) => SetPhase(s, r, Unopened)
    case Track(r) => AfterTrack(s, r)
    case Sync(r, d, relpath, dirty) => AfterSync(s, r, d, relpath, dirty)
    case WalkEnds(r, outcome) => AfterWalk(s, r, outcome)
    case Sweep(r, ok) => AfterSweep(s, r, ok)
    case Finish(r, progress, ok) => AfterFinish(s, r, progress, ok)
    case Release(r) => AfterRelease(s, r)
    case Cancel(scan) => s.(runs := s.runs[s.byScan[scan] := CancelRun(s.runs[s.byScan[scan]])])
    case Shutdown =>
      s.(runs := seq(|s.runs|, i requires 0 <= i < |s.runs| =>
        if s.runs[i].location in s.byLoc && s.byLoc[s.runs[i].location] == i then CancelRun(s.runs[i]) else s.runs[i]))
    case QueueStep(dirs) => s.(dirs := dirs)
    case Crash => s.(runs := EndRuns(s.runs), byLoc := map[], byScan := map[])
    case Recover => s.(scans := AbortRows(s.scans, None))
  }

  ghost predicate Runs(s: State, run: seq<Event>)
    decreases |run|
  {
    run == [] || (Enabled(s, run[0]) && Runs(Next(s, run[0]), run[1..]))
  }

  ghost function Final(s: State, run: seq<Event>): State
    requires Runs(s, run)
    decreases |run|
  {
    if run == [] then s else Final(Next(s, run[0]), run[1..])
  }

  // ----- tracking -----

  /** byLoc and byScan name exactly the live runs, each under its own keys. */
  ghost predicate Indexed(s: State) {
    && (forall l | l in s.byLoc ::
          s.byLoc[l] < |s.runs| && s.runs[s.byLoc[l]].location == l && !s.runs[s.byLoc[l]].phase.Over?)
    && (forall r | 0 <= r < |s.runs| && !s.runs[r].phase.Over? ::
          s.runs[r].location in s.byLoc && s.byLoc[s.runs[r].location] == r)
    && (forall scan | scan in s.byScan ::
          && s.byScan[scan] < |s.runs| && Tracked(s.runs[s.byScan[scan]].phase)
          && s.runs[s.byScan[scan]].phase.scan == scan)
    && (forall r | 0 <= r < |s.runs| && Tracked(s.runs[r].phase) ::
          s.runs[r].phase.scan in s.byScan && s.byScan[s.runs[r].phase.scan] == r)
  }

  // ----- records -----

  /** A live run's record is its location's latest, and running until it finishes. */
  ghost predicate Records(s: State) {
    forall r | 0 <= r < |s.runs| && Recorded(s.runs[r].phase) :: RecordOf(s, s.runs[r])
  }

  ghost predicate RecordOf(s: State, run: Run)
    requires Recorded(run.phase)
  {
    var scan := run.phase.scan;
    && scan in s.scans && s.scans[scan].location == run.location && run.location in s.generations
    && s.scans[scan].generation == run.phase.generation == s.generations[run.location]
    && (Unfinished(run.phase) ==> s.scans[scan].state.Running?)
  }

  ghost predicate Bounded(s: State) {
    forall x | x in s.scans ::
      s.scans[x].location in s.generations && s.scans[x].generation <= s.generations[s.scans[x].location]
  }

  /** Later scans of a location have higher generations. */
  ghost predicate Ordered(scans: map<Id, ScanRow>) {
    forall x, y | x in scans && y in scans && x < y && scans[x].location == scans[y].location ::
      scans[x].generation < scans[y].generation
  }

  ghost predicate OneRunning(scans: map<Id, ScanRow>) {
    forall x, y | x in scans && y in scans && scans[x].location == scans[y].location ::
      scans[x].state.Running? && scans[y].state.Running? ==> x == y
  }

  // ----- marks -----

  ghost predicate SeenBounded(s: State) {
    forall d | d in s.dirs :: s.dirs[d].location in s.generations && s.dirs[d].seen <= s.generations[s.dirs[d].location]
  }

  /** The dirs that carry a live run's generation are the ones it synced, and present. */
  ghost predicate Marked(s: State, run: Run)
    requires Recorded(run.phase)
  {
    && (forall d | d in s.dirs && s.dirs[d].location == run.location ::
          s.dirs[d].seen == run.phase.generation <==> s.dirs[d].relpath in run.emitted)
    && (forall d | d in s.dirs && s.dirs[d].location == run.location ::
          s.dirs[d].seen == run.phase.generation ==> !s.dirs[d].missing)
    && (forall p | p in run.emitted :: exists d :: AtPath(s.dirs, run.location, p, d))
    && (Swept(run.phase) ==> run.phase.outcome.Succeeded? && forall d :: d in s.dirs ==>
          !Stale(s.dirs[d], run.location, run.phase.generation))
  }

  ghost predicate Marks(s: State) {
    && UniquePaths(s.dirs)
    && (forall r | 0 <= r < |s.runs| && s.runs[r].phase.Claimed? :: s.runs[r].emitted == {})
    && (forall r | 0 <= r < |s.runs| && Recorded(s.runs[r].phase) :: Marked(s, s.runs[r]))
  }

  ghost predicate Inv(s: State) {
    Indexed(s) && Records(s) && Bounded(s) && Ordered(s.scans) && OneRunning(s.scans) && SeenBounded(s) && Marks(s)
  }

  lemma InitInv()
    ensures Inv(Init())
  {
  }

  // ----- every step keeps the invariant -----

  /** Every run keeps its place in the two indexes. */
  ghost predicate SameRoles(s: State, t: State) {
    && |t.runs| == |s.runs| && t.byLoc == s.byLoc && t.byScan == s.byScan
    && forall r | 0 <= r < |s.runs| :: SameRole(s.runs[r], t.runs[r])
  }

  predicate SameRole(before: Run, after: Run) {
    && after.location == before.location && after.phase.Over? == before.phase.Over?
    && Tracked(after.phase) == Tracked(before.phase)
    && (Tracked(after.phase) ==> after.phase.scan == before.phase.scan)
  }

  predicate MovesIndex(e: Event) {
    e.Claim? || e.Track? || e.Release? || e.Crash?
  }

  lemma RolesKept(s: State, e: Event)
    requires Enabled(s, e) && !MovesIndex(e)
    ensures SameRoles(s, Next(s, e))
  {
    hide AtPath, SyncRows, SweepRows, FinishRows, AbortRows, RecoverRows, SameMarks;
  }

  /** A live run is the only one of its location, so its record is its own. */
  lemma Alone(s: State, r: nat, q: nat)
    requires Indexed(s) && Records(s) && r < |s.runs| && q < |s.runs| && r != q
    requires !s.runs[r].phase.Over? && !s.runs[q].phase.Over?
    ensures s.runs[r].location != s.runs[q].location
    ensures Recorded(s.runs[r].phase) && Recorded(s.runs[q].phase) ==> s.runs[r].phase.scan != s.runs[q].phase.scan
  {
  }

  lemma IndexedStep(s: State, e: Event)
    requires Indexed(s) && Records(s) && Enabled(s, e)
    ensures Indexed(Next(s, e))
  {
    hide AtPath, SyncRows, SweepRows, FinishRows, AbortRows, RecoverRows, SameMarks;
    if e.Claim? {
      IndexClaim(s, e);
    } else if e.Track? {
      IndexTrack(s, e);
    } else if e.Release? {
      IndexRelease(s, e);
    } else if !e.Crash? {
      RolesKept(s, e);
      hide Next, Enabled;
    }
  }

  lemma IndexClaim(s: State, e: Event)
    requires Indexed(s) && Enabled(s, e) && e.Claim?
    ensures Indexed(Next(s, e))
  {
  }

  lemma IndexTrack(s: State, e: Event)
    requires Indexed(s) && Records(s) && Enabled(s, e) && e.Track?
    ensures Indexed(Next(s, e))
  {
    forall q | 0 <= q < |s.runs| && q != e.r && Tracked(s.runs[q].phase)
      ensures s.runs[q].phase.scan != s.runs[e.r].phase.scan
    {
      Alone(s, e.r, q);
    }
    hide Records;
  }

  lemma IndexRelease(s: State, e: Event)
    requires Indexed(s) && Enabled(s, e) && e.Release?
    ensures Indexed(Next(s, e))
  {
    var t := Next(s, e);
    forall q | 0 <= q < |s.runs| && q != e.r && !s.runs[q].phase.Over?
      ensures s.runs[q].location != s.runs[e.r].location
    {
      assert s.byLoc[s.runs[q].location] == q;
    }
  }

  // ----- records -----

  predicate MovesRecords(e: Event) {
    e.Begin? || e.Finish? || e.Recover? || e.AddLocation?
  }

  /** Other steps leave the records alone, and take no run forward out of turn. */
  lemma RecordsKept(s: State, e: Event)
    requires Enabled(s, e) && !MovesRecords(e)
    ensures var t := Next(s, e);
      && t.scans == s.scans && t.generations == s.generations
      && forall r | 0 <= r < |t.runs| && Recorded(t.runs[r].phase) ::
           && r < |s.runs| && Recorded(s.runs[r].phase) && t.runs[r].location == s.runs[r].location
           && t.runs[r].phase.scan == s.runs[r].phase.scan && t.runs[r].phase.generation == s.runs[r].phase.generation
           && (Unfinished(t.runs[r].phase) ==> Unfinished(s.runs[r].phase))
  {
  }

  lemma RecordsStep(s: State, e: Event)
    requires Indexed(s) && Records(s) && Enabled(s, e)
    ensures Records(Next(s, e))
  {
    hide AtPath, SyncRows, SweepRows, RecoverRows, SameMarks;
    var t := Next(s, e);
    if e.Begin? {
      RecordsBegin(s, e);
    } else if e.Finish? {
      RecordsFinish(s, e);
    } else if !MovesRecords(e) {
      RecordsKept(s, e);
      forall r | 0 <= r < |t.runs| && Recorded(t.runs[r].phase) ensures RecordOf(t, t.runs[r]) {
        hide Next, Enabled;
        assert RecordOf(s, s.runs[r]);
      }
    }
  }

  lemma RecordsBegin(s: State, e: Event)
    requires Indexed(s) && Records(s) && Enabled(s, e) && e.Begin?
    ensures Records(Next(s, e))
  {
  }

  lemma RecordsFinish(s: State, e: Event)
    requires Indexed(s) && Records(s) && Enabled(s, e) && e.Finish?
    ensures Records(Next(s, e))
  {
  }

  /** The scan table as a whole. */
  ghost predicate Orderly(s: State) {
    Bounded(s) && Ordered(s.scans) && OneRunning(s.scans)
  }

  lemma OrderlyStep(s: State, e: Event)
    requires Orderly(s) && Enabled(s, e)
    ensures Orderly(Next(s, e))
  {
    hide AtPath, SyncRows, SweepRows, RecoverRows, SameMarks;
    if e.Begin? {
      OrderlyBegin(s, e);
    } else if e.Finish? {
    } else if !MovesRecords(e) {
      RecordsKept(s, e);
      hide Next, Enabled;
    }
  }

  lemma OrderlyBegin(s: State, e: Event)
    requires Orderly(s) && Enabled(s, e) && e.Begin?
    ensures Orderly(Next(s, e))
  {
    hide RecoverRows;
  }

  // ----- marks -----

  predicate MovesMarks(e: Event) {
    e.Sync? || e.Sweep?
  }

  lemma MarksKept(s: State, e: Event)
    requires Enabled(s, e) && !MovesMarks(e)
    ensures SameMarks(s.dirs, Next(s, e).dirs)
  {
  }

  /** Same dirs and generations, as far as the marks of this run go. */
  predicate SameProgress(before: Run, after: Run) {
    && Recorded(before.phase) && Recorded(after.phase) && after.location == before.location
    && after.phase.generation == before.phase.generation && after.emitted == before.emitted
    && (Swept(after.phase) ==> Swept(before.phase) && before.phase.outcome.Succeeded? && after.phase.outcome.Succeeded?)
  }

  lemma MarkedSame(s: State, t: State, before: Run, after: Run)
    requires SameMarks(s.dirs, t.dirs) && SameProgress(before, after) && Marked(s, before)
    ensures Marked(t, after)
  {
    forall p | p in after.emitted ensures exists d :: AtPath(t.dirs, after.location, p, d) {
      var d :| AtPath(s.dirs, before.location, p, d);
      assert AtPath(t.dirs, after.location, p, d);
    }
  }

  lemma SeenStep(s: State, e: Event)
    requires Records(s) && SeenBounded(s) && Enabled(s, e)
    ensures SeenBounded(Next(s, e))
  {
    if e.Sync? {
      assert RecordOf(s, s.runs[e.r]);
    } else if !e.Sweep? {
      MarksKept(s, e);
      GenerationsGrow(s, e);
      hide Next, Enabled;
    }
  }

  lemma GenerationsGrow(s: State, e: Event)
    requires Enabled(s, e)
    ensures var t := Next(s, e);
      forall l | l in s.generations :: l in t.generations && s.generations[l] <= t.generations[l]
  {
  }

  lemma ProgressKept(s: State, e: Event)
    requires Enabled(s, e) && !MovesMarks(e)
    requires forall r | 0 <= r < |s.runs| && Swept(s.runs[r].phase) :: s.runs[r].phase.outcome.Succeeded?
    ensures var t := Next(s, e);
      forall r | 0 <= r < |t.runs| && Recorded(t.runs[r].phase) && !(e.Begin? && r == e.r) ::
        r < |s.runs| && SameProgress(s.runs[r], t.runs[r])
  {
  }

  lemma FreshEmitted(s: State, e: Event)
    requires Enabled(s, e) && forall r | 0 <= r < |s.runs| && s.runs[r].phase.Claimed? :: s.runs[r].emitted == {}
    ensures var t := Next(s, e); forall r | 0 <= r < |t.runs| && t.runs[r].phase.Claimed? :: t.runs[r].emitted == {}
  {
  }

  lemma PathsStep(s: State, e: Event)
    requires UniquePaths(s.dirs) && Enabled(s, e)
    ensures UniquePaths(Next(s, e).dirs)
  {
    if e.Sync? {
      if e.d !in s.dirs { NewPathUnique(s.dirs, e.d, Next(s, e).dirs[e.d]); }
    } else {
      if !e.Sweep? { MarksKept(s, e); }
      SamePathsUnique(s.dirs, Next(s, e).dirs);
    }
  }

  lemma MarksStep(s: State, e: Event)
    requires Inv(s) && Enabled(s, e)
    ensures Marks(Next(s, e))
  {
    var t := Next(s, e);
    PathsStep(s, e);
    FreshEmitted(s, e);
    hide UniquePaths;
    if e.Sync? {
      MarksSync(s, e);
    } else if e.Sweep? {
      MarksSweep(s, e);
    } else {
      MarksKept(s, e);
      ProgressKept(s, e);
      forall r | 0 <= r < |t.runs| && Recorded(t.runs[r].phase) ensures Marked(t, t.runs[r]) {
        if e.Begin? && r == e.r {
          MarksBegin(s, e);
        } else {
          MarkedSame(s, t, s.runs[r], t.runs[r]);
        }
      }
    }
  }

  /** No dir carries a new generation yet. */
  lemma MarksBegin(s: State, e: Event)
    requires SeenBounded(s) && Enabled(s, e) && e.Begin? && e.replied && s.runs[e.r].emitted == {}
    ensures Marked(Next(s, e), Next(s, e).runs[e.r])
  {
  }

  lemma MarksSync(s: State, e: Event)
    requires Inv(s) && Enabled(s, e) && e.Sync?
    ensures var t := Next(s, e);
      forall r | 0 <= r < |t.runs| && Recorded(t.runs[r].phase) :: Marked(t, t.runs[r])
  {
    var t := Next(s, e);
    forall q | 0 <= q < |t.runs| && Recorded(t.runs[q].phase) ensures Marked(t, t.runs[q]) {
      if q == e.r {
        MarkedSync(s, e);
      } else {
        Alone(s, q, e.r);
        MarkedElsewhere(s, e, q);
      }
    }
  }

  /** The synced dir joins the marked ones. */
  lemma MarkedSync(s: State, e: Event)
    requires UniquePaths(s.dirs) && Enabled(s, e) && e.Sync? && Marked(s, s.runs[e.r])
    ensures Marked(Next(s, e), Next(s, e).runs[e.r])
  {
    var t := Next(s, e);
    var run := t.runs[e.r];
    assert AtPath(t.dirs, run.location, e.relpath, e.d);
    forall d | d in t.dirs && t.dirs[d].location == run.location
      ensures t.dirs[d].seen == run.phase.generation <==> t.dirs[d].relpath in run.emitted
      ensures t.dirs[d].seen == run.phase.generation ==> !t.dirs[d].missing
    {
      if d != e.d {
        assert t.dirs[d] == s.dirs[d];
        assert !AtPath(s.dirs, run.location, e.relpath, d);
      }
    }
    forall p | p in run.emitted ensures exists d :: AtPath(t.dirs, run.location, p, d) {
      if p != e.relpath {
        var d :| AtPath(s.dirs, run.location, p, d);
        assert AtPath(t.dirs, run.location, p, d);
      }
    }
  }

  /** Nothing changes for a run of another location. */
  lemma MarkedElsewhere(s: State, e: Event, q: nat)
    requires Enabled(s, e) && MovesMarks(e) && q < |s.runs| && q != e.r && s.runs[q].location != s.runs[e.r].location
    requires Recorded(s.runs[q].phase) && Marked(s, s.runs[q])
    ensures Marked(Next(s, e), s.runs[q])
  {
    var t, run := Next(s, e), s.runs[q];
    assert forall d | d in t.dirs && t.dirs[d].location == run.location :: d in s.dirs && t.dirs[d] == s.dirs[d];
    forall p | p in run.emitted ensures exists d :: AtPath(t.dirs, run.location, p, d) {
      var d :| AtPath(s.dirs, run.location, p, d);
      assert AtPath(t.dirs, run.location, p, d);
    }
  }

  lemma MarksSweep(s: State, e: Event)
    requires Inv(s) && Enabled(s, e) && e.Sweep?
    ensures var t := Next(s, e);
      forall r | 0 <= r < |t.runs| && Recorded(t.runs[r].phase) :: Marked(t, t.runs[r])
  {
    var t := Next(s, e);
    forall q | 0 <= q < |t.runs| && Recorded(t.runs[q].phase) ensures Marked(t, t.runs[q]) {
      if q == e.r {
        MarkedSweep(s, e);
      } else {
        Alone(s, q, e.r);
        MarkedElsewhere(s, e, q);
      }
    }
  }

  lemma MarkedSweep(s: State, e: Event)
    requires Enabled(s, e) && e.Sweep? && Marked(s, s.runs[e.r])
    ensures Marked(Next(s, e), Next(s, e).runs[e.r])
  {
    var t := Next(s, e);
    var run := t.runs[e.r];
    forall p | p in run.emitted ensures exists d :: AtPath(t.dirs, run.location, p, d) {
      var d :| AtPath(s.dirs, run.location, p, d);
      assert AtPath(t.dirs, run.location, p, d);
    }
  }

  lemma InvStep(s: State, e: Event)
    requires Inv(s) && Enabled(s, e)
    ensures Inv(Next(s, e))
  {
    IndexedStep(s, e);
    RecordsStep(s, e);
    OrderlyStep(s, e);
    SeenStep(s, e);
    MarksStep(s, e);
    hide Next, Enabled, Indexed, Records, Bounded, Ordered, OneRunning, SeenBounded, Marks;
  }
}
