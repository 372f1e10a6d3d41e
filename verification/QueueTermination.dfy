/** Retries end: once no scan touches the tables, every run of dispatcher and
    worker steps is finite, and a dir is claimed at most three times. */
module QueueTermination {
  import opened Basics
  import opened Tables
  import opened ParseQueue
  import opened Pipeline
  import opened QueueProtocol
  import opened QueuePlaces

  /** Steps of the pipeline alone. */
  predicate Quiet(e: Event) {
    !e.BeginScan? && !e.Sync? && !e.Crash?
  }

  ghost predicate QuietRun(run: seq<Event>) {
    forall e :: e in run ==> Quiet(e)
  }

  // ----- the measure -----

  /** The claim may still use up an attempt or make its dir dirty again. */
  predicate Pending(phase: Phase) {
    match phase
    case Queued => true
    case Held => true
    case Read(_) => true
    case Stored(_) => true
    case Failing(n) => n < MAX_PARSE_ATTEMPTS
    case _ => false
  }

  /** Steps left in a claim; one that will be released dirty also pays for that. */
  function Steps(phase: Phase): nat {
    match phase
    case Queued => 9
    case Held => 8
    case Read(_) => 7
    case Stored(_) => 6
    case Cleared(_) => 5
    case Failing(n) => if n < MAX_PARSE_ATTEMPTS then 16 else 5
    case Rearming => 4
    case Over(_) => 0
  }

  /** A claim of an older generation that can still reset the failure count. */
  predicate Old(dirs: map<Id, DirRow>, k: Claim) {
    k.dir in dirs && dirs[k.dir].seen != k.generation
    && (k.phase.Queued? || k.phase.Held? || k.phase.Read?)
  }

  function ClaimWeight(dirs: map<Id, DirRow>, k: Claim): nat {
    (if Pending(k.phase) then 80 else 0) + (if Old(dirs, k) then 80 else 0) + Steps(k.phase)
  }

  /** Attempts left for the dir's present generation. */
  function Budget(attempts: map<Id, Attempts>, d: Id, row: DirRow): nat {
    var n := Failures(attempts, d, row.seen);
    if n < MAX_PARSE_ATTEMPTS then MAX_PARSE_ATTEMPTS - n else 0
  }

  function DirWeight(attempts: map<Id, Attempts>, d: Id, row: DirRow): nat {
    20 * Budget(attempts, d, row) + if row.dirty then 91 else 0
  }

  function SumClaims(dirs: map<Id, DirRow>, log: seq<Claim>): nat {
    if log == [] then 0 else SumClaims(dirs, log[..|log| - 1]) + ClaimWeight(dirs, log[|log| - 1])
  }

  /** Dirs with identifiers below `bound`. */
  function SumDirs(dirs: map<Id, DirRow>, attempts: map<Id, Attempts>, bound: nat): nat {
    if bound == 0 then 0
    else SumDirs(dirs, attempts, bound - 1)
         + if bound - 1 in dirs then DirWeight(attempts, bound - 1, dirs[bound - 1]) else 0
  }

  function Measure(s: State, bound: nat): nat {
    SumClaims(s.dirs, s.log) + SumDirs(s.dirs, s.attempts, bound)
    + |s.batch| + 3 * (s.wakes + s.timers)
    + (if s.token then 2 else 0) + (if s.asleep then 0 else 1)
  }

  // ----- sums change in one place -----

  lemma {:induction false} SumClaimsUpdate(dirs: map<Id, DirRow>, after: map<Id, DirRow>, log: seq<Claim>, c: nat,
                                           k: Claim)
    requires c < |log| && after.Keys == dirs.Keys
    requires forall d :: d in dirs ==> after[d].seen == dirs[d].seen
    ensures SumClaims(after, log[c := k]) + ClaimWeight(dirs, log[c]) == SumClaims(dirs, log) + ClaimWeight(dirs, k)
    decreases |log|
  {
    var n := |log| - 1;
    if c == n {
      assert log[c := k][..n] == log[..n];
      SumClaimsSame(dirs, after, log[..n]);
    } else {
      assert log[c := k][..n] == log[..n][c := k];
      SumClaimsUpdate(dirs, after, log[..n], c, k);
    }
  }

  lemma {:induction false} SumClaimsSame(dirs: map<Id, DirRow>, after: map<Id, DirRow>, log: seq<Claim>)
    requires after.Keys == dirs.Keys
    requires forall d :: d in dirs ==> after[d].seen == dirs[d].seen
    ensures SumClaims(after, log) == SumClaims(dirs, log)
    decreases |log|
  {
    if log != [] { SumClaimsSame(dirs, after, log[..|log| - 1]); }
  }

  lemma {:induction false} SumDirsUpdate(dirs: map<Id, DirRow>, attempts: map<Id, Attempts>,
                                         after: map<Id, DirRow>, now: map<Id, Attempts>, d: Id, bound: nat)
    requires d in dirs && after.Keys == dirs.Keys
    requires forall x :: x in dirs && x != d ==>
      DirWeight(now, x, after[x]) == DirWeight(attempts, x, dirs[x])
    ensures d < bound ==>
      SumDirs(after, now, bound) + DirWeight(attempts, d, dirs[d])
      == SumDirs(dirs, attempts, bound) + DirWeight(now, d, after[d])
    ensures d >= bound ==> SumDirs(after, now, bound) == SumDirs(dirs, attempts, bound)
  {
    if bound > 0 { SumDirsUpdate(dirs, attempts, after, now, d, bound - 1); }
  }

  // ----- every quiet step pays -----

  ghost predicate Bounded(s: State, bound: nat) {
    forall d :: d in s.dirs ==> d < bound
  }

  /** One claim moves on and one dir's weight changes. */
  lemma MeasureWork(s: State, t: State, c: nat, bound: nat)
    requires Bounded(s, bound) && s.dirs.Keys == t.dirs.Keys
    requires c < |s.log| && s.log[c].dir in s.dirs
    requires |t.log| == |s.log| && t.log == SetPhase(s.log, c, t.log[c].phase)
    requires forall d :: d in s.dirs ==> t.dirs[d].seen == s.dirs[d].seen
    requires var d := s.log[c].dir;
      forall x :: x in s.dirs && x != d ==>
        DirWeight(t.attempts, x, t.dirs[x]) == DirWeight(s.attempts, x, s.dirs[x])
    ensures var d := s.log[c].dir;
      SumClaims(t.dirs, t.log) + SumDirs(t.dirs, t.attempts, bound)
        + ClaimWeight(s.dirs, s.log[c]) + DirWeight(s.attempts, d, s.dirs[d])
      == SumClaims(s.dirs, s.log) + SumDirs(s.dirs, s.attempts, bound)
        + ClaimWeight(s.dirs, t.log[c]) + DirWeight(t.attempts, d, t.dirs[d])
  {
    SumClaimsUpdate(s.dirs, t.dirs, s.log, c, t.log[c]);
    SumDirsUpdate(s.dirs, s.attempts, t.dirs, t.attempts, s.log[c].dir, bound);
  }

  /** Reading and importing only move the claim forward. */
  lemma MeasureForward(s: State, e: Event, bound: nat)
    requires Enabled(s, e) && Bounded(s, bound) && (e.ReadFiles? || e.Import?)
    ensures Measure(Next(s, e), bound) < Measure(s, bound)
  {
    WorkShape(s, e);
    MeasureWork(s, Next(s, e), s.held[e.worker].value, bound);
  }

  /** A failure spends an attempt, ends the retries, or uses up an old claim. */
  lemma MeasureFail(s: State, w: nat, bound: nat)
    requires Enabled(s, Fail(w)) && Bounded(s, bound)
    ensures Measure(AfterFail(s, w), bound) < Measure(s, bound)
  {
    var t := AfterFail(s, w);
    var c := s.held[w].value;
    assert t.log == SetPhase(s.log, c, t.log[c].phase);
    MeasureWork(s, t, c, bound);
  }

  lemma MeasureClear(s: State, w: nat, bound: nat)
    requires Enabled(s, ClearCount(w)) && Bounded(s, bound)
    ensures Measure(AfterClear(s, w), bound) < Measure(s, bound)
  {
    var t := AfterClear(s, w);
    var c := s.held[w].value;
    assert t.log == SetPhase(s.log, c, t.log[c].phase);
    MeasureWork(s, t, c, bound);
  }

  lemma ReleasePays(s: State, k: Claim, applied: bool, replied: bool)
    requires k.dir in s.dirs && (k.phase.Cleared? || k.phase.Failing?)
    ensures var after := if applied then ReleaseRows(s.dirs, k.dir, k.generation, Retries(k)) else s.dirs;
      ClaimWeight(s.dirs, k.(phase := ReleasedPhase(s, k, applied, replied)))
      + DirWeight(s.attempts, k.dir, after[k.dir])
      < ClaimWeight(s.dirs, k) + DirWeight(s.attempts, k.dir, s.dirs[k.dir])
  {
  }

  lemma MeasureRelease(s: State, w: nat, applied: bool, replied: bool, bound: nat)
    requires Enabled(s, Release(w, applied, replied)) && Bounded(s, bound)
    ensures Measure(AfterRelease(s, w, applied, replied), bound) < Measure(s, bound)
  {
    var t := AfterRelease(s, w, applied, replied);
    var c := s.held[w].value;
    var k := s.log[c];
    assert t.log == SetPhase(s.log, c, ReleasedPhase(s, k, applied, replied));
    ReleasePays(s, k, applied, replied);
    MeasureWork(s, t, c, bound);
  }

  lemma MeasureRearm(s: State, w: nat, skipped: bool, bound: nat)
    requires Enabled(s, Rearm(w, skipped)) && Bounded(s, bound)
    ensures Measure(Next(s, Rearm(w, skipped)), bound) < Measure(s, bound)
  {
    var t := AfterRearm(s, w, skipped);
    var c := s.held[w].value;
    assert t.log == SetPhase(s.log, c, Over(Retried));
    MeasureWork(s, t, c, bound);
  }

  lemma MeasureReceive(s: State, w: nat, bound: nat)
    requires Places(s) && Enabled(s, Receive(w)) && Bounded(s, bound)
    ensures Measure(Next(s, Receive(w)), bound) < Measure(s, bound)
  {
    var t := Next(s, Receive(w));
    assert s.log[s.queue[0]].phase.Queued?;
    MeasureWork(s, t, s.queue[0], bound);
  }

  /** A claimed dir stops being dirty, which pays for its claim. */
  lemma {:induction false} MeasureClaim(s: State, ids: seq<Id>, bound: nat)
    requires Bounded(s, bound) && Distinct(ids)
    requires forall d :: d in ids ==> d in s.dirs && d in s.history && Claimable(s.dirs[d])
    ensures var dirs := ClaimRows(s.dirs, ids);
      SumClaims(dirs, s.log + NewClaims(s, ids)) + SumDirs(dirs, s.attempts, bound) + 2 * |ids|
      == SumClaims(s.dirs, s.log) + SumDirs(s.dirs, s.attempts, bound)
    decreases |ids|
  {
    if ids == [] {
      assert s.log + NewClaims(s, ids) == s.log;
      assert ClaimRows(s.dirs, ids) == s.dirs;
    } else {
      MeasureClaim(s, ids[..|ids| - 1], bound);
      MeasureClaimLast(s, ids, bound);
    }
  }

  lemma ClaimPays(s: State, d: Id)
    requires d in s.dirs && d in s.history && Claimable(s.dirs[d])
    ensures ClaimWeight(s.dirs, NewClaim(s, d)) == 89
    ensures DirWeight(s.attempts, d, ClaimRow(s.dirs[d])) + 91 == DirWeight(s.attempts, d, s.dirs[d])
  {
  }

  lemma MeasureClaimLast(s: State, ids: seq<Id>, bound: nat)
    requires Bounded(s, bound) && Distinct(ids) && ids != []
    requires forall d :: d in ids ==> d in s.dirs && d in s.history && Claimable(s.dirs[d])
    ensures var init := ids[..|ids| - 1];
      var dirs, before := ClaimRows(s.dirs, ids), ClaimRows(s.dirs, init);
      SumClaims(dirs, s.log + NewClaims(s, ids)) + SumDirs(dirs, s.attempts, bound) + 2
      == SumClaims(before, s.log + NewClaims(s, init)) + SumDirs(before, s.attempts, bound)
  {
    var init := ids[..|ids| - 1];
    var d := ids[|ids| - 1];
    var dirs, before := ClaimRows(s.dirs, ids), ClaimRows(s.dirs, init);
    ClaimPays(s, d);
    assert before[d] == s.dirs[d] && dirs[d] == ClaimRow(s.dirs[d]);
    assert dirs == before[d := dirs[d]];
    SumDirsUpdate(before, s.attempts, dirs, s.attempts, d, bound);
    var log, earlier := s.log + NewClaims(s, ids), s.log + NewClaims(s, init);
    assert log == earlier + [NewClaim(s, d)];
    assert log[..|log| - 1] == earlier;
    SumClaimsSame(before, dirs, earlier);
  }

  lemma {:induction false} LostWeighsLess(dirs: map<Id, DirRow>, log: seq<Claim>, n: nat)
    ensures SumClaims(dirs, LoseFrom(log, n)) <= SumClaims(dirs, log)
    decreases |log|
  {
    if log != [] {
      var m := |log| - 1;
      assert LoseFrom(log, n)[..m] == LoseFrom(log[..m], n);
      LostWeighsLess(dirs, log[..m], n);
    }
  }

  lemma MeasureLoss(s: State, ids: seq<Id>, bound: nat)
    requires Enabled(s, LoseClaims(ids)) && Bounded(s, bound)
    ensures Measure(Next(s, LoseClaims(ids)), bound) < Measure(s, bound)
  {
    MeasureClaim(s, ids, bound);
    LostWeighsLess(ClaimRows(s.dirs, ids), s.log + NewClaims(s, ids), |s.log|);
  }

  lemma MeasureDispatch(s: State, e: Event, bound: nat)
    requires Places(s) && Enabled(s, e) && Bounded(s, bound)
    requires e.WakeCall? || e.TimerFires? || e.WakeUp? || e.Send? || e.ClaimDirs?
    ensures Measure(Next(s, e), bound) < Measure(s, bound)
  {
    if e.ClaimDirs? { MeasureClaim(s, e.ids, bound); }
  }

  lemma MeasureStep(s: State, e: Event, bound: nat)
    requires Places(s) && Enabled(s, e) && Quiet(e) && Bounded(s, bound)
    ensures Measure(Next(s, e), bound) < Measure(s, bound)
  {
    if e.Receive? {
      MeasureReceive(s, e.worker, bound);
    } else if e.Release? {
      MeasureRelease(s, e.worker, e.applied, e.replied, bound);
    } else if e.Rearm? {
      MeasureRearm(s, e.worker, e.skipped, bound);
    } else if e.Fail? {
      MeasureFail(s, e.worker, bound);
    } else if e.ClearCount? {
      MeasureClear(s, e.worker, bound);
    } else if e.ReadFiles? || e.Import? {
      MeasureForward(s, e, bound);
    } else if e.LoseClaims? {
      MeasureLoss(s, e.ids, bound);
    } else {
      MeasureDispatch(s, e, bound);
    }
  }

  lemma QuietKeys(s: State, e: Event)
    requires Enabled(s, e) && Quiet(e)
    ensures Next(s, e).dirs.Keys == s.dirs.Keys
  {
  }

  /** A quiet run from `s` has at most Measure(s) steps. */
  lemma {:induction false} QuietRunsEnd(s: State, run: seq<Event>, bound: nat)
    requires Places(s) && Runs(s, run) && QuietRun(run) && Bounded(s, bound)
    ensures |run| <= Measure(s, bound)
    decreases |run|
  {
    if run != [] {
      assert run[0] in run;
      PlacesStep(s, run[0]);
      MeasureStep(s, run[0], bound);
      QuietKeys(s, run[0]);
      assert QuietRun(run[1..]);
      QuietRunsEnd(Next(s, run[0]), run[1..], bound);
    }
  }
}
