/** The other half of the retry budget: no claim gives up before its dir has failed
    maxParseAttempts times in a row, and none is retried after. */
module QueueAttempts {
  import opened Basics
  import opened ParseQueue
  import opened Pipeline
  import opened QueueProtocol
  import opened QueueRecovery

  // ----- failures in a row -----

  /** How a step changes the number of failures of `d` in a row within a generation: a
      failure of another generation, an import of the dir or a crash starts anew. */
  ghost function CountAfter(s: State, e: Event, d: Id, generation: int, n: nat): nat
    requires Enabled(s, e)
  {
    match e
    case Fail(w) => if At(s, w).dir != d then n else if At(s, w).generation == generation then n + 1 else 0
    case ClearCount(w) => if At(s, w).dir == d then 0 else n
    case Crash => 0
    case _ => n
  }

  /** Failures in a row at the end of the run, with n at its start. */
  ghost function InARow(s: State, run: seq<Event>, d: Id, generation: int, n: nat): nat
    requires Runs(s, run)
    decreases |run|
  {
    if run == [] then n else InARow(Next(s, run[0]), run[1..], d, generation, CountAfter(s, run[0], d, generation, n))
  }

  /** What the pipeline has counted for the dir and generation. */
  ghost predicate Counts(s: State, d: Id, generation: int, n: nat) {
    n == if d in s.attempts && s.attempts[d].generation == generation then s.attempts[d].failures else 0
  }

  lemma CountStep(s: State, e: Event, d: Id, generation: int, n: nat)
    requires Enabled(s, e) && Counts(s, d, generation, n)
    ensures Counts(Next(s, e), d, generation, CountAfter(s, e, d, generation, n))
  {
  }

  lemma {:induction false} CountRun(s: State, run: seq<Event>, d: Id, generation: int, n: nat)
    requires Runs(s, run) && Counts(s, d, generation, n)
    ensures Counts(Final(s, run), d, generation, InARow(s, run, d, generation, n))
    decreases |run|
  {
    hide Counts, Next, Enabled, CountAfter;
    if run != [] {
      CountStep(s, run[0], d, generation, n);
      CountRun(Next(s, run[0]), run[1..], d, generation, CountAfter(s, run[0], d, generation, n));
    }
  }

  /** In every run the count of a dir is its number of failures in a row. */
  lemma CountsFailuresInARow(workers: nat, run: seq<Event>, d: Id, generation: int)
    requires Runs(Init(workers), run)
    ensures var attempts := Final(Init(workers), run).attempts;
      InARow(Init(workers), run, d, generation, 0)
        == if d in attempts && attempts[d].generation == generation then attempts[d].failures else 0
  {
    CountRun(Init(workers), run, d, generation, 0);
  }

  // ----- what a claim's failure leads to -----

  /** The budget is spent, or there is something left of it. */
  predicate Fits(n: nat, spent: bool) {
    (n >= MAX_PARSE_ATTEMPTS) == spent
  }

  /** The claim failed with a count that fits, or ended that way. */
  predicate Bound(phase: Phase, spent: bool) {
    || (phase.Failing? && Fits(phase.failures, spent))
    || phase == Over(if spent then GaveUp else Retried)
    || (!spent && phase.Rearming?)
  }

  /** In the run claim c fails, and then its dir has failed in its generation so many
      times in a row that it fits. */
  ghost predicate FailsAt(s: State, run: seq<Event>, c: nat, d: Id, generation: int, n: nat, spent: bool)
    requires Runs(s, run)
    decreases |run|
  {
    run != [] &&
    var after := CountAfter(s, run[0], d, generation, n);
    || (run[0].Fail? && s.held[run[0].worker] == Some(c) && Fits(after, spent))
    || FailsAt(Next(s, run[0]), run[1..], c, d, generation, after, spent)
  }

  /** A worker's step changes its own claim's phase. */
  lemma WorkerMoves(s: State, e: Event)
    requires Enabled(s, e) && (Working(e) || e.Release?)
    ensures Busy(s, e.worker)
    ensures var c, t := s.held[e.worker].value, Next(s, e);
      c < |s.log| == |t.log| && t.log == SetPhase(s.log, c, t.log[c].phase)
  {
    if Working(e) { WorkShape(s, e); }
  }

  /** No other step leads a claim there. */
  lemma OthersMove(s: State, e: Event, c: nat)
    requires Enabled(s, e) && !Working(e) && !e.Release?
    ensures |s.log| <= |Next(s, e).log|
    ensures c < |s.log| ==>
      Next(s, e).log[c].dir == s.log[c].dir && Next(s, e).log[c].generation == s.log[c].generation
    ensures c < |Next(s, e).log| ==>
      (c < |s.log| && Next(s, e).log[c].phase == s.log[c].phase)
      || Next(s, e).log[c].phase in {Queued, Held, Over(Lost)}
  {
  }

  /** A claim keeps its dir and token. */
  lemma ClaimStays(s: State, e: Event, c: nat)
    requires Enabled(s, e) && c < |s.log|
    ensures var t := Next(s, e);
      c < |t.log| && t.log[c].dir == s.log[c].dir && t.log[c].generation == s.log[c].generation
  {
    if Working(e) || e.Release? { WorkerMoves(s, e); } else { OthersMove(s, e, c); }
    hide Next, Enabled;
  }

  lemma {:induction false} ClaimStaysRun(s: State, run: seq<Event>, c: nat)
    requires Runs(s, run) && c < |s.log|
    ensures var t := Final(s, run);
      c < |t.log| && t.log[c].dir == s.log[c].dir && t.log[c].generation == s.log[c].generation
    decreases |run|
  {
    if run != [] {
      ClaimStays(s, run[0], c);
      ClaimStaysRun(Next(s, run[0]), run[1..], c);
    }
  }

  /** What a failure counts and leaves. */
  lemma FailOutcome(s: State, w: nat)
    requires Enabled(s, Fail(w))
    ensures var k, t := At(s, w), Next(s, Fail(w));
      && Counted(s.attempts, t.attempts, k.dir, k.generation)
      && Enabled(t, Release(w, true, true)) && At(t, w) == k.(phase := Failing(t.attempts[k.dir].failures))
      && t.dirs == s.dirs && t.timers == s.timers && t.held == s.held && |t.log| == |s.log|
  {
  }

  /** Of a worker's steps, only a failure with such a count leads there. */
  lemma BoundWorker(s: State, e: Event, n: nat, spent: bool)
    requires Enabled(s, e) && (Working(e) || e.Release?)
    requires var k := At(s, e.worker);
      Counts(s, k.dir, k.generation, n) && Bound(Next(s, e).log[s.held[e.worker].value].phase, spent)
    ensures var k := At(s, e.worker);
      Bound(k.phase, spent) || (e.Fail? && Fits(CountAfter(s, e, k.dir, k.generation, n), spent))
  {
    if e.Fail? {
      FailOutcome(s, e.worker);
    } else if e.Release? {
      BoundRelease(s, e, spent);
    } else {
      hide Counts, Recorded;
    }
  }

  lemma BoundRelease(s: State, e: Event, spent: bool)
    requires Enabled(s, e) && e.Release? && Bound(Next(s, e).log[s.held[e.worker].value].phase, spent)
    ensures Bound(At(s, e.worker).phase, spent)
  {
    var k := At(s, e.worker);
    assert Next(s, e).log[s.held[e.worker].value].phase == ReleasedPhase(s, k, e.applied, e.replied);
  }


  lemma BoundStep(s: State, e: Event, c: nat, d: Id, generation: int, n: nat, spent: bool)
    requires Enabled(s, e) && Counts(s, d, generation, n)
    requires c < |Next(s, e).log| && Next(s, e).log[c].dir == d && Next(s, e).log[c].generation == generation
    requires Bound(Next(s, e).log[c].phase, spent)
    ensures (c < |s.log| && Bound(s.log[c].phase, spent))
      || (e.Fail? && s.held[e.worker] == Some(c) && Fits(CountAfter(s, e, d, generation, n), spent))
  {
    hide Next, Enabled, CountAfter, Counts;
    if Working(e) || e.Release? {
      WorkerMoves(s, e);
      if s.held[e.worker] == Some(c) { BoundWorker(s, e, n, spent); }
    } else {
      OthersMove(s, e, c);
    }
  }

  lemma {:induction false} BoundRun(s: State, run: seq<Event>, c: nat, d: Id, generation: int, n: nat, spent: bool)
    requires Runs(s, run) && Counts(s, d, generation, n)
    requires c < |Final(s, run).log| && Bound(Final(s, run).log[c].phase, spent)
    requires Final(s, run).log[c].dir == d && Final(s, run).log[c].generation == generation
    ensures (c < |s.log| && Bound(s.log[c].phase, spent)) || FailsAt(s, run, c, d, generation, n, spent)
    decreases |run|
  {
    hide Counts, Next, Enabled, CountAfter, Bound, Fits;
    if run != [] {
      var t, more := Next(s, run[0]), CountAfter(s, run[0], d, generation, n);
      CountStep(s, run[0], d, generation, n);
      BoundRun(t, run[1..], c, d, generation, more, spent);
      if c < |t.log| && Bound(t.log[c].phase, spent) {
        ClaimStaysRun(t, run[1..], c);
        BoundStep(s, run[0], c, d, generation, n, spent);
      }
    }
  }

  /** In every run a claim that gave up did so because its dir had by then failed
      maxParseAttempts times in a row in its generation. */
  lemma GivesUpOnlyWhenSpent(workers: nat, run: seq<Event>, c: nat)
    requires Runs(Init(workers), run)
    requires c < |Final(Init(workers), run).log| && Final(Init(workers), run).log[c].phase == Over(GaveUp)
    ensures var k := Final(Init(workers), run).log[c];
      FailsAt(Init(workers), run, c, k.dir, k.generation, 0, true)
  {
    var k := Final(Init(workers), run).log[c];
    BoundRun(Init(workers), run, c, k.dir, k.generation, 0, true);
  }

  /** And one that was retried did so below that number. */
  lemma RetriesOnlyBelow(workers: nat, run: seq<Event>, c: nat)
    requires Runs(Init(workers), run)
    requires c < |Final(Init(workers), run).log| && Final(Init(workers), run).log[c].phase == Over(Retried)
    ensures var k := Final(Init(workers), run).log[c];
      FailsAt(Init(workers), run, c, k.dir, k.generation, 0, false)
  {
    var k := Final(Init(workers), run).log[c];
    BoundRun(Init(workers), run, c, k.dir, k.generation, 0, false);
  }

  // ----- the steps of one parse -----

  lemma ReleaseOutcome(s: State, w: nat)
    requires Enabled(s, Release(w, true, true)) && At(s, w).phase.Failing?
    ensures var k, t := At(s, w), Next(s, Release(w, true, true));
      var retry, locked := k.phase.failures < MAX_PARSE_ATTEMPTS, s.dirs[k.dir].locked == Some(k.generation);
      && Unlocked(s.dirs, t.dirs, k.dir, k.generation, retry)
      && t.attempts == s.attempts && t.timers == s.timers && |t.log| == |s.log|
      && (retry && locked ==>
            && Enabled(t, Rearm(w, true)) && Enabled(t, Rearm(w, false))
            && At(t, w) == k.(phase := Rearming) && t.held == s.held)
      && (!(retry && locked) ==>
            t.held == s.held[w := None] && t.log[s.held[w].value].phase == Over(if retry then Unreleased else GaveUp))
  {
    var k := At(s, w);
    ReleaseUnlocks(s.dirs, k.dir, k.generation, k.phase.failures < MAX_PARSE_ATTEMPTS);
    hide Unlocked, ReleaseRows;
  }

  lemma RearmOutcome(s: State, w: nat, skipped: bool)
    requires Enabled(s, Rearm(w, skipped))
    ensures var t := Next(s, Rearm(w, skipped));
      && t.dirs == s.dirs && t.attempts == s.attempts && t.timers == s.timers + (if skipped then 0 else 1)
      && t.held == s.held[w := None] && |t.log| == |s.log| && t.log[s.held[w].value].phase == Over(Retried)
  {
  }

  /** The steps of a failed parse add up to what one call of releaseFailed does: the
      count, the release, and the timer after a dirty release of the claim's own lock. */
  lemma FailedParse(s: State, w: nat, skipped: bool) returns (run: seq<Event>, t: State)
    requires Enabled(s, Fail(w))
    ensures Runs(s, run) && Final(s, run) == t
    ensures forall e | e in run :: e in {Fail(w), Release(w, true, true), Rearm(w, skipped)}
    ensures var k := At(s, w);
      && |t.log| == |s.log| && t.held == s.held[w := None]
      && Counted(s.attempts, t.attempts, k.dir, k.generation)
      && var retry := t.attempts[k.dir].failures < MAX_PARSE_ATTEMPTS;
         var locked := s.dirs[k.dir].locked == Some(k.generation);
         && Unlocked(s.dirs, t.dirs, k.dir, k.generation, retry)
         && t.timers == s.timers + (if retry && locked && !skipped then 1 else 0)
         && t.log[s.held[w].value].phase == Over(if !retry then GaveUp else if locked then Retried else Unreleased)
  {
    FailOutcome(s, w);
    assert Runs(s, []) && Final(s, []) == s;
    hide Counted, Unlocked, Next, Enabled;
    run, t := Do(s, [], s, Fail(w));
    ReleaseOutcome(t, w);
    run, t := Do(s, run, t, Release(w, true, true));
    if t.held[w].Some? {
      RearmOutcome(t, w, skipped);
      run, t := Do(s, run, t, Rearm(w, skipped));
    }
  }
}
