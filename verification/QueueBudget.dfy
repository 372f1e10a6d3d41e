/** The retry budget of one dir. */
module QueueBudget {
  import opened Basics
  import opened Pipeline
  import opened QueueProtocol
  import opened QueuePlaces
  import opened QueueTermination

  ghost predicate PendingOn(s: State, d: Id, c: nat) {
    c < |s.log| && s.log[c].dir == d && Pending(s.log[c].phase)
  }

  /** No older-generation claim of `d` and no duplicate is in flight. */
  ghost predicate Alone(s: State, d: Id) {
    && d in s.dirs
    && (forall c: nat :: PendingOn(s, d, c) ==> s.log[c].generation == s.dirs[d].seen && !s.dirs[d].dirty)
    && (forall a: nat, b: nat :: PendingOn(s, d, a) && PendingOn(s, d, b) ==> a == b)
  }

  function AtLeastOne(n: nat): nat {
    if n == 0 then 1 else n
  }

  /** Claims yet to come once the pending claim has run its course. */
  function Later(phase: Phase, budget: nat): nat {
    match phase
    case Failing(_) => AtLeastOne(budget)
    case Stored(_) => 0
    case _ => if budget == 0 then 0 else budget - 1
  }

  /** At most `p` more claims of `d`. */
  ghost predicate Covers(s: State, d: Id, p: int)
    requires d in s.dirs
  {
    var budget := Budget(s.attempts, d, s.dirs[d]);
    && p >= 0
    && (s.dirs[d].dirty ==> AtLeastOne(budget) <= p)
    && (forall c: nat :: PendingOn(s, d, c) ==> Later(s.log[c].phase, budget) <= p)
  }

  function ClaimsOf(e: Event, d: Id): nat {
    if (e.ClaimDirs? || e.LoseClaims?) && d in e.ids then 1 else 0
  }

  function ClaimCount(run: seq<Event>, d: Id): nat {
    if run == [] then 0 else ClaimsOf(run[0], d) + ClaimCount(run[1..], d)
  }

  /** One claim changes its phase; the dir's row and count follow. */
  lemma BudgetPhase(s: State, t: State, d: Id, c: nat, p: int)
    requires Alone(s, d) && Covers(s, d, p) && c < |s.log| == |t.log| && t.log == SetPhase(s.log, c, t.log[c].phase)
    requires d in t.dirs && t.dirs[d].seen == s.dirs[d].seen
    requires PendingOn(t, d, c) ==>
      PendingOn(s, d, c) && Later(t.log[c].phase, Budget(t.attempts, d, t.dirs[d])) <= p
    requires t.dirs[d].dirty ==>
      (s.dirs[d].dirty || PendingOn(s, d, c)) && !PendingOn(t, d, c)
      && AtLeastOne(Budget(t.attempts, d, t.dirs[d])) <= p
    requires Budget(t.attempts, d, t.dirs[d]) == Budget(s.attempts, d, s.dirs[d]) || PendingOn(s, d, c)
    ensures Alone(t, d) && Covers(t, d, p)
  {
    assert forall i: nat :: i != c ==> (PendingOn(t, d, i) <==> PendingOn(s, d, i));
    forall i: nat | PendingOn(t, d, i)
      ensures t.log[i].generation == t.dirs[d].seen && !t.dirs[d].dirty
      ensures Later(t.log[i].phase, Budget(t.attempts, d, t.dirs[d])) <= p
    {
      assert PendingOn(s, d, i);
    }
  }

  lemma BudgetFail(s: State, w: nat, d: Id, p: int)
    requires Alone(s, d) && Covers(s, d, p) && Enabled(s, Fail(w))
    ensures Alone(AfterFail(s, w), d) && Covers(AfterFail(s, w), d, p)
  {
    var t := AfterFail(s, w);
    var c := s.held[w].value;
    assert t.log == SetPhase(s.log, c, t.log[c].phase);
    assert s.log[c].dir == d ==> PendingOn(s, d, c);
    BudgetPhase(s, t, d, c, p);
  }

  lemma BudgetClear(s: State, w: nat, d: Id, p: int)
    requires Alone(s, d) && Covers(s, d, p) && Enabled(s, ClearCount(w))
    ensures Alone(AfterClear(s, w), d) && Covers(AfterClear(s, w), d, p)
  {
    var t := AfterClear(s, w);
    var c := s.held[w].value;
    assert t.log == SetPhase(s.log, c, t.log[c].phase);
    assert s.log[c].dir == d ==> PendingOn(s, d, c);
    BudgetPhase(s, t, d, c, p);
  }

  lemma BudgetRelease(s: State, w: nat, applied: bool, replied: bool, d: Id, p: int)
    requires Alone(s, d) && Covers(s, d, p) && Enabled(s, Release(w, applied, replied))
    ensures var t := AfterRelease(s, w, applied, replied); Alone(t, d) && Covers(t, d, p)
  {
    var t := AfterRelease(s, w, applied, replied);
    var c := s.held[w].value;
    assert t.log == SetPhase(s.log, c, ReleasedPhase(s, s.log[c], applied, replied));
    assert s.log[c].dir == d && Retries(s.log[c]) ==> PendingOn(s, d, c);
    BudgetPhase(s, t, d, c, p);
  }

  lemma BudgetForward(s: State, e: Event, d: Id, p: int)
    requires Alone(s, d) && Covers(s, d, p) && Enabled(s, e) && (e.ReadFiles? || e.Import? || e.Rearm?)
    ensures Alone(Next(s, e), d) && Covers(Next(s, e), d, p)
  {
    var t := Next(s, e);
    var c := s.held[e.worker].value;
    WorkShape(s, e);
    assert s.log[c].dir == d && Pending(s.log[c].phase) ==> PendingOn(s, d, c);
    BudgetPhase(s, t, d, c, p);
  }

  lemma BudgetReceive(s: State, w: nat, d: Id, p: int)
    requires Alone(s, d) && Covers(s, d, p) && Places(s) && Enabled(s, Receive(w))
    ensures Alone(Next(s, Receive(w)), d) && Covers(Next(s, Receive(w)), d, p)
  {
    var c := s.queue[0];
    assert s.log[c].phase.Queued?;
    assert s.log[c].dir == d ==> PendingOn(s, d, c);
    BudgetPhase(s, Next(s, Receive(w)), d, c, p);
  }

  lemma BudgetClaim(s: State, ids: seq<Id>, d: Id, p: int)
    requires Alone(s, d) && Covers(s, d, p) && Enabled(s, ClaimDirs(ids)) && ids != []
    ensures var t := AfterClaim(s, ids); Alone(t, d) && Covers(t, d, p - ClaimsOf(ClaimDirs(ids), d))
  {
    var t := AfterClaim(s, ids);
    var n := |s.log|;
    forall c: nat | c < n ensures PendingOn(t, d, c) <==> PendingOn(s, d, c) {}
    forall c | n <= c < |t.log| ensures t.log[c] == NewClaim(s, ids[c - n]) {}
    if d in ids {
      forall c: nat | PendingOn(t, d, c) ensures c == n + Position(ids, d) {}
      assert t.log[n + Position(ids, d)] == NewClaim(s, d);
    }
  }

  lemma BudgetLoss(s: State, ids: seq<Id>, d: Id, p: int)
    requires Alone(s, d) && Covers(s, d, p) && Enabled(s, LoseClaims(ids))
    ensures var t := AfterLoss(s, ids); Alone(t, d) && Covers(t, d, p - ClaimsOf(LoseClaims(ids), d))
  {
    BudgetClaim(s, ids, d, p);
    var claimed, t := AfterClaim(s, ids), AfterLoss(s, ids);
    forall c: nat | PendingOn(t, d, c) ensures c < |s.log| && PendingOn(claimed, d, c) {}
  }

  lemma BudgetStep(s: State, e: Event, d: Id, p: int)
    requires Alone(s, d) && Covers(s, d, p) && Places(s) && Enabled(s, e) && Quiet(e)
    ensures Alone(Next(s, e), d) && Covers(Next(s, e), d, p - ClaimsOf(e, d))
  {
    if e.Receive? {
      BudgetReceive(s, e.worker, d, p);
    } else if e.Release? {
      BudgetRelease(s, e.worker, e.applied, e.replied, d, p);
    } else if e.Fail? {
      BudgetFail(s, e.worker, d, p);
    } else if e.ClearCount? {
      BudgetClear(s, e.worker, d, p);
    } else if e.ClaimDirs? && e.ids != [] {
      BudgetClaim(s, e.ids, d, p);
    } else if e.LoseClaims? {
      BudgetLoss(s, e.ids, d, p);
    } else if Working(e) {
      BudgetForward(s, e, d, p);
    } else {
      BudgetSame(s, e, d, p);
    }
  }

  lemma BudgetSame(s: State, e: Event, d: Id, p: int)
    requires Alone(s, d) && Covers(s, d, p) && Enabled(s, e)
    requires e.WakeCall? || e.TimerFires? || e.WakeUp? || e.Send? || e == ClaimDirs([])
    ensures Alone(Next(s, e), d) && Covers(Next(s, e), d, p)
  {
    forall c: nat ensures PendingOn(Next(s, e), d, c) <==> PendingOn(s, d, c) {}
  }

  lemma {:induction false} BudgetRun(s: State, run: seq<Event>, d: Id, p: int)
    requires Alone(s, d) && Covers(s, d, p) && Places(s) && Runs(s, run) && QuietRun(run)
    ensures ClaimCount(run, d) <= p
    decreases |run|
  {
    if run != [] {
      assert run[0] in run;
      BudgetStep(s, run[0], d, p);
      PlacesStep(s, run[0]);
      assert QuietRun(run[1..]);
      BudgetRun(Next(s, run[0]), run[1..], d, p - ClaimsOf(run[0], d));
    }
  }

  /** From any reachable state in which a dir has no older-generation claim and
      no duplicate in flight, the pipeline alone claims it at most
      maxParseAttempts times. */
  lemma AtMostMaxAttempts(workers: nat, before: seq<Event>, run: seq<Event>, d: Id)
    requires Runs(Init(workers), before)
    requires Alone(Final(Init(workers), before), d)
    requires Runs(Final(Init(workers), before), run) && QuietRun(run)
    ensures ClaimCount(run, d) <= MAX_PARSE_ATTEMPTS
  {
    PlacesInit(workers);
    PlacesRun(Init(workers), before);
    BudgetRun(Final(Init(workers), before), run, d, MAX_PARSE_ATTEMPTS);
  }
}
