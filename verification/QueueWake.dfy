/** Lost wake-ups: the dispatcher sleeps, a dir could be claimed, and nothing is on
    its way to wake it. Which steps lose a wake-up is decided exactly. */
module QueueWake {
  import opened Basics
  import opened ParseQueue
  import opened QueueProtocol
  import opened QueuePlaces

  /** A worker is about to start a retry timer for the dir. */
  ghost predicate Rearms(s: State, c: nat, d: Id) {
    c < |s.log| && s.log[c].dir == d && s.log[c].phase.Rearming?
  }

  /** A token is queued, or a Wake call or a retry timer is pending. */
  predicate Called(s: State) {
    s.token || s.wakes > 0 || s.timers > 0
  }

  ghost predicate Signalled(s: State, d: Id) {
    Called(s) || exists c: nat :: Rearms(s, c, d)
  }

  /** The dispatcher sleeps over a dir that nothing will wake it for. */
  ghost predicate Forgotten(s: State, d: Id) {
    s.asleep && d in s.dirs && Claimable(s.dirs[d]) && !Signalled(s, d)
  }

  /** Nothing but claim `self` would signal the dir. */
  ghost predicate Unheard(s: State, d: Id, self: Option<nat>) {
    !Called(s) && forall c: nat :: Rearms(s, c, d) ==> self == Some(c)
  }

  /** The step frees a dirty dir, or gives its wake-up away, while the dispatcher
      sleeps and nothing else is pending: crash recovery takes a lock; a claim whose
      dir was dirtied meanwhile releases it clean; a retry is released dirty but its
      reply is lost; a retry skips its timer. */
  ghost predicate Loses(s: State, e: Event, d: Id)
    requires Enabled(s, e)
  {
    s.asleep && d in s.dirs && match e
      case BeginScan(location) =>
        s.dirs[d].location == location && s.dirs[d].locked.Some? && Unheard(s, d, None)
      case Release(w, applied, replied) =>
        && applied && At(s, w).dir == d && HoldsLock(s.dirs, d, At(s, w).generation) && Unheard(s, d, None)
        && (if Retries(At(s, w)) then !replied else s.dirs[d].dirty)
      case Rearm(w, skipped) =>
        skipped && At(s, w).dir == d && Claimable(s.dirs[d]) && Unheard(s, d, s.held[w])
      case _ => false
  }

  // ----- one step -----

  /** The same claims rearm. */
  ghost predicate SameRearms(s: State, t: State) {
    forall c: nat, d: Id :: Rearms(t, c, d) <==> Rearms(s, c, d)
  }

  /** Nothing that a wake-up depends on changed for the worse. */
  lemma NoLoss(s: State, t: State, d: Id)
    requires !Forgotten(s, d) && SameRearms(s, t) && (t.asleep ==> s.asleep) && (Called(s) ==> Called(t))
    requires d in t.dirs && Claimable(t.dirs[d]) ==> Called(t) || (d in s.dirs && Claimable(s.dirs[d]))
    ensures !Forgotten(t, d)
  {
    forall c: nat | Rearms(s, c, d) ensures Rearms(t, c, d) {}
  }

  /** One claim that was not rearming, and is not now. */
  lemma RearmsKept(s: State, t: State, c: nat)
    requires c < |s.log| == |t.log| && t.log == SetPhase(s.log, c, t.log[c].phase)
    requires !s.log[c].phase.Rearming? && !t.log[c].phase.Rearming?
    ensures SameRearms(s, t)
  {
  }

  lemma LossBegin(s: State, location: Id, d: Id)
    requires !Forgotten(s, d)
    ensures Forgotten(Next(s, BeginScan(location)), d) <==> Loses(s, BeginScan(location), d)
  {
    var t := Next(s, BeginScan(location));
    assert SameRearms(s, t);
    forall c: nat ensures Rearms(t, c, d) <==> Rearms(s, c, d) {}
  }

  /** What the release leaves of the row, the calls and the rearming claims. */
  lemma LossRelease(s: State, w: nat, applied: bool, replied: bool, d: Id)
    requires Enabled(s, Release(w, applied, replied)) && !Forgotten(s, d)
    ensures Forgotten(Next(s, Release(w, applied, replied)), d) <==> Loses(s, Release(w, applied, replied), d)
  {
    var t := AfterRelease(s, w, applied, replied);
    var c := s.held[w].value;
    assert t.log == SetPhase(s.log, c, ReleasedPhase(s, s.log[c], applied, replied));
    if t.log[c].phase.Rearming? {
      assert Rearms(t, c, s.log[c].dir);
      forall i: nat | Rearms(s, i, d) ensures Rearms(t, i, d) {}
    } else {
      RearmsKept(s, t, c);
      forall i: nat ensures Rearms(t, i, d) <==> Rearms(s, i, d) {}
    }
  }

  lemma LossRearm(s: State, w: nat, skipped: bool, d: Id)
    requires Enabled(s, Rearm(w, skipped)) && !Forgotten(s, d)
    ensures Forgotten(Next(s, Rearm(w, skipped)), d) <==> Loses(s, Rearm(w, skipped), d)
  {
    var t := AfterRearm(s, w, skipped);
    var c := s.held[w].value;
    assert t.log == SetPhase(s.log, c, Over(Retried));
    forall i: nat ensures Rearms(t, i, d) <==> Rearms(s, i, d) && i != c {}
    assert Rearms(s, c, s.log[c].dir);
  }

  lemma LossSync(s: State, e: Event, d: Id)
    requires e.Sync? && Enabled(s, e) && !Forgotten(s, d)
    ensures !Forgotten(Next(s, e), d)
  {
    NoLoss(s, Next(s, e), d);
  }

  lemma LossWork(s: State, e: Event, d: Id)
    requires Working(e) && !e.Rearm? && Enabled(s, e) && !Forgotten(s, d)
    ensures !Forgotten(Next(s, e), d)
  {
    WorkShape(s, e);
    RearmsKept(s, Next(s, e), s.held[e.worker].value);
    NoLoss(s, Next(s, e), d);
  }

  lemma LossChannel(s: State, e: Event, d: Id)
    requires Places(s) && (e.WakeCall? || e.TimerFires? || e.Send? || e.Receive?) && Enabled(s, e) && !Forgotten(s, d)
    ensures !Forgotten(Next(s, e), d)
  {
    if e.Receive? { RearmsKept(s, Next(s, e), s.queue[0]); }
    NoLoss(s, Next(s, e), d);
  }

  /** A pump falls asleep only when it found nothing to claim. */
  lemma LossDispatch(s: State, e: Event, d: Id)
    requires s.workers > 0 && (e.WakeUp? || e.ClaimDirs? || e.LoseClaims? || e.Crash?) && Enabled(s, e)
    ensures !Forgotten(Next(s, e), d)
  {
  }

  /** A step loses a dir's wake-up exactly in these cases. */
  lemma LossIff(s: State, e: Event, d: Id)
    requires Places(s) && s.workers > 0 && Enabled(s, e) && !Forgotten(s, d)
    ensures Forgotten(Next(s, e), d) <==> Loses(s, e, d)
  {
    hide Forgotten, Places, Next, Enabled;
    if e.BeginScan? {
      LossBegin(s, e.location, d);
    } else if e.Release? {
      LossRelease(s, e.worker, e.applied, e.replied, d);
    } else if e.Rearm? {
      LossRearm(s, e.worker, e.skipped, d);
    } else if e.Sync? {
      LossSync(s, e, d);
    } else if Working(e) {
      LossWork(s, e, d);
    } else if e.WakeCall? || e.TimerFires? || e.Send? || e.Receive? {
      LossChannel(s, e, d);
    } else {
      LossDispatch(s, e, d);
    }
  }

  // ----- every run -----

  /** The wake-up is lost in every state of the run. */
  ghost predicate StaysLost(s: State, run: seq<Event>, d: Id)
    requires Runs(s, run)
    decreases |run|
  {
    Forgotten(s, d) && (run == [] || StaysLost(Next(s, run[0]), run[1..], d))
  }

  /** Some step of the run loses the wake-up, and it stays lost until the end. */
  ghost predicate LosesForGood(s: State, run: seq<Event>, d: Id)
    requires Runs(s, run)
    decreases |run|
  {
    run != [] &&
    ((!Forgotten(s, d) && Loses(s, run[0], d) && StaysLost(Next(s, run[0]), run[1..], d))
     || LosesForGood(Next(s, run[0]), run[1..], d))
  }

  lemma WorkersStay(s: State, e: Event)
    requires Enabled(s, e)
    ensures Next(s, e).workers == s.workers
  {
  }

  lemma {:induction false} LostAtLastIff(s: State, run: seq<Event>, d: Id)
    requires Places(s) && s.workers > 0 && Runs(s, run)
    ensures Forgotten(Final(s, run), d) <==> StaysLost(s, run, d) || LosesForGood(s, run, d)
    decreases |run|
  {
    hide Forgotten, Places, Next, Enabled, Loses;
    if run != [] {
      PlacesStep(s, run[0]);
      WorkersStay(s, run[0]);
      LostAtLastIff(Next(s, run[0]), run[1..], d);
      if !Forgotten(s, d) {
        LossIff(s, run[0], d);
        if StaysLost(Next(s, run[0]), run[1..], d) { LostNow(Next(s, run[0]), run[1..], d); }
      }
    }
  }

  lemma LostNow(s: State, run: seq<Event>, d: Id)
    requires Runs(s, run) && StaysLost(s, run, d)
    ensures Forgotten(s, d)
  {
  }

  /** In every run: the dispatcher ends up asleep over a dir that nothing will wake
      it for if and only if one of the losing steps happened and nothing has helped
      since. */
  lemma NoOtherLostWakeUp(workers: nat, run: seq<Event>, d: Id)
    requires workers > 0 && Runs(Init(workers), run)
    ensures Forgotten(Final(Init(workers), run), d) <==> LosesForGood(Init(workers), run, d)
  {
    PlacesInit(workers);
    LostAtLastIff(Init(workers), run, d);
  }
}
