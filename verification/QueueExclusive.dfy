/** What recovery must not do: when BeginScan meets only locks of dead workers,
    a dir has one live claim, its release succeeds and the catalog is current.
    BeginScan does not check this, so both the exact condition and a run that
    breaks the conclusion are given. */
module QueueExclusive {
  import opened Basics
  import opened ParseQueue
  import opened QueueProtocol
  import opened QueuePlaces
  import opened QueueTokens

  ghost predicate OwnsLock(s: State, c: nat)
    requires c < |s.log|
  {
    var k := s.log[c];
    Live(k.phase) ==>
      HoldsLock(s.dirs, k.dir, k.generation) && k.dir in s.history && s.history[k.dir].holder == Some(c)
  }

  ghost predicate ReadOk(s: State, k: Claim) {
    match k.phase
    case Read(v) => k.dir in s.history && k.version <= v <= s.history[k.dir].version
    case Stored(v) =>
      k.dir in s.history && k.version <= v <= s.history[k.dir].version && s.history[k.dir].imported == Some(v)
    case Cleared(v) =>
      k.dir in s.history && k.version <= v <= s.history[k.dir].version && s.history[k.dir].imported == Some(v)
    case _ => true
  }

  /** The dir's latest claim used up its attempts. */
  ghost predicate GivenUp(s: State, d: Id) {
    && d in s.history && s.history[d].holder.Some? && s.history[d].holder.value < |s.log|
    && s.log[s.history[d].holder.value].phase == Over(GaveUp)
  }

  /** The catalog was last imported from the dir's latest dirty version. */
  ghost predicate Current(s: State, d: Id) {
    d in s.history && s.history[d].imported == Some(s.history[d].version)
  }

  ghost predicate CatalogOk(s: State, d: Id)
    requires d in s.dirs && d in s.history
  {
    !s.dirs[d].dirty && s.dirs[d].locked.None? && s.history[d].version > 0 ==>
      GivenUp(s, d) || Current(s, d)
  }

  ghost predicate Exclusive(s: State) {
    && s.dirs.Keys == s.history.Keys
    && (forall c :: 0 <= c < |s.log| ==> OwnsLock(s, c) && ReadOk(s, s.log[c]))
    && (forall d :: d in s.dirs ==> CatalogOk(s, d))
  }

  /** No live claim on any dir of the location. */
  ghost predicate NoneLive(s: State, location: Id) {
    forall c | 0 <= c < |s.log| && Live(s.log[c].phase) ::
      s.log[c].dir in s.dirs && s.dirs[s.log[c].dir].location != location
  }

  ghost predicate Careful(s: State, e: Event) {
    e.BeginScan? ==> NoneLive(s, e.location)
  }

  ghost predicate CarefulRun(s: State, run: seq<Event>)
    requires Runs(s, run)
    decreases |run|
  {
    run == [] || (Careful(s, run[0]) && CarefulRun(Next(s, run[0]), run[1..]))
  }

  // ----- the exact condition -----

  /** BeginScan leaves every live claim on its own lock if and only if no live claim
      is on a dir of the location; that is all it can break by itself. */
  lemma RecoveryKeepsExclusive(s: State, location: Id)
    requires Exclusive(s)
    ensures Exclusive(Next(s, BeginScan(location))) <==> NoneLive(s, location)
  {
    var t := AfterBegin(s, location);
    if NoneLive(s, location) {
      forall c | 0 <= c < |t.log| ensures OwnsLock(t, c) && ReadOk(t, t.log[c]) {
        assert OwnsLock(s, c) && ReadOk(s, s.log[c]);
      }
      forall d | d in t.dirs ensures CatalogOk(t, d) { assert CatalogOk(s, d); }
    } else {
      var c :| 0 <= c < |s.log| && Live(s.log[c].phase)
        && !(s.log[c].dir in s.dirs && s.dirs[s.log[c].dir].location != location);
      assert OwnsLock(s, c);
      assert !OwnsLock(t, c);
    }
  }

  // ----- every careful run -----

  lemma ExclusiveSync(s: State, e: Event)
    requires Exclusive(s) && e.Sync? && Enabled(s, e)
    ensures Exclusive(Next(s, e))
  {
    var t := Next(s, e);
    forall c | 0 <= c < |t.log| ensures OwnsLock(t, c) && ReadOk(t, t.log[c]) {
      assert OwnsLock(s, c) && ReadOk(s, s.log[c]);
    }
    forall d | d in t.dirs ensures CatalogOk(t, d) { assert d in s.dirs ==> CatalogOk(s, d); }
  }

  lemma ExclusiveClaim(s: State, ids: seq<Id>)
    requires Exclusive(s) && Enabled(s, ClaimDirs(ids)) && ids != []
    ensures Exclusive(Next(s, ClaimDirs(ids)))
  {
    var t := AfterClaim(s, ids);
    var n := |s.log|;
    forall c | 0 <= c < |t.log| ensures OwnsLock(t, c) && ReadOk(t, t.log[c]) {
      if c < n {
        assert OwnsLock(s, c) && ReadOk(s, s.log[c]);
      } else {
        var d := ids[c - n];
        assert t.log[c] == NewClaim(s, d);
        assert Position(ids, d) == c - n;
      }
    }
    forall d | d in t.dirs ensures CatalogOk(t, d) { assert CatalogOk(s, d); }
  }

  lemma ExclusiveLoss(s: State, ids: seq<Id>)
    requires Exclusive(s) && Enabled(s, LoseClaims(ids))
    ensures Exclusive(Next(s, LoseClaims(ids)))
  {
    ExclusiveClaim(s, ids);
    ExclusiveSame(AfterClaim(s, ids), AfterLoss(s, ids));
  }

  /** A step that changes one live claim's phase and perhaps what its dir last imported. */
  lemma ExclusivePhase(s: State, t: State, c: nat)
    requires Exclusive(s) && c < |s.log| && Live(s.log[c].phase)
    requires t.dirs == s.dirs && SameHistory(s, t)
    requires |t.log| == |s.log| && t.log[c] == s.log[c].(phase := t.log[c].phase)
    requires forall i :: 0 <= i < |s.log| && i != c ==> t.log[i] == s.log[i]
    requires forall d :: d in s.history && d != s.log[c].dir ==> t.history[d].imported == s.history[d].imported
    requires t.log[c].phase != Over(GaveUp) && ReadOk(t, t.log[c])
    ensures Exclusive(t)
  {
  }

  lemma ExclusiveImport(s: State, w: nat)
    requires Exclusive(s) && Busy(s, w) && At(s, w).phase.Read?
    ensures Exclusive(AfterImport(s, w))
  {
    var c := s.held[w].value;
    assert OwnsLock(s, c) && ReadOk(s, s.log[c]);
    ExclusivePhase(s, AfterImport(s, w), c);
  }

  lemma ExclusiveWork(s: State, e: Event)
    requires Exclusive(s) && Tokens(s) && Enabled(s, e)
    requires e.ReadFiles? || e.Fail? || e.ClearCount?
    ensures Exclusive(Next(s, e))
  {
    var t := Next(s, e);
    var c := s.held[e.worker].value;
    assert OwnsLock(s, c) && ReadOk(s, s.log[c]) && ClaimOk(s, s.log[c]);
    assert t.history == s.history && t.dirs == s.dirs;
    WorkShape(s, e);
    hide Exclusive, Tokens, OwnsLock, ClaimOk;
    ExclusivePhase(s, t, c);
  }

  lemma ExclusiveReleaseLog(s: State, t: State, c: nat, redirty: bool)
    requires Exclusive(s) && c < |s.log| && Live(s.log[c].phase) && t.history == s.history
    requires t.dirs == s.dirs || t.dirs == ReleaseRows(s.dirs, s.log[c].dir, s.log[c].generation, redirty)
    requires c < |t.log| && t.log == SetPhase(s.log, c, t.log[c].phase) && !Live(t.log[c].phase)
    ensures forall i :: 0 <= i < |t.log| ==> OwnsLock(t, i) && ReadOk(t, t.log[i])
  {
  }

  /** The released dir is clean only after its latest version was imported or given up. */
  lemma ExclusiveReleaseRow(s: State, w: nat, applied: bool, replied: bool, d: Id)
    requires Exclusive(s) && Tokens(s) && Enabled(s, Release(w, applied, replied)) && d in s.dirs
    ensures var t := AfterRelease(s, w, applied, replied);
      d in t.dirs && d in t.history && CatalogOk(t, d)
  {
    var c := s.held[w].value;
    var k := s.log[c];
    assert CatalogOk(s, d) && OwnsLock(s, c) && ReadOk(s, k) && LockOk(s, k.dir);
    hide Exclusive, Tokens;
    var t := AfterRelease(s, w, applied, replied);
    assert t.log == SetPhase(s.log, c, ReleasedPhase(s, k, applied, replied)) && t.history == s.history;
  }

  lemma ExclusiveRelease(s: State, w: nat, applied: bool, replied: bool)
    requires Exclusive(s) && Tokens(s) && Enabled(s, Release(w, applied, replied))
    ensures Exclusive(Next(s, Release(w, applied, replied)))
  {
    var t := AfterRelease(s, w, applied, replied);
    var c := s.held[w].value;
    var k := s.log[c];
    hide OwnsLock, ReadOk, CatalogOk, Tokens;
    assert t.log == SetPhase(s.log, c, ReleasedPhase(s, k, applied, replied));
    assert t.dirs.Keys == t.history.Keys;
    ExclusiveReleaseLog(s, t, c, Retries(k));
    forall d | d in t.dirs ensures CatalogOk(t, d) { ExclusiveReleaseRow(s, w, applied, replied, d); }
  }

  /** Steps that change no live claim, row or import. */
  lemma ExclusiveSame(s: State, t: State)
    requires Exclusive(s) && t.dirs == s.dirs && SameHistory(s, t)
    requires forall d :: d in s.history ==> t.history[d].imported == s.history[d].imported
    requires |t.log| == |s.log|
    requires forall c | 0 <= c < |s.log| ::
      t.log[c] == s.log[c] ||
      (t.log[c] == s.log[c].(phase := t.log[c].phase) && s.log[c].phase != Over(GaveUp) &&
       (Live(t.log[c].phase) ==> Live(s.log[c].phase)) && (t.log[c].phase.Held? || t.log[c].phase.Over?))
    ensures Exclusive(t)
  {
  }

  lemma ExclusiveQuiet(s: State, e: Event)
    requires Exclusive(s) && Enabled(s, e)
    requires e.WakeCall? || e.TimerFires? || e.WakeUp? || e == ClaimDirs([]) || e.Send?
    ensures Exclusive(Next(s, e))
  {
  }

  lemma ExclusiveCrash(s: State)
    requires Exclusive(s)
    ensures Exclusive(Next(s, Crash))
  {
  }

  lemma ExclusiveRearm(s: State, e: Event)
    requires Exclusive(s) && e.Rearm? && Enabled(s, e)
    ensures Exclusive(Next(s, e))
  {
    WorkShape(s, e);
    ExclusiveSame(s, Next(s, e));
  }

  lemma ExclusiveReceive(s: State, w: nat)
    requires Exclusive(s) && Places(s) && Enabled(s, Receive(w))
    ensures Exclusive(Next(s, Receive(w)))
  {
  }

  lemma ExclusiveStep(s: State, e: Event)
    requires Exclusive(s) && Tokens(s) && Places(s) && Enabled(s, e) && Careful(s, e)
    ensures Exclusive(Next(s, e))
  {
    if e.Release? {
      ExclusiveRelease(s, e.worker, e.applied, e.replied);
    } else if e.BeginScan? {
      RecoveryKeepsExclusive(s, e.location);
    } else if e.Sync? {
      ExclusiveSync(s, e);
    } else if e.ClaimDirs? && e.ids != [] {
      ExclusiveClaim(s, e.ids);
    } else if e.LoseClaims? {
      ExclusiveLoss(s, e.ids);
    } else if e.Receive? {
      ExclusiveReceive(s, e.worker);
    } else if e.Rearm? {
      ExclusiveRearm(s, e);
    } else if e.Import? {
      ExclusiveImport(s, e.worker);
    } else if Working(e) {
      ExclusiveWork(s, e);
    } else if e.Crash? {
      ExclusiveCrash(s);
    } else {
      ExclusiveQuiet(s, e);
    }
  }

  lemma {:induction false} ExclusiveRun(s: State, run: seq<Event>)
    requires Exclusive(s) && Tokens(s) && Places(s) && Runs(s, run) && CarefulRun(s, run)
    ensures Exclusive(Final(s, run)) && Tokens(Final(s, run)) && Places(Final(s, run))
    decreases |run|
  {
    if run != [] {
      ExclusiveStep(s, run[0]);
      TokensStep(s, run[0]);
      PlacesStep(s, run[0]);
      ExclusiveRun(Next(s, run[0]), run[1..]);
    }
  }

  /** In every careful run: two live claims never share a dir, the live claim
      holds the lock with its own token, so its release succeeds, and a dir that
      rests clean, unlocked and not given up shows its latest dirty version. */
  lemma CarefulRunsAreExclusive(workers: nat, run: seq<Event>)
    requires Runs(Init(workers), run) && CarefulRun(Init(workers), run)
    ensures var s := Final(Init(workers), run);
      && (forall a, b | 0 <= a < |s.log| && 0 <= b < |s.log| && s.log[a].dir == s.log[b].dir ::
            Live(s.log[a].phase) && Live(s.log[b].phase) ==> a == b)
      && (forall c :: 0 <= c < |s.log| && Live(s.log[c].phase) ==>
            HoldsLock(s.dirs, s.log[c].dir, s.log[c].generation))
      && (forall d | d in s.dirs && !s.dirs[d].dirty && s.dirs[d].locked.None? ::
            d in s.history && (s.history[d].version > 0 && !GivenUp(s, d) ==> Current(s, d)))
  {
    var s := Final(Init(workers), run);
    PlacesInit(workers);
    ExclusiveRun(Init(workers), run);
    forall a, b | 0 <= a < |s.log| && 0 <= b < |s.log| && Live(s.log[a].phase) && Live(s.log[b].phase)
      && s.log[a].dir == s.log[b].dir
      ensures a == b
    {
      assert OwnsLock(s, a) && OwnsLock(s, b);
    }
    forall c | 0 <= c < |s.log| && Live(s.log[c].phase)
      ensures HoldsLock(s.dirs, s.log[c].dir, s.log[c].generation)
    {
      assert OwnsLock(s, c);
    }
    forall d | d in s.dirs && !s.dirs[d].dirty && s.dirs[d].locked.None?
      ensures d in s.history && (s.history[d].version > 0 && !GivenUp(s, d) ==> Current(s, d))
    {
      assert CatalogOk(s, d);
    }
  }
}
