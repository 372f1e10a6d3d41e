/** Generation tokens are enough: whoever releases a lock, no dirty sync is
    forgotten, in every interleaving of syncs, claims, imports, releases,
    crashes and recoveries, even when recovery takes locks from live workers. */
module QueueTokens {
  import opened Basics
  import opened ParseQueue
  import opened QueueProtocol
  import opened QueuePlaces

  /** A claim whose token is still the dir's generation saw its last sync. */
  ghost predicate ClaimOk(s: State, k: Claim) {
    && k.dir in s.dirs && k.dir in s.history
    && k.generation <= s.dirs[k.dir].seen
    && k.syncs <= s.history[k.dir].syncs
    && k.version <= s.history[k.dir].version
    && (k.generation == s.dirs[k.dir].seen ==> k.syncs == s.history[k.dir].syncs)
    && (k.syncs == s.history[k.dir].syncs ==> k.version == s.history[k.dir].version)
  }

  /** Equal tokens mean that no sync came between the two claims. */
  ghost predicate PairOk(a: Claim, b: Claim) {
    a.dir == b.dir ==>
      && (a.generation == b.generation ==> a.syncs == b.syncs)
      && (a.syncs == b.syncs ==> a.version == b.version)
  }

  predicate Settled(phase: Phase) {
    phase == Over(Completed) || phase == Over(GaveUp)
  }

  /** A finished import, or a give-up, of a claim made at or after the latest
      dirty sync of `d`. */
  ghost predicate Settles(s: State, k: Claim, d: Id) {
    d in s.history && k.dir == d && k.version == s.history[d].version && Settled(k.phase)
  }

  ghost predicate LockOk(s: State, d: Id)
    requires d in s.dirs && d in s.history
  {
    s.dirs[d].locked.Some? ==>
      && s.history[d].holder.Some? && s.history[d].holder.value < |s.log|
      && var k := s.log[s.history[d].holder.value];
         k.dir == d && k.generation == s.dirs[d].locked.value &&
         (!s.dirs[d].dirty ==> k.version == s.history[d].version)
  }

  ghost predicate RestOk(s: State, d: Id)
    requires d in s.dirs && d in s.history
  {
    !s.dirs[d].dirty && s.dirs[d].locked.None? && s.history[d].version > 0 ==>
      exists c :: 0 <= c < |s.log| && Settles(s, s.log[c], d)
  }

  ghost predicate Tokens(s: State) {
    && s.dirs.Keys == s.history.Keys
    && (forall c :: 0 <= c < |s.log| ==> ClaimOk(s, s.log[c]))
    && (forall a, b :: 0 <= a < |s.log| && 0 <= b < |s.log| ==> PairOk(s.log[a], s.log[b]))
    && (forall d :: d in s.dirs ==> LockOk(s, d) && RestOk(s, d))
  }

  ghost predicate SameClaim(a: Claim, b: Claim) {
    && a.dir == b.dir && a.generation == b.generation && a.syncs == b.syncs && a.version == b.version
    && (Settled(a.phase) ==> b.phase == a.phase)
  }

  /** No claim is made or unsettled. */
  ghost predicate SameLog(s: State, t: State) {
    && |t.log| == |s.log|
    && (forall c :: 0 <= c < |s.log| ==> SameClaim(s.log[c], t.log[c]))
  }

  lemma LockSame(s: State, t: State, d: Id)
    requires Tokens(s) && SameLog(s, t) && SameHistory(s, t) && t.dirs.Keys == s.dirs.Keys
    requires d in s.dirs && t.dirs[d] == s.dirs[d]
    ensures LockOk(t, d) && RestOk(t, d)
  {
  }

  lemma ClaimsSame(s: State, t: State)
    requires Tokens(s) && SameLog(s, t) && SameHistory(s, t) && t.dirs.Keys == s.dirs.Keys
    requires forall d :: d in s.dirs ==> t.dirs[d].seen == s.dirs[d].seen
    ensures forall c :: 0 <= c < |t.log| ==> ClaimOk(t, t.log[c])
    ensures forall a, b :: 0 <= a < |t.log| && 0 <= b < |t.log| ==> PairOk(t.log[a], t.log[b])
  {
  }

  lemma TokensSame(s: State, t: State)
    requires Tokens(s) && t.dirs == s.dirs && SameLog(s, t) && SameHistory(s, t)
    ensures Tokens(t)
  {
  }

  /** The heart of the matter: a release that matches the lock may come from a
      claim other than the one that locked the dir, but not from one that
      missed a dirty sync. */
  lemma TokensUnlock(s: State, t: State, c: nat, redirty: bool)
    requires Tokens(s) && SameLog(s, t) && t.history == s.history
    requires c < |s.log| && t.dirs == ReleaseRows(s.dirs, s.log[c].dir, s.log[c].generation, redirty)
    requires !redirty ==> Settled(t.log[c].phase)
    ensures Tokens(t)
  {
    var k := s.log[c];
    assert SameClaim(k, t.log[c]);
    ClaimsSame(s, t);
    forall d | d in t.dirs ensures LockOk(t, d) && RestOk(t, d) {
      if t.dirs[d] == s.dirs[d] {
        LockSame(s, t, d);
      } else {
        assert d == k.dir && HoldsLock(s.dirs, d, k.generation);
        assert LockOk(s, d);
        assert PairOk(s.log[s.history[d].holder.value], k);
        if !t.dirs[d].dirty {
          assert Settles(t, t.log[c], d);
        }
      }
    }
  }

  lemma TokensRelease(s: State, w: nat, applied: bool, replied: bool)
    requires Tokens(s) && Enabled(s, Release(w, applied, replied))
    ensures Tokens(Next(s, Release(w, applied, replied)))
  {
    var t := Next(s, Release(w, applied, replied));
    var c := s.held[w].value;
    assert t.log == SetPhase(s.log, c, ReleasedPhase(s, s.log[c], applied, replied));
    if applied {
      TokensUnlock(s, t, c, Retries(s.log[c]));
    } else {
      TokensSame(s, t);
    }
  }

  lemma TokensBegin(s: State, location: Id)
    requires Tokens(s)
    ensures Tokens(Next(s, BeginScan(location)))
  {
    var t := Next(s, BeginScan(location));
    ClaimsSame(s, t);
    forall d | d in t.dirs ensures LockOk(t, d) && RestOk(t, d) {
      if t.dirs[d] == s.dirs[d] { LockSame(s, t, d); }
    }
  }

  lemma TokensSync(s: State, e: Event)
    requires Tokens(s) && e.Sync? && Enabled(s, e)
    ensures Tokens(Next(s, e))
  {
    var t := Next(s, e);
    forall c | 0 <= c < |t.log| ensures ClaimOk(t, t.log[c]) { assert ClaimOk(s, s.log[c]); }
    forall d | d in t.dirs ensures LockOk(t, d) && RestOk(t, d) {
      if d in s.dirs {
        assert LockOk(s, d) && RestOk(s, d);
        if !t.dirs[d].dirty && t.dirs[d].locked.None? && t.history[d].version > 0 {
          var c :| 0 <= c < |s.log| && Settles(s, s.log[c], d);
          assert Settles(t, t.log[c], d);
        }
      }
    }
  }

  lemma TokensClaimLog(s: State, ids: seq<Id>)
    requires Tokens(s) && Enabled(s, ClaimDirs(ids)) && ids != []
    ensures var t := Next(s, ClaimDirs(ids));
      && (forall c :: 0 <= c < |t.log| ==> ClaimOk(t, t.log[c]))
      && (forall a, b :: 0 <= a < |t.log| && 0 <= b < |t.log| ==> PairOk(t.log[a], t.log[b]))
  {
    var t := Next(s, ClaimDirs(ids));
    var n := |s.log|;
    forall c | 0 <= c < |t.log| ensures ClaimOk(t, t.log[c]) {
      if c < n { assert ClaimOk(s, s.log[c]); }
    }
    forall a, b | 0 <= a < |t.log| && 0 <= b < |t.log| ensures PairOk(t.log[a], t.log[b]) {
      if a < n && b < n {
        assert PairOk(s.log[a], s.log[b]);
      } else {
        assert a < n ==> ClaimOk(s, s.log[a]);
        assert b < n ==> ClaimOk(s, s.log[b]);
      }
    }
  }

  lemma TokensClaim(s: State, ids: seq<Id>)
    requires Tokens(s) && Enabled(s, ClaimDirs(ids)) && ids != []
    ensures Tokens(Next(s, ClaimDirs(ids)))
  {
    var t := Next(s, ClaimDirs(ids));
    TokensClaimLog(s, ids);
    forall d | d in t.dirs ensures LockOk(t, d) && RestOk(t, d) {
      assert LockOk(s, d) && RestOk(s, d);
      if d in ids {
        assert t.log[|s.log| + Position(ids, d)] == NewClaim(s, d);
      } else if !s.dirs[d].dirty && s.dirs[d].locked.None? && s.history[d].version > 0 {
        var c :| 0 <= c < |s.log| && Settles(s, s.log[c], d);
        assert Settles(t, t.log[c], d);
      }
    }
  }

  /** Losing the claims just made unsettles none. */
  lemma LossKeepsLog(s: State, ids: seq<Id>)
    requires Enabled(s, LoseClaims(ids))
    ensures SameLog(AfterClaim(s, ids), AfterLoss(s, ids)) && SameHistory(AfterClaim(s, ids), AfterLoss(s, ids))
  {
  }

  lemma TokensLoss(s: State, ids: seq<Id>)
    requires Tokens(s) && Enabled(s, LoseClaims(ids))
    ensures Tokens(Next(s, LoseClaims(ids)))
  {
    TokensClaim(s, ids);
    LossKeepsLog(s, ids);
    hide Tokens, SameLog, SameHistory;
    TokensSame(AfterClaim(s, ids), AfterLoss(s, ids));
  }

  /** A worker's other steps leave rows and settled claims alone. */
  lemma TokensWork(s: State, e: Event)
    requires Tokens(s) && Working(e) && Enabled(s, e)
    ensures Tokens(Next(s, e))
  {
    WorkShape(s, e);
    TokensSame(s, Next(s, e));
  }

  lemma TokensReceive(s: State, w: nat)
    requires Tokens(s) && Places(s) && Enabled(s, Receive(w))
    ensures Tokens(Next(s, Receive(w)))
  {
    assert s.log[s.queue[0]].phase.Queued?;
    TokensSame(s, Next(s, Receive(w)));
  }

  lemma TokensQuiet(s: State, e: Event)
    requires Tokens(s) && Enabled(s, e)
    requires e.WakeCall? || e.TimerFires? || e.WakeUp? || e == ClaimDirs([]) || e.Send? || e.Crash?
    ensures Tokens(Next(s, e))
  {
    TokensSame(s, Next(s, e));
  }

  lemma TokensStep(s: State, e: Event)
    requires Tokens(s) && Places(s) && Enabled(s, e)
    ensures Tokens(Next(s, e))
  {
    if e.Release? {
      TokensRelease(s, e.worker, e.applied, e.replied);
    } else if e.BeginScan? {
      TokensBegin(s, e.location);
    } else if e.Sync? {
      TokensSync(s, e);
    } else if e.ClaimDirs? && e.ids != [] {
      TokensClaim(s, e.ids);
    } else if e.LoseClaims? {
      TokensLoss(s, e.ids);
    } else if e.Receive? {
      TokensReceive(s, e.worker);
    } else if Working(e) {
      TokensWork(s, e);
    } else {
      TokensQuiet(s, e);
    }
  }

  lemma {:induction false} TokensRun(s: State, run: seq<Event>)
    requires Tokens(s) && Places(s) && Runs(s, run)
    ensures Tokens(Final(s, run)) && Places(Final(s, run))
    decreases |run|
  {
    if run != [] {
      PlacesStep(s, run[0]);
      TokensStep(s, run[0]);
      TokensRun(Next(s, run[0]), run[1..]);
    }
  }

  /** In every run: a dir that was ever dirty and now rests clean and unlocked
      has a finished import or a give-up that was claimed at or after its
      latest dirty sync. */
  lemma NoDirtySyncForgotten(workers: nat, run: seq<Event>, d: Id)
    requires Runs(Init(workers), run)
    requires var s := Final(Init(workers), run);
      d in s.dirs && d in s.history &&
      !s.dirs[d].dirty && s.dirs[d].locked.None? && s.history[d].version > 0
    ensures var s := Final(Init(workers), run);
      exists c :: 0 <= c < |s.log| && Settles(s, s.log[c], d)
  {
    PlacesInit(workers);
    TokensRun(Init(workers), run);
    assert RestOk(Final(Init(workers), run), d);
  }

  /** In every run: two claims of a dir with equal tokens saw the same syncs. */
  lemma EqualTokensSameSyncs(workers: nat, run: seq<Event>, a: nat, b: nat)
    requires Runs(Init(workers), run)
    requires var log := Final(Init(workers), run).log;
      a < |log| && b < |log| && log[a].dir == log[b].dir && log[a].generation == log[b].generation
    ensures var log := Final(Init(workers), run).log;
      log[a].syncs == log[b].syncs && log[a].version == log[b].version
  {
    PlacesInit(workers);
    TokensRun(Init(workers), run);
    var log := Final(Init(workers), run).log;
    assert PairOk(log[a], log[b]);
  }
}
