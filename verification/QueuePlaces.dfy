/** Where claims are: every unfinished claim is in exactly one place, and the
    places bound the number of claims in flight. */
module QueuePlaces {
  import opened Basics
  import opened ParseQueue
  import opened QueueProtocol

  ghost predicate QueuedAll(s: State, cs: seq<nat>) {
    && |cs| <= s.workers
    && (forall i :: 0 <= i < |cs| ==> cs[i] < |s.log| && s.log[cs[i]].phase.Queued?)
    && Distinct(cs)
  }

  ghost predicate HeldOk(s: State) {
    && |s.held| == s.workers
    && (forall w | 0 <= w < |s.held| && s.held[w].Some? ::
          && s.held[w].value < |s.log|
          && !s.log[s.held[w].value].phase.Queued? && !s.log[s.held[w].value].phase.Over?)
    && (forall v, w :: 0 <= v < w < |s.held| && s.held[v].Some? ==> s.held[v] != s.held[w])
  }

  ghost predicate Placed(s: State, c: nat)
    requires c < |s.log|
  {
    match s.log[c].phase
    case Over(_) => true
    case Queued => c in s.batch || c in s.queue
    case _ => Some(c) in s.held
  }

  ghost predicate Places(s: State) {
    && s.dirs.Keys == s.history.Keys
    && (forall c :: 0 <= c < |s.log| ==> s.log[c].dir in s.dirs)
    && QueuedAll(s, s.batch) && QueuedAll(s, s.queue)
    && (forall i, j :: 0 <= i < |s.batch| && 0 <= j < |s.queue| ==> s.batch[i] != s.queue[j])
    && HeldOk(s)
    && (forall c :: 0 <= c < |s.log| ==> Placed(s, c))
    && (s.asleep ==> s.batch == [])
  }

  lemma PlacesAdvance(s: State, w: nat, phase: Phase)
    requires Places(s) && Busy(s, w) && !phase.Queued? && !phase.Over?
    ensures Places(Advance(s, w, phase))
  {
    var t := Advance(s, w, phase);
    assert Some(s.held[w].value) in t.held;
    forall c | 0 <= c < |t.log| ensures Placed(t, c) { assert Placed(s, c); }
  }

  lemma PlacesFinish(s: State, w: nat, ending: Ending)
    requires Places(s) && Busy(s, w)
    ensures Places(Finish(s, w, ending))
  {
    var t := Finish(s, w, ending);
    var k := s.held[w].value;
    forall c | 0 <= c < |t.log| ensures Placed(t, c) {
      assert Placed(s, c);
      if c != k && Some(c) in s.held {
        var v :| 0 <= v < |s.held| && s.held[v] == Some(c);
        assert t.held[v] == Some(c);
      }
    }
  }

  /** Tables, counters and timers do not decide where a claim is. */
  lemma PlacesSame(s: State, t: State)
    requires Places(s)
    requires t.workers == s.workers && t.log == s.log && t.batch == s.batch && t.queue == s.queue && t.held == s.held
    requires t.dirs.Keys == t.history.Keys >= s.dirs.Keys
    requires t.asleep ==> t.batch == []
    ensures Places(t)
  {
    forall c | 0 <= c < |t.log| ensures Placed(t, c) { assert Placed(s, c); }
  }

  lemma PlacesClaim(s: State, ids: seq<Id>)
    requires Places(s) && Enabled(s, ClaimDirs(ids)) && ids != []
    ensures Places(Next(s, ClaimDirs(ids)))
  {
    var t := Next(s, ClaimDirs(ids));
    assert t.dirs.Keys == s.dirs.Keys && t.history.Keys == s.history.Keys;
    forall c | 0 <= c < |t.log| ensures Placed(t, c) && t.log[c].dir in t.dirs {
      if c < |s.log| {
        assert Placed(s, c);
      } else {
        assert t.batch[c - |s.log|] == c;
      }
    }
  }

  lemma PlacesLoss(s: State, ids: seq<Id>)
    requires Places(s) && Enabled(s, LoseClaims(ids))
    ensures Places(Next(s, LoseClaims(ids)))
  {
    PlacesClaim(s, ids);
    var t, n := Next(s, LoseClaims(ids)), |s.log|;
    forall c | 0 <= c < |t.log| ensures Placed(t, c) {
      if c < n { assert Placed(s, c); }
    }
  }

  lemma PlacesSend(s: State)
    requires Places(s) && Enabled(s, Send)
    ensures Places(Next(s, Send))
  {
    var t := Next(s, Send);
    assert forall i :: 0 <= i < |t.batch| ==> t.batch[i] == s.batch[i + 1];
    assert forall i :: 0 <= i < |s.queue| ==> t.queue[i] == s.queue[i];
    forall c | 0 <= c < |t.log| ensures Placed(t, c) {
      assert Placed(s, c);
      if c in s.batch {
        var i :| 0 <= i < |s.batch| && s.batch[i] == c;
        assert if i == 0 then t.queue[|s.queue|] == c else t.batch[i - 1] == c;
      }
    }
  }

  lemma PlacesReceive(s: State, w: nat)
    requires Places(s) && Enabled(s, Receive(w))
    ensures Places(Next(s, Receive(w)))
  {
    var t := Next(s, Receive(w));
    var k := s.queue[0];
    assert t.held[w] == Some(k);
    assert forall i :: 0 <= i < |t.queue| ==> t.queue[i] == s.queue[i + 1];
    assert QueuedAll(t, t.batch) && QueuedAll(t, t.queue);
    forall c | 0 <= c < |t.log| ensures Placed(t, c) {
      assert Placed(s, c);
      if Some(c) in s.held {
        var v :| 0 <= v < |s.held| && s.held[v] == Some(c);
        assert t.held[v] == Some(c);
      } else if c in s.queue && c != k {
        var i :| 0 <= i < |s.queue| && s.queue[i] == c;
        assert t.queue[i - 1] == c;
      }
    }
  }

  lemma PlacesParse(s: State, e: Event)
    requires Places(s) && Enabled(s, e)
    requires e.ReadFiles? || e.Import? || e.Fail? || e.ClearCount?
    ensures Places(Next(s, e))
  {
    var t := Next(s, e);
    var phase := At(t, e.worker).phase;
    PlacesAdvance(s, e.worker, phase);
    PlacesSame(Advance(s, e.worker, phase), t);
  }

  lemma PlacesRelease(s: State, w: nat, applied: bool, replied: bool)
    requires Places(s) && Enabled(s, Release(w, applied, replied))
    ensures Places(Next(s, Release(w, applied, replied)))
  {
    hide HoldsLock, Retries;
    var phase := ReleasedPhase(s, At(s, w), applied, replied);
    assert s.dirs.Keys == s.history.Keys && (s.asleep ==> s.batch == []);
    hide Places, ReleasedPhase, SetPhase;
    if phase.Rearming? {
      PlacesAdvance(s, w, phase);
      PlacesSame(Advance(s, w, phase), Next(s, Release(w, applied, replied)));
    } else {
      PlacesFinish(s, w, phase.ending);
      PlacesSame(Finish(s, w, phase.ending), Next(s, Release(w, applied, replied)));
    }
  }

  /** Syncs, recoveries, timers and wake-ups move no claim. */
  lemma PlacesOutside(s: State, e: Event)
    requires Places(s) && Enabled(s, e)
    requires e.BeginScan? || e.Sync? || e.WakeCall? || e.TimerFires? || e.WakeUp? || e == ClaimDirs([])
    ensures Places(Next(s, e))
  {
    PlacesSame(s, Next(s, e));
  }

  lemma PlacesRearm(s: State, e: Event)
    requires Places(s) && Enabled(s, e) && e.Rearm?
    ensures Places(Next(s, e))
  {
    PlacesFinish(s, e.worker, Retried);
    PlacesSame(Finish(s, e.worker, Retried), Next(s, e));
  }

  lemma PlacesStep(s: State, e: Event)
    requires Places(s) && Enabled(s, e)
    ensures Places(Next(s, e))
  {
    if e.Send? {
      PlacesSend(s);
    } else if e.Receive? {
      PlacesReceive(s, e.worker);
    } else if e.ReadFiles? || e.Import? || e.Fail? || e.ClearCount? {
      PlacesParse(s, e);
    } else if e.Release? {
      PlacesRelease(s, e.worker, e.applied, e.replied);
    } else if e.Rearm? {
      PlacesRearm(s, e);
    } else if e.Crash? {
    } else if e.ClaimDirs? && e.ids != [] {
      PlacesClaim(s, e.ids);
    } else if e.LoseClaims? {
      PlacesLoss(s, e.ids);
    } else {
      PlacesOutside(s, e);
    }
  }

  /** In every run, no claim is ever lost track of. */
  lemma {:induction false} PlacesRun(s: State, run: seq<Event>)
    requires Places(s) && Runs(s, run)
    ensures Places(Final(s, run))
    decreases |run|
  {
    if run != [] {
      PlacesStep(s, run[0]);
      PlacesRun(Next(s, run[0]), run[1..]);
    }
  }

  lemma PlacesInit(workers: nat)
    ensures Places(Init(workers))
  {
  }

  /** Between crashes, every unfinished claim is in exactly one of the
      dispatcher's batch, the channel and one worker. */
  lemma OnePlace(workers: nat, run: seq<Event>, c: nat)
    requires Runs(Init(workers), run)
    requires c < |Final(Init(workers), run).log|
    ensures var s := Final(Init(workers), run);
      multiset(s.batch)[c] + multiset(s.queue)[c] + multiset(s.held)[Some(c)]
      == if s.log[c].phase.Over? then 0 else 1
  {
    var s := Final(Init(workers), run);
    PlacesInit(workers);
    PlacesRun(Init(workers), run);
    DistinctCount(s.batch, c);
    DistinctCount(s.queue, c);
    DistinctCount(s.held, Some(c));
    assert Placed(s, c);
  }

  /** Backpressure: at most three claims per worker are in flight. */
  lemma ClaimsInFlight(workers: nat, run: seq<Event>)
    requires Runs(Init(workers), run)
    ensures var s := Final(Init(workers), run);
      |set c | 0 <= c < |s.log| && !s.log[c].phase.Over?| <= 3 * workers
  {
    var s := Final(Init(workers), run);
    PlacesInit(workers);
    PlacesRun(Init(workers), run);
    WorkersKept(Init(workers), run);
    var inHand := seq(|s.held|, w requires 0 <= w < |s.held| => if s.held[w].Some? then s.held[w].value else 0);
    var places := s.batch + s.queue + inHand;
    var inFlight := set c | 0 <= c < |s.log| && !s.log[c].phase.Over?;
    forall c | c in inFlight ensures c in places {
      assert Placed(s, c);
      if Some(c) in s.held {
        var w :| 0 <= w < |s.held| && s.held[w] == Some(c);
        assert inHand[w] == c;
      }
    }
    ElementsBound(places, inFlight);
  }

  lemma {:induction false} WorkersKept(s: State, run: seq<Event>)
    requires Runs(s, run)
    ensures Final(s, run).workers == s.workers
    decreases |run|
  {
    if run != [] {
      WorkersKept(Next(s, run[0]), run[1..]);
    }
  }
}
