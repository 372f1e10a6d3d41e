/** What crash recovery does when the worker is alive: it breaks no row by itself,
    but any live worker that has read a dir can then leave an old import behind. */
module QueueRecovery {
  import opened Basics
  import opened Tables
  import opened ParseQueue
  import opened QueueProtocol
  import opened QueuePlaces
  import opened QueueExclusive

  /** BeginScan alone leaves at most one live claim per dir, and no dir that rests
      with an old import; what it takes away is the lock of a live claim. */
  lemma RecoveryItselfIsSafe(s: State, location: Id)
    requires Exclusive(s)
    ensures var t := Next(s, BeginScan(location));
      && (forall a, b | 0 <= a < |t.log| && 0 <= b < |t.log| && t.log[a].dir == t.log[b].dir ::
            Live(t.log[a].phase) && Live(t.log[b].phase) ==> a == b)
      && t.dirs.Keys == t.history.Keys && forall d :: d in t.dirs ==> CatalogOk(t, d)
  {
    var t := Next(s, BeginScan(location));
    forall a, b | 0 <= a < |t.log| && 0 <= b < |t.log| && t.log[a].dir == t.log[b].dir
      ensures Live(t.log[a].phase) && Live(t.log[b].phase) ==> a == b
    {
      assert OwnsLock(s, a) && OwnsLock(s, b);
    }
    forall d | d in t.dirs ensures CatalogOk(t, d) { assert CatalogOk(s, d); }
  }

  // ----- runs -----

  ghost predicate Leads(s: State, run: seq<Event>, t: State) {
    Runs(s, run) && Final(s, run) == t
  }

  lemma {:induction false} Append(s: State, run: seq<Event>, e: Event)
    requires Runs(s, run) && Enabled(Final(s, run), e)
    ensures Runs(s, run + [e]) && Final(s, run + [e]) == Next(Final(s, run), e)
    decreases |run|
  {
    if run == [] {
      assert run + [e] == [e];
      assert [e][1..] == [];
      assert Runs(Next(s, e), []);
    } else {
      assert (run + [e])[1..] == run[1..] + [e];
      Append(Next(s, run[0]), run[1..], e);
    }
  }

  lemma {:induction false} Join(s: State, run: seq<Event>, t: State, more: seq<Event>, end: State)
    requires Leads(s, run, t) && Leads(t, more, end)
    ensures Leads(s, run + more, end)
    decreases |run|
  {
    hide Enabled, Next;
    if run == [] {
      assert run + more == more;
    } else {
      assert (run + more)[1..] == run[1..] + more;
      Join(Next(s, run[0]), run[1..], t, more, end);
    }
  }

  /** A run grows by one enabled event. */
  lemma Do(start: State, run: seq<Event>, s: State, e: Event) returns (longer: seq<Event>, t: State)
    requires Leads(start, run, s) && Enabled(s, e)
    ensures t == Next(s, e) && Leads(start, longer, t) && longer == run + [e]
  {
    Append(start, run, e);
    longer, t := run + [e], Next(s, e);
  }

  /** Worker w imports what it read, and forgets earlier failures. */
  lemma Keep(start: State, run: seq<Event>, s: State, w: nat, read: nat) returns (longer: seq<Event>, t: State)
    requires Leads(start, run, s) && Busy(s, w) && At(s, w).phase == Read(read)
    ensures Leads(start, longer, t) && longer == run + [Import(w), ClearCount(w)]
    ensures var d := At(s, w).dir;
      t == s.(history := s.history[d := s.history[d].(imported := Some(read))],
              log := SetPhase(s.log, s.held[w].value, Cleared(read)), attempts := s.attempts - {d})
  {
    longer, t := Do(start, run, s, Import(w));
    longer, t := Do(start, longer, t, ClearCount(w));
    assert t.log == SetPhase(s.log, s.held[w].value, Cleared(read));
  }

  /** Worker w imports what it read, clears the count and releases. */
  lemma Complete(start: State, run: seq<Event>, s: State, w: nat, read: nat) returns (longer: seq<Event>, t: State)
    requires Leads(start, run, s) && Busy(s, w) && At(s, w).phase == Read(read)
    ensures Leads(start, longer, t) && longer == run + [Import(w), ClearCount(w), Release(w, true, true)]
    ensures var k := At(s, w);
      && t.dirs == ReleaseRows(s.dirs, k.dir, k.generation, false)
      && t.history == s.history[k.dir := s.history[k.dir].(imported := Some(read))]
      && t.log == SetPhase(s.log, s.held[w].value, Over(Completed))
      && t == s.(dirs := t.dirs, history := t.history, log := t.log, attempts := s.attempts - {k.dir},
                 held := s.held[w := None])
  {
    var c := s.held[w].value;
    longer, t := Keep(start, run, s, w, read);
    longer, t := Do(start, longer, t, Release(w, true, true));
    assert t.log == s.log[c := s.log[c].(phase := Over(Completed))];
  }

  // ----- an old import, from any state -----

  /** A worker holds what it read of the dir as claim c, another one is idle, and
      nothing else acts on the dir. */
  ghost predicate Reading(s: State, d: Id, c: nat, w: nat, u: nat, read: nat) {
    && w < |s.held| && u < |s.held| && s.held[w] == Some(c) && s.held[u] == None
    && c < |s.log| && s.log[c].dir == d && s.log[c].phase == Read(read)
    && (forall i | 0 <= i < |s.log| && i != c && s.log[i].dir == d :: !Live(s.log[i].phase))
    && s.dirs.Keys == s.history.Keys && d in s.dirs && s.workers > 0
    && s.batch == [] && s.queue == []
  }

  /** A newer version waits for an awake dispatcher. */
  ghost predicate NewerWaits(s: State, d: Id, c: nat, w: nat, u: nat, read: nat) {
    Reading(s, d, c, w, u, read) && !s.asleep && Claimable(s.dirs[d]) && s.history[d].version > read
  }

  /** Recovery takes the lock, and the next scan finds the dir changed. */
  lemma TakeLock(s: State, d: Id, c: nat, w: nat, u: nat, read: nat) returns (run: seq<Event>, t: State)
    requires Reading(s, d, c, w, u, read) && s.dirs[d].locked.Some? && read <= s.history[d].version
    ensures Leads(s, run, t) && NewerWaits(t, d, c, w, u, read)
    ensures run != [] && run[0] == BeginScan(s.dirs[d].location)
  {
    var row := s.dirs[d];
    assert Runs(s, []) && Final(s, []) == s;
    run, t := Do(s, [], s, BeginScan(row.location));
    run, t := Do(s, run, t, Sync(d, row.location, row.relpath, row.seen + 1, true));
    if t.asleep {
      run, t := Do(s, run, t, WakeCall);
      run, t := Do(s, run, t, WakeUp);
    }
  }

  /** A claim statement may pick any claimable dir first. */
  lemma ClaimFirst(dirs: map<Id, DirRow>, d: Id, limit: nat) returns (ids: seq<Id>)
    requires d in dirs && Claimable(dirs[d]) && limit > 0
    ensures ClaimChoice(dirs, ids, limit) && ids != [] && ids[0] == d
  {
    var left := set x | x in dirs && Claimable(dirs[x]) && x != d;
    ids := [d];
    while |ids| < limit && left != {}
      invariant 0 < |ids| <= limit && ids[0] == d && Distinct(ids)
      invariant forall x :: x in ids ==> x in dirs && Claimable(dirs[x]) && x !in left
      invariant forall x :: x in left ==> x in dirs && Claimable(dirs[x])
      invariant forall x :: x in dirs && Claimable(dirs[x]) ==> x in left || x in ids
      decreases left
    {
      var x :| x in left;
      left := left - {x};
      ids := ids + [x];
    }
  }

  /** Two workers have read the dir, the second one the newer version n. */
  ghost predicate TwoReaders(s: State, d: Id, c: nat, w: nat, read: nat, n: nat, u: nat, newer: nat) {
    && w < |s.held| && u < |s.held| && w != u && s.held[w] == Some(c) && s.held[u] == Some(n)
    && c < |s.log| && s.log[c].dir == d && s.log[c].phase == Read(read)
    && n < |s.log| && n != c && s.log[n].dir == d && s.log[n].phase == Read(newer)
    && (forall i | 0 <= i < |s.log| && i != c && i != n && s.log[i].dir == d :: !Live(s.log[i].phase))
    && d in s.dirs && d in s.history && s.history[d].version == newer > read
    && s.history[d].holder == Some(n) && s.dirs[d].locked == Some(s.log[n].generation) && !s.dirs[d].dirty
  }

  /** What claiming a dir first makes of it. */
  lemma FirstClaim(s: State, ids: seq<Id>)
    requires Enabled(s, ClaimDirs(ids)) && ids != []
    ensures var t, d, n := AfterClaim(s, ids), ids[0], |s.log|;
      && t.batch != [] && t.batch[0] == n && n < |t.log| && t.log[n] == NewClaim(s, d)
      && t.dirs[d] == ClaimRow(s.dirs[d]) && t.history[d] == s.history[d].(holder := Some(n))
      && (forall i | 0 <= i < n :: t.log[i] == s.log[i])
      && forall i | n < i < |t.log| :: t.log[i].dir != d
  {
    assert Position(ids, ids[0]) == 0;
  }

  /** The dir's new claim n is first in the channel, and its row is locked for it. */
  ghost predicate ClaimedAgain(s: State, d: Id, c: nat, w: nat, u: nat, read: nat, n: nat) {
    && w < |s.held| && u < |s.held| && s.held[w] == Some(c) && s.held[u] == None
    && c < |s.log| && s.log[c].dir == d && s.log[c].phase == Read(read)
    && n < |s.log| && n != c && s.log[n].dir == d && s.queue == [n]
    && (forall i | 0 <= i < |s.log| && i != c && i != n && s.log[i].dir == d :: !Live(s.log[i].phase))
    && d in s.dirs && d in s.history && s.history[d].version > read
    && s.history[d].holder == Some(n) && s.dirs[d].locked == Some(s.log[n].generation) && !s.dirs[d].dirty
  }

  /** The dispatcher claims the dir again and sends it on. */
  lemma ClaimAgain(start: State, run: seq<Event>, s: State, d: Id, c: nat, w: nat, u: nat, read: nat)
    returns (longer: seq<Event>, t: State)
    requires Leads(start, run, s) && NewerWaits(s, d, c, w, u, read)
    ensures Leads(start, longer, t) && run <= longer
    ensures ClaimedAgain(t, d, c, w, u, read, |s.log|)
  {
    var ids := ClaimFirst(s.dirs, d, s.workers);
    longer, t := Do(start, run, s, ClaimDirs(ids));
    FirstClaim(s, ids);
    longer, t := Do(start, longer, t, Send);
    assert t.queue == [|s.log|];
  }

  /** The idle worker takes it and reads the newer version. */
  lemma ReadAgain(start: State, run: seq<Event>, s: State, d: Id, c: nat, w: nat, u: nat, read: nat, n: nat)
    returns (longer: seq<Event>, t: State)
    requires Leads(start, run, s) && ClaimedAgain(s, d, c, w, u, read, n)
    ensures Leads(start, longer, t) && run <= longer
    ensures TwoReaders(t, d, c, w, read, n, u, s.history[d].version)
  {
    longer, t := Do(start, run, s, Receive(u));
    longer, t := Do(start, longer, t, ReadFiles(u));
  }

  /** Clean, unlocked, not given up, and yet showing an older version. */
  ghost predicate RestsStale(s: State, d: Id) {
    && d in s.dirs && d in s.history && !s.dirs[d].dirty && s.dirs[d].locked.None?
    && s.history[d].version > 0 && !GivenUp(s, d) && !Current(s, d)
    && forall i | 0 <= i < |s.log| && s.log[i].dir == d :: !Live(s.log[i].phase)
  }

  /** The newer version is imported first, the old one last. */
  lemma ImportOldLast(start: State, run: seq<Event>, s: State, d: Id, c: nat, w: nat, read: nat, n: nat, u: nat,
                      newer: nat)
    returns (longer: seq<Event>, t: State)
    requires Leads(start, run, s) && TwoReaders(s, d, c, w, read, n, u, newer)
    ensures Leads(start, longer, t) && run <= longer
    ensures RestsStale(t, d) && t.history[d].imported == Some(read)
  {
    var newest;
    longer, newest := Complete(start, run, s, u, newer);
    assert newest.dirs[d].locked.None? && newest.held[w] == Some(c) && newest.log[c] == s.log[c];
    longer, t := Complete(start, longer, newest, w, read);
    assert t.log[n].phase == Over(Completed) && t.log[c].phase == Over(Completed);
    assert forall i | 0 <= i < |t.log| && i != c && i != n :: t.log[i] == s.log[i];
  }

  /** From every state in which a worker has read a dir it holds, another worker is
      idle and nothing is queued: a run that starts with BeginScan ends with the dir
      at rest on the old import. */
  lemma RecoveryAllowsStaleImport(s: State, w: nat, u: nat) returns (run: seq<Event>, t: State)
    requires Places(s) && Exclusive(s) && s.batch == [] && s.queue == []
    requires Busy(s, w) && At(s, w).phase.Read? && u < |s.held| && s.held[u].None?
    ensures Leads(s, run, t) && run != [] && run[0] == BeginScan(s.dirs[At(s, w).dir].location)
    ensures RestsStale(t, At(s, w).dir) && t.history[At(s, w).dir].imported == Some(At(s, w).phase.read)
  {
    var c, k := s.held[w].value, At(s, w);
    var d, read := k.dir, k.phase.read;
    assert OwnsLock(s, c) && ReadOk(s, k);
    forall i | 0 <= i < |s.log| && i != c && s.log[i].dir == d ensures !Live(s.log[i].phase) {
      assert OwnsLock(s, i);
    }
    assert Reading(s, d, c, w, u, read);
    run, t := TakeLock(s, d, c, w, u, read);
    var n, first := |t.log|, run;
    run, t := ClaimAgain(s, run, t, d, c, w, u, read);
    var newer := t.history[d].version;
    run, t := ReadAgain(s, run, t, d, c, w, u, read, n);
    run, t := ImportOldLast(s, run, t, d, c, w, read, n, u, newer);
    assert run[0] == first[0];
  }
}
