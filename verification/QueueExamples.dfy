/** Runs that show the limits of the protocol. */
module QueueExamples {
  import opened Basics
  import opened Tables
  import opened ParseQueue
  import opened QueueProtocol
  import opened QueuePlaces
  import opened QueueExclusive
  import opened QueueRecovery
  import opened QueueWake

  const LOCATION: Id := 10
  const ALBUM: Id := 1

  ghost predicate Reached(run: seq<Event>, s: State) {
    Leads(Init(2), run, s)
  }

  /** The album is the only dir and waits to be claimed by an awake dispatcher. */
  ghost predicate Waiting(s: State) {
    && s.workers == |s.held| == 2 && s.dirs.Keys == s.history.Keys == {ALBUM}
    && Claimable(s.dirs[ALBUM]) && s.dirs[ALBUM].location == LOCATION
    && !s.asleep && s.batch == [] && s.queue == []
  }

  lemma ClaimAlbum(s: State)
    requires Waiting(s)
    ensures Enabled(s, ClaimDirs([ALBUM]))
    ensures Next(s, ClaimDirs([ALBUM])) == s.(
      dirs := s.dirs[ALBUM := ClaimRow(s.dirs[ALBUM])],
      history := s.history[ALBUM := s.history[ALBUM].(holder := Some(|s.log|))],
      log := s.log + [NewClaim(s, ALBUM)],
      batch := [|s.log|])
  {
  }

  /** The dispatcher passes its one claim to worker w. */
  lemma HandOver(run: seq<Event>, s: State, w: nat, c: nat) returns (longer: seq<Event>, t: State)
    requires Reached(run, s) && s.workers == |s.held| == 2 && w < 2 && s.held[w].None?
    requires s.batch == [c] && s.queue == [] && c < |s.log|
    ensures Reached(longer, t)
    ensures t == s.(batch := [], log := SetPhase(s.log, c, Held), held := s.held[w := Some(c)])
  {
    longer, t := Do(Init(2), run, s, Send);
    assert t.queue == [c] && t.batch == [];
    longer, t := Do(Init(2), longer, t, Receive(w));
    assert t.queue == [];
  }

  /** Worker 0 reads the first version of the album. */
  lemma FirstReader() returns (run: seq<Event>, s: State)
    ensures Reached(run, s)
    ensures s.log == [Claim(ALBUM, 1, 1, 1, Read(1))] && s.held == [Some(0), None]
    ensures s.dirs == map[ALBUM := DirRow(LOCATION, "Album", 1, false, false, Some(1))]
    ensures s.history == map[ALBUM := History(1, 1, Some(0), None)]
    ensures s.workers == 2 && s.batch == s.queue == [] && !s.asleep
    ensures s.wakes == 1 && !s.token && s.timers == 0
  {
    run, s := Do(Init(2), [], Init(2), Sync(ALBUM, LOCATION, "Album", 1, true));
    ClaimAlbum(s);
    run, s := Do(Init(2), run, s, ClaimDirs([ALBUM]));
    run, s := HandOver(run, s, 0, 0);
    run, s := Do(Init(2), run, s, ReadFiles(0));
    assert s.log == [Claim(ALBUM, 1, 1, 1, Read(1))];
  }

  /** Without the assumption of crash recovery, a worker that BeginScan took the
      lock from can import its stale read last: the album rests clean and unlocked,
      was not given up, and yet shows version 1, with nothing in flight for it. */
  lemma StaleImport() returns (run: seq<Event>, s: State)
    ensures Reached(run, s) && RestsStale(s, ALBUM) && s.history[ALBUM].imported == Some(1)
  {
    var more, reader;
    run, reader := FirstReader();
    ReaderInvariants(reader);
    more, s := RecoveryAllowsStaleImport(reader, 0, 1);
    Join(Init(2), run, reader, more, s);
    run := run + more;
  }

  lemma ReaderInvariants(s: State)
    requires s.log == [Claim(ALBUM, 1, 1, 1, Read(1))] && s.held == [Some(0), None]
    requires s.dirs == map[ALBUM := DirRow(LOCATION, "Album", 1, false, false, Some(1))]
    requires s.history == map[ALBUM := History(1, 1, Some(0), None)]
    requires s.workers == 2 && s.batch == s.queue == []
    ensures Places(s) && Exclusive(s)
  {
  }

  /** A second sync of the claimed album, and a pump that finds it locked. */
  lemma WakeUpSpent() returns (run: seq<Event>, s: State)
    ensures Reached(run, s)
    ensures s.log == [Claim(ALBUM, 1, 1, 1, Read(1))] && s.held == [Some(0), None]
    ensures s.dirs == map[ALBUM := DirRow(LOCATION, "Album", 2, false, true, Some(1))]
    ensures s.history.Keys == {ALBUM}
    ensures s.asleep && !s.token && s.wakes == 0 && s.timers == 0
  {
    run, s := FirstReader();
    run, s := Do(Init(2), run, s, WakeCall);
    run, s := Do(Init(2), run, s, ClaimDirs([]));
    run, s := Do(Init(2), run, s, Sync(ALBUM, LOCATION, "Album", 2, true));
    assert s.dirs == map[ALBUM := DirRow(LOCATION, "Album", 2, false, true, Some(1))];
    run, s := Do(Init(2), run, s, WakeCall);
    run, s := Do(Init(2), run, s, WakeUp);
    run, s := Do(Init(2), run, s, ClaimDirs([]));
  }

  /** A dir synced again while its claim is parsed stays dirty after the release,
      but the wake-up for it was already spent: the dispatcher sleeps and nothing
      is on its way to wake it. */
  lemma LostWakeUp() returns (run: seq<Event>, s: State)
    ensures Reached(run, s) && Forgotten(s, ALBUM)
    ensures forall k :: k in s.log ==> !Live(k.phase)
  {
    run, s := WakeUpSpent();
    run, s := Complete(Init(2), run, s, 0, 1);
  }
}
