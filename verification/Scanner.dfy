/** The scanner: it tracks runs by location and by scan, and takes one run from
    its claim to its release. */
module Scanner {
  import opened Basics
  import opened Tables
  import opened Changeset
  import opened ScanStore
  import opened ScanSync

  datatype Result<+T> = Ok(value: T) | NotFound | ScanRunning | NotRunning | BeginFailed

  /** One dir that the walk handed to a sync worker. */
  datatype Visit = Visit(relpath: string, files: seq<Walked>)

  /** The state a client sees. */
  datatype ReportedState = Stored(state: ScanState) | Cancelling
  datatype Reported = Reported(state: ReportedState, progress: Progress)

  ghost predicate Visited(visits: seq<Visit>, relpath: string) {
    exists i :: 0 <= i < |visits| && visits[i].relpath == relpath
  }

  /** The walk hands each dir over once, with each file name once. */
  ghost predicate Walkable(visits: seq<Visit>) {
    && (forall i, j :: 0 <= i < j < |visits| ==> visits[i].relpath != visits[j].relpath)
    && forall i :: 0 <= i < |visits| ==> DistinctNames(visits[i].files)
  }

  /** The present dirs of the location are the visited ones. */
  ghost predicate Exact(dirs: map<Id, DirRow>, location: Id, visits: seq<Visit>) {
    && (forall d | d in dirs && dirs[d].location == location :: !dirs[d].missing <==> Visited(visits, dirs[d].relpath))
    && forall p | Visited(visits, p) :: exists d :: AtPath(dirs, location, p, d)
  }

  /** No known dir went missing. */
  ghost predicate NoneMissing(before: map<Id, DirRow>, dirs: map<Id, DirRow>) {
    forall d | d in before && !before[d].missing :: d in dirs && !dirs[d].missing
  }

  /** What a run's syncs stamp on their rows. */
  datatype Pass = Pass(location: Id, generation: int, force: bool)

  /** This visit's dir as the scan leaves it, field by field: its files are stored as they
      were walked, it carries the scan's generation and is present, its lock stays, and
      it is dirty if it was, if the scan is forced, or if a file changed. */
  ghost predicate VisitStored(rows: map<Id, DirRow>, before: map<FileKey, FileRow>, dirs: map<Id, DirRow>,
                              files: map<FileKey, FileRow>, p: Pass, visit: Visit, d: Id)
  {
    && AtPath(dirs, p.location, visit.relpath, d)
    && AsWalked(RowsOf(before, d), visit.files, RowsOf(files, d))
    && dirs[d].seen == p.generation && !dirs[d].missing
    && dirs[d].locked == (if d in rows then rows[d].locked else None)
    && (dirs[d].dirty <==>
          (d in rows && rows[d].dirty) || p.force || FindsChange(RowsOf(before, d), visit.files))
  }

  /** Every visit has its dir. */
  ghost predicate VisitsStored(rows: map<Id, DirRow>, before: map<FileKey, FileRow>, dirs: map<Id, DirRow>,
                               files: map<FileKey, FileRow>, p: Pass, visits: seq<Visit>)
  {
    forall i | 0 <= i < |visits| :: HasDir(rows, before, dirs, files, p, visits[i])
  }

  ghost predicate HasDir(rows: map<Id, DirRow>, before: map<FileKey, FileRow>, dirs: map<Id, DirRow>,
                         files: map<FileKey, FileRow>, p: Pass, visit: Visit)
  {
    exists d :: VisitStored(rows, before, dirs, files, p, visit, d)
  }

  /** What the scan of these visits leaves alone: new dirs are visited ones; a row of
      another location is as it was; of a row of this location that was not visited, only
      the missing flag changes, and so do its files' flags with it. */
  ghost predicate OthersKept(rows: map<Id, DirRow>, before: map<FileKey, FileRow>, dirs: map<Id, DirRow>,
                             files: map<FileKey, FileRow>, location: Id, visits: seq<Visit>)
  {
    && rows.Keys <= dirs.Keys
    && (forall d | d in dirs && d !in rows :: dirs[d].location == location && Visited(visits, dirs[d].relpath))
    && (forall d | d in rows :: dirs[d].location == rows[d].location && dirs[d].relpath == rows[d].relpath)
    && (forall d | d in rows && !(rows[d].location == location && Visited(visits, rows[d].relpath)) ::
          && dirs[d] == rows[d].(missing := dirs[d].missing)
          && (rows[d].location != location || rows[d].missing ==> dirs[d].missing == rows[d].missing))
    && (forall k: FileKey
          | !(k.dir in dirs && dirs[k.dir].location == location && Visited(visits, dirs[k.dir].relpath)) ::
          && (k in files <==> k in before)
          && (k in files ==>
                && files[k] == before[k].(missing := files[k].missing)
                && (files[k].missing <==>
                      before[k].missing || (k.dir in rows && !rows[k.dir].missing && dirs[k.dir].missing))))
  }

  /** This visit's dir holds what its sync makes of the rows before the scan. */
  ghost predicate VisitSynced(before: map<FileKey, FileRow>, dirs: map<Id, DirRow>, files: map<FileKey, FileRow>,
                              location: Id, visit: Visit) {
    exists d :: AtPath(dirs, location, visit.relpath, d)
      && Synced(RowsOf(before, d), KnownFiles(RowsOf(before, d)), visit.files, RowsOf(files, d))
  }

  /** One scan in flight. */
  class Run {
    const location: Id
    const force: bool
    var scan: Option<Id>
    var generation: int
    var cancelling: bool
    var dirsSeen: nat
    var dirsMissing: nat
    var filesSeen: nat
    var filesMissing: nat

    constructor (location: Id, force: bool)
      ensures this.location == location && this.force == force && scan == None && !cancelling
      ensures Counts() == NO_PROGRESS
    {
      this.location, this.force := location, force;
      scan, generation, cancelling := None, 0, false;
      dirsSeen, dirsMissing, filesSeen, filesMissing := 0, 0, 0, 0;
    }

    function Stamp(): Pass
      reads this
    {
      Pass(location, generation, force)
    }

    /** The counts so far, during the scan or after. */
    function Counts(): Progress
      reads this
    {
      Progress(dirsSeen, dirsMissing, filesSeen, filesMissing)
    }
  }

  class Scanner {
    const store: Store
    var byLoc: map<Id, Run>
    var byScan: map<Id, Run>

    constructor (store: Store)
      ensures this.store == store && byLoc == map[] && byScan == map[]
    {
      this.store := store;
      byLoc, byScan := map[], map[];
    }

    /** Each run is tracked under its own location and scan. */
    ghost predicate Valid()
      reads this, byLoc.Values, byScan.Values
    {
      && (forall l | l in byLoc :: byLoc[l].location == l)
      && (forall x | x in byScan ::
            && byScan[x].scan == Some(x) && byScan[x].location in byLoc
            && byLoc[byScan[x].location] == byScan[x])
    }

    /** Every tracked scan has its row. */
    ghost predicate Recorded()
      reads this, store.db
    {
      byScan.Keys <= store.db.scans.Keys
    }

    /** Reserves the location. */
    method Claim(r: Run) returns (ok: bool)
      requires Valid()
      modifies `byLoc
      ensures Valid() && (ok <==> r.location !in old(byLoc))
      ensures byLoc == if ok then old(byLoc)[r.location := r] else old(byLoc)
    {
      ok := r.location !in byLoc;
      if ok { byLoc := byLoc[r.location := r]; }
    }

    /** Opens a record and tracks the run, unless the location is unknown or claimed.
        When BeginScan fails, before its commit or after, the claim is released. */
    method Start(location: Id, force: bool, now: int, commits: bool, replies: bool) returns (res: Result<Run>)
      requires Valid() && store.Valid() && Recorded()
      modifies this, store.db
      ensures Valid() && store.Valid() && Recorded()
      ensures location !in old(store.db.generations) ==> res == NotFound
      ensures location in old(store.db.generations) && location in old(byLoc) ==> res == ScanRunning
      ensures location in old(store.db.generations) && location !in old(byLoc) ==>
        res.BeginFailed? || (res.Ok? && commits && replies)
      ensures res.BeginFailed? ==> !(commits && replies)
      ensures !res.Ok? ==> byLoc == old(byLoc) && byScan == old(byScan)
      ensures store.db.files == old(store.db.files)
      ensures !(res.Ok? || (res.BeginFailed? && commits)) ==>
        && store.db.scans == old(store.db.scans) && store.db.generations == old(store.db.generations)
        && store.db.dirs == old(store.db.dirs)
      ensures res.Ok? || (res.BeginFailed? && commits) ==>
        var generation := old(store.db.generations)[location] + 1;
        && store.db.generations == old(store.db.generations)[location := generation]
        && store.db.scans == AbortRows(old(store.db.scans), Some(location))[
             old(store.db.nextId) := ScanRow(location, generation, Running, now, NO_PROGRESS)]
        && store.db.dirs == RecoverRows(old(store.db.dirs), location)
      ensures res.Ok? ==>
        var r := res.value;
        && fresh(r) && r.location == location && r.force == force && r.scan == Some(old(store.db.nextId))
        && r.generation == store.db.generations[location] && r.Counts() == NO_PROGRESS
        && byLoc == old(byLoc)[location := r] && byScan == old(byScan)[r.scan.value := r]
    {
      hide UniquePaths, FileIds, FilesFollow, Referenced;
      if location !in store.db.generations {
        return NotFound;
      }
      var r := new Run(location, force);
      var claimed := Claim(r);
      if !claimed {
        return ScanRunning;
      }
      if !commits {
        Release(r);
        return BeginFailed;
      }
      var begun := store.BeginScan(location, now);
      if !replies {
        Release(r);
        return BeginFailed;
      }
      Track(r, begun.value.0, begun.value.1);
      res := Ok(r);
    }

    /** The claimed run gets its record's identity and is found by it. */
    method Track(r: Run, generation: int, scan: Id)
      requires Valid() && r.location in byLoc && byLoc[r.location] == r && r.scan == None && scan !in byScan
      modifies this`byScan, r`scan, r`generation
      ensures Valid() && byScan == old(byScan)[scan := r] && r.scan == Some(scan) && r.generation == generation
    {
      r.generation, r.scan := generation, Some(scan);
      byScan := byScan[scan := r];
    }

    /** Forgets the run; its record stays in the store. */
    method Release(r: Run)
      requires Valid() && r.location in byLoc && byLoc[r.location] == r
      modifies this
      ensures Valid() && byLoc == old(byLoc) - {r.location}
      ensures byScan == if r.scan.Some? then old(byScan) - {r.scan.value} else old(byScan)
    {
      byLoc := byLoc - {r.location};
      if r.scan.Some? { byScan := byScan - {r.scan.value}; }
    }

    /** Stops a tracked run; finished and unknown scans report differently. */
    method Cancel(scan: Id) returns (res: Result<()>)
      requires Valid()
      modifies byScan.Values
      ensures Valid() && forall x | x in byScan :: byScan[x].cancelling == (old(byScan[x].cancelling) || x == scan)
      ensures res == if scan in byScan then Ok(()) else if scan in store.db.scans then NotRunning else NotFound
    {
      if scan in byScan && byScan[scan].location in byLoc && byLoc[byScan[scan].location] == byScan[scan] {
        byScan[scan].cancelling := true;
        return Ok(());
      }
      res := if scan in store.db.scans then NotRunning else NotFound;
    }

    /** A stored 'running' shows as cancelling once a cancel reached its run, and a
        tracked run's live counts replace the stored ones. */
    method Overlay(scan: Id) returns (reported: Option<Reported>)
      requires Valid()
      ensures reported.Some? <==> scan in store.db.scans
      ensures reported.Some? ==>
        (reported.value.state.Cancelling? <==>
           store.db.scans[scan].state.Running? && scan in byScan && byScan[scan].cancelling)
      ensures reported.Some? && reported.value.state.Stored? ==>
        reported.value.state.state == store.db.scans[scan].state
      ensures reported.Some? ==>
        reported.value.progress == (if scan in byScan then byScan[scan].Counts() else store.db.scans[scan].progress)
    {
      if scan !in store.db.scans {
        return None;
      }
      var row := store.db.scans[scan];
      if scan !in byScan {
        return Some(Reported(Stored(row.state), row.progress));
      }
      var r := byScan[scan];
      reported := Some(Reported(if row.state.Running? && r.cancelling then Cancelling else Stored(row.state),
                                r.Counts()));
    }

    /** Writes one walked dir's change set to the store and counts it. */
    method SyncDir(r: Run, visit: Visit) returns (d: Id, dirty: bool)
      requires store.Valid() && DistinctNames(visit.files)
      modifies store.db`dirs, store.db`files, store.db`nextId, r`dirsSeen, r`filesSeen, r`filesMissing
      ensures store.Valid() && AtPath(store.db.dirs, r.location, visit.relpath, d)
      ensures d in old(store.db.dirs) ==> AtPath(old(store.db.dirs), r.location, visit.relpath, d)
      ensures d !in old(store.db.dirs) ==> forall x :: !AtPath(old(store.db.dirs), r.location, visit.relpath, x)
      ensures store.db.dirs == SyncRows(old(store.db.dirs), d, r.location, visit.relpath, r.generation, dirty)
      ensures dirty <==> r.force || Dirty(KnownFiles(RowsOf(old(store.db.files), d)), visit.files)
      ensures Synced(RowsOf(old(store.db.files), d), KnownFiles(RowsOf(old(store.db.files), d)), visit.files,
                     RowsOf(store.db.files, d))
      ensures VisitStored(old(store.db.dirs), old(store.db.files), store.db.dirs, store.db.files, r.Stamp(), visit, d)
      ensures forall x :: x != d ==> RowsOf(store.db.files, x) == RowsOf(old(store.db.files), x)
      ensures r.dirsSeen == old(r.dirsSeen) + 1 && r.filesSeen == old(r.filesSeen) + |visit.files|
      ensures r.filesMissing == old(r.filesMissing)
        + |MissingNames(KnownFiles(RowsOf(old(store.db.files), d)), visit.files)|
    {
      hide Synced, RowsOf, Changes, FilesFollow, Referenced, FileIds, UniquePaths, Upserted, IsMissing,
           Minted, OwnIds, NoIds, VisitStored, Reports, SyncRows, Dirty, MissingNames, DistinctNames;
      ghost var before, next, dirs := store.db.files, store.db.nextId, store.db.dirs;
      var known: map<string, File> := map[];
      var found := store.DirID(r.location, visit.relpath);
      if found.Some? {
        known := store.KnownFiles(found.value);
      }
      ghost var at := if found.Some? then found.value else next;
      if found.None? { NoRowsYet(dirs, before, at); }
      assert known == KnownFiles(RowsOf(before, at));
      ChangesOwnIds(before, next, at, visit.files);
      forall x: Id | AtPath(dirs, r.location, visit.relpath, x) ensures found == Some(x) {
        OneAtPath(dirs, r.location, visit.relpath, x, found.value);
      }
      var changed, missing, changes := ComputeChangeset(known, visit.files);
      dirty := changes || r.force;
      var synced := store.SyncDir(SyncPayload(r.location, visit.relpath, r.generation, changed, missing, dirty));
      d := synced.value;
      if found.None? { NoRowsYet(dirs, before, d); }
      assert RowsOf(before, at) == RowsOf(before, d);
      r.dirsSeen := r.dirsSeen + 1;
      r.filesSeen := r.filesSeen + |visit.files|;
      r.filesMissing := r.filesMissing + |missing|;
      DirtyChanges(known, visit.files);
      SyncedRows(before, next, d, visit.files, missing, store.db.files);
      VisitIsStored(dirs, before, store.db.dirs, store.db.files, r.Stamp(), visit, d, dirty);
    }

    /** The sync workers' share: every visited dir is synced and counted. */
    method SyncVisits(r: Run, visits: seq<Visit>) returns (ghost ids: seq<Id>)
      requires store.Valid() && Walkable(visits)
      modifies store.db`dirs, store.db`files, store.db`nextId, r`dirsSeen, r`filesSeen, r`filesMissing
      ensures store.Valid() && r.dirsSeen == old(r.dirsSeen) + |visits|
      ensures Touched(old(store.db.files), store.db.dirs, store.db.files, r.Stamp(), visits, ids)
      ensures RestKept(old(store.db.dirs), old(store.db.files), store.db.dirs, store.db.files, ids)
      ensures AllStored(old(store.db.dirs), old(store.db.files), store.db.dirs, store.db.files, r.Stamp(), visits, ids)
      ensures r.filesMissing == old(r.filesMissing) + MissingTotal(old(store.db.files), visits, ids)
    {
      hide UniquePaths, FileIds, FilesFollow, Referenced, Synced, RowsOf, SyncRows, Dirty, MissingNames, VisitStored;
      ghost var rows, before := store.db.dirs, store.db.files;
      ids := [];
      NothingTouched(rows, before, r.Stamp(), visits);
      for i := 0 to |visits|
        invariant store.Valid() && |ids| == i && r.dirsSeen == old(r.dirsSeen) + i
        invariant Touched(before, store.db.dirs, store.db.files, r.Stamp(), visits[..i], ids)
        invariant RestKept(rows, before, store.db.dirs, store.db.files, ids)
        invariant AllStored(rows, before, store.db.dirs, store.db.files, r.Stamp(), visits[..i], ids)
        invariant r.filesMissing == old(r.filesMissing) + MissingTotal(before, visits[..i], ids)
      {
        ghost var dirs, files := store.db.dirs, store.db.files;
        var d, dirty := SyncDir(r, visits[i]);
        NextVisit(before, dirs, files, r.Stamp(), visits, ids, d, dirty, store.db.dirs, store.db.files);
        NextRest(rows, before, dirs, files, ids, r.Stamp(), visits[i].relpath, d, dirty, store.db.dirs, store.db.files);
        NextStored(rows, before, dirs, files, r.Stamp(), visits, ids, d, dirty, store.db.dirs, store.db.files);
        NextTotal(before, visits, ids, d);
        ids := ids + [d];
      }
      assert visits[..|visits|] == visits;
    }

    /** Syncs the visited dirs, and sweeps if the walk completed. A sweep that
        fails is only logged. */
    method Sync(r: Run, visits: seq<Visit>, walk: Outcome, sweeps: bool) returns (outcome: Outcome, ghost ids: seq<Id>)
      requires store.Valid() && Walkable(visits)
      requires forall d | d in store.db.dirs && store.db.dirs[d].location == r.location ::
        store.db.dirs[d].seen < r.generation
      modifies store.db`dirs, store.db`files, store.db`nextId, r`dirsSeen, r`filesSeen, r`filesMissing, r`dirsMissing
      ensures store.Valid() && outcome == walk && r.dirsSeen == old(r.dirsSeen) + |visits|
      ensures walk.Succeeded? && sweeps ==> Exact(store.db.dirs, r.location, visits)
      ensures !(walk.Succeeded? && sweeps) ==> NoneMissing(old(store.db.dirs), store.db.dirs)
      ensures forall i | 0 <= i < |visits| ::
        VisitSynced(old(store.db.files), store.db.dirs, store.db.files, r.location, visits[i])
      ensures Touched(old(store.db.files), store.db.dirs, store.db.files, r.Stamp(), visits, ids)
      ensures AllStored(old(store.db.dirs), old(store.db.files), store.db.dirs, store.db.files, r.Stamp(), visits, ids)
      ensures OthersKept(old(store.db.dirs), old(store.db.files), store.db.dirs, store.db.files, r.location, visits)
      ensures var gone := Gone(old(store.db.dirs), store.db.dirs);
        && r.dirsMissing == old(r.dirsMissing) + |gone|
        && r.filesMissing == old(r.filesMissing) + MissingTotal(old(store.db.files), visits, ids)
             + |set k | k in store.db.files && k.dir in gone|
    {
      hide UniquePaths, FileIds, FilesFollow, Referenced, Synced, RowsOf, SyncRows, VisitSynced, NoneMissing, Exact,
           Dirty, MissingNames, Gone, VisitStored, OthersKept, SweptAway, RestKept;
      ghost var rows, before := store.db.dirs, store.db.files;
      ids := SyncVisits(r, visits);
      KeptPresent(rows, before, store.db.dirs, store.db.files, r.Stamp(), visits, ids);
      NoneGone(rows, store.db.dirs, store.db.files);
      VisitsKeepOthers(rows, before, store.db.dirs, store.db.files, r.Stamp(), visits, ids);
      outcome := walk;
      if walk.Succeeded? && sweeps {
        SweepExact(rows, before, store.db.dirs, store.db.files, r.Stamp(), visits, ids);
        SweepTouched(before, store.db.dirs, store.db.files, r.Stamp(), visits, ids);
        SweptAreGone(rows, before, store.db.dirs, store.db.files, r.Stamp(), visits, ids);
        SweepStored(rows, before, store.db.dirs, store.db.files, r.Stamp(), visits, ids);
        ghost var dirs, files := store.db.dirs, store.db.files;
        var dirsSwept, filesSwept := store.Sweep(r.location, r.generation);
        SweepKeepsOthers(rows, before, dirs, files, store.db.dirs, store.db.files, r.location, r.generation, visits);
        r.dirsMissing := r.dirsMissing + dirsSwept;
        r.filesMissing := r.filesMissing + filesSwept;
      }
      TouchedSynced(before, store.db.dirs, store.db.files, r.Stamp(), visits, ids);
    }

    /** Syncs the tree, closes the record and releases the run, whatever the outcome. */
    method RunScan(r: Run, visits: seq<Visit>, walk: Outcome, sweeps: bool, finishes: bool)
      requires Valid() && store.Valid() && Walkable(visits)
      requires r.scan.Some? && r.location in byLoc && byLoc[r.location] == r
      requires forall d | d in store.db.dirs && store.db.dirs[d].location == r.location ::
        store.db.dirs[d].seen < r.generation
      modifies this, r`dirsSeen, r`filesSeen, r`filesMissing, r`dirsMissing, store.db
      ensures Valid() && store.Valid()
      ensures byLoc == old(byLoc) - {r.location} && byScan == old(byScan) - {r.scan.value}
      ensures store.db.scans ==
        if finishes then FinishRows(old(store.db.scans), r.scan.value, r.Counts(), walk) else old(store.db.scans)
      ensures walk.Succeeded? && sweeps ==> Exact(store.db.dirs, r.location, visits)
      ensures !(walk.Succeeded? && sweeps) ==> NoneMissing(old(store.db.dirs), store.db.dirs)
      ensures forall i | 0 <= i < |visits| ::
        VisitSynced(old(store.db.files), store.db.dirs, store.db.files, r.location, visits[i])
      ensures VisitsStored(old(store.db.dirs), old(store.db.files), store.db.dirs, store.db.files, r.Stamp(), visits)
      ensures OthersKept(old(store.db.dirs), old(store.db.files), store.db.dirs, store.db.files, r.location, visits)
    {
      hide UniquePaths, FileIds, FilesFollow, Referenced, VisitSynced, NoneMissing, Exact, Walkable, FinishRows;
      hide VisitsStored, OthersKept, AllStored;
      var outcome;
      ghost var ids;
      outcome, ids := Sync(r, visits, walk, sweeps);
      EachStored(old(store.db.dirs), old(store.db.files), store.db.dirs, store.db.files, r.Stamp(), visits, ids);
      if finishes { store.FinishScan(r.scan.value, r.Counts(), outcome); }
      Release(r);
    }
  }

  // ----- the proof of Sync -----

  /** `ids` are the dirs of these visits: each carries the scan's generation, is
      present, and holds what its sync makes of its old rows. */
  ghost predicate Touched(before: map<FileKey, FileRow>, dirs: map<Id, DirRow>, files: map<FileKey, FileRow>,
                          p: Pass, visits: seq<Visit>, ids: seq<Id>)
  {
    |ids| == |visits| && forall i | 0 <= i < |ids| ::
      && AtPath(dirs, p.location, visits[i].relpath, ids[i])
      && dirs[ids[i]].seen == p.generation && !dirs[ids[i]].missing
      && Synced(RowsOf(before, ids[i]), KnownFiles(RowsOf(before, ids[i])), visits[i].files, RowsOf(files, ids[i]))
  }

  /** The dirs that went missing. */
  ghost function Gone(before: map<Id, DirRow>, dirs: map<Id, DirRow>): set<Id> {
    set d | d in before && d in dirs && !before[d].missing && dirs[d].missing
  }

  /** Files reported missing by the visits of these dirs. */
  ghost function MissingTotal(before: map<FileKey, FileRow>, visits: seq<Visit>, ids: seq<Id>): nat
    requires |visits| == |ids|
  {
    if ids == [] then 0
    else
      var n := |ids| - 1;
      MissingTotal(before, visits[..n], ids[..n]) + |MissingNames(KnownFiles(RowsOf(before, ids[n])), visits[n].files)|
  }

  lemma NextTotal(before: map<FileKey, FileRow>, visits: seq<Visit>, ids: seq<Id>, d: Id)
    requires |ids| < |visits|
    ensures MissingTotal(before, visits[..|ids| + 1], ids + [d])
      == MissingTotal(before, visits[..|ids|], ids)
         + |MissingNames(KnownFiles(RowsOf(before, d)), visits[|ids|].files)|
  {
    var more := ids + [d];
    assert more[..|ids|] == ids && visits[..|ids| + 1][..|ids|] == visits[..|ids|];
  }

  lemma NoneGone(rows: map<Id, DirRow>, dirs: map<Id, DirRow>, files: map<FileKey, FileRow>)
    requires NoneMissing(rows, dirs)
    ensures Gone(rows, dirs) == {} && (set k | k in files && k.dir in Gone(rows, dirs)) == {}
  {
  }

  /** What a sweep takes is what went missing since the scan began. */
  lemma SweptAreGone(rows: map<Id, DirRow>, before: map<FileKey, FileRow>, dirs: map<Id, DirRow>,
                     files: map<FileKey, FileRow>, p: Pass, visits: seq<Visit>, ids: seq<Id>)
    requires forall d | d in rows && rows[d].location == p.location :: rows[d].seen < p.generation
    requires Touched(before, dirs, files, p, visits, ids) && RestKept(rows, before, dirs, files, ids)
    ensures var gone := Gone(rows, SweepRows(dirs, p.location, p.generation));
      && gone == (set d | d in dirs && Stale(dirs[d], p.location, p.generation))
      && (set k | k in SweepFiles(dirs, files, p.location, p.generation) && k.dir in gone)
         == set k | k in files && k.dir in dirs && Stale(dirs[k.dir], p.location, p.generation)
  {
    hide Synced, RowsOf;
    var gone := Gone(rows, SweepRows(dirs, p.location, p.generation));
    forall d | d in ids ensures d in dirs && !Stale(dirs[d], p.location, p.generation) && !dirs[d].missing {
      var i :| 0 <= i < |ids| && ids[i] == d;
    }
    assert forall d :: d in gone <==> d in dirs && Stale(dirs[d], p.location, p.generation);
  }

  /** Every visit's dir is as its sync leaves it. */
  ghost predicate AllStored(rows: map<Id, DirRow>, before: map<FileKey, FileRow>, dirs: map<Id, DirRow>,
                            files: map<FileKey, FileRow>, p: Pass, visits: seq<Visit>, ids: seq<Id>)
  {
    |ids| == |visits| && forall i | 0 <= i < |ids| :: VisitStored(rows, before, dirs, files, p, visits[i], ids[i])
  }

  lemma EachStored(rows: map<Id, DirRow>, before: map<FileKey, FileRow>, dirs: map<Id, DirRow>,
                   files: map<FileKey, FileRow>, p: Pass, visits: seq<Visit>, ids: seq<Id>)
    requires AllStored(rows, before, dirs, files, p, visits, ids)
    ensures VisitsStored(rows, before, dirs, files, p, visits)
  {
    forall i | 0 <= i < |visits| ensures HasDir(rows, before, dirs, files, p, visits[i]) {
      assert VisitStored(rows, before, dirs, files, p, visits[i], ids[i]);
    }
  }

  /** The sync of one more dir leaves the earlier ones alone. */
  lemma NextStored(rows: map<Id, DirRow>, before: map<FileKey, FileRow>, dirs: map<Id, DirRow>,
                   files: map<FileKey, FileRow>, p: Pass, visits: seq<Visit>, ids: seq<Id>, d: Id, dirty: bool,
                   dirs': map<Id, DirRow>, files': map<FileKey, FileRow>)
    requires |ids| < |visits| && Walkable(visits)
    requires AllStored(rows, before, dirs, files, p, visits[..|ids|], ids) && RestKept(rows, before, dirs, files, ids)
    requires VisitStored(dirs, files, dirs', files', p, visits[|ids|], d)
    requires d !in ids && dirs' == SyncRows(dirs, d, p.location, visits[|ids|].relpath, p.generation, dirty)
    requires forall x :: x != d ==> RowsOf(files', x) == RowsOf(files, x)
    ensures AllStored(rows, before, dirs', files', p, visits[..|ids| + 1], ids + [d])
  {
    hide AsWalked, FindsChange, RowsOf;
    var n := |ids|;
    forall i | 0 <= i < n ensures VisitStored(rows, before, dirs', files', p, visits[i], ids[i]) {
      assert visits[..n][i] == visits[i];
      assert visits[i].relpath != visits[n].relpath;
      assert VisitStored(rows, before, dirs, files, p, visits[..n][i], ids[i]);
    }
    assert VisitStored(rows, before, dirs', files', p, visits[n], d);
    hide VisitStored, RestKept, Walkable, SyncRows;
    assert forall i | 0 <= i < n :: visits[..n + 1][i] == visits[..n][i];
    assert visits[..n + 1][n] == visits[n];
  }

  /** No other dir changed, and none moved. */
  ghost predicate RestKept(rows: map<Id, DirRow>, before: map<FileKey, FileRow>, dirs: map<Id, DirRow>,
                           files: map<FileKey, FileRow>, ids: seq<Id>)
  {
    && rows.Keys <= dirs.Keys
    && (forall d | d in rows :: dirs[d].location == rows[d].location && dirs[d].relpath == rows[d].relpath)
    && (forall d | d in dirs && d !in ids :: d in rows && dirs[d] == rows[d])
    && forall d | d !in ids :: RowsOf(files, d) == RowsOf(before, d)
  }

  /** One more dir may have changed. */
  lemma NextRest(rows: map<Id, DirRow>, before: map<FileKey, FileRow>, dirs: map<Id, DirRow>,
                 files: map<FileKey, FileRow>, ids: seq<Id>, p: Pass, relpath: string, d: Id, dirty: bool,
                 dirs': map<Id, DirRow>, files': map<FileKey, FileRow>)
    requires RestKept(rows, before, dirs, files, ids)
    requires dirs' == SyncRows(dirs, d, p.location, relpath, p.generation, dirty)
    requires forall x :: x != d ==> RowsOf(files', x) == RowsOf(files, x)
    ensures RestKept(rows, before, dirs', files', ids + [d])
  {
    hide RowsOf;
    assert forall x :: x !in ids + [d] <==> x !in ids && x != d;
  }

  /** One more visit, of a dir that no earlier one was of. */
  lemma NextVisit(before: map<FileKey, FileRow>, dirs: map<Id, DirRow>, files: map<FileKey, FileRow>, p: Pass,
                  visits: seq<Visit>, ids: seq<Id>, d: Id, dirty: bool, dirs': map<Id, DirRow>,
                  files': map<FileKey, FileRow>)
    requires |ids| < |visits| && Walkable(visits) && Touched(before, dirs, files, p, visits[..|ids|], ids)
    requires d !in ids ==> RowsOf(files, d) == RowsOf(before, d)
    requires var visit := visits[|ids|];
      && AtPath(dirs', p.location, visit.relpath, d) && (d in dirs ==> AtPath(dirs, p.location, visit.relpath, d))
      && dirs' == SyncRows(dirs, d, p.location, visit.relpath, p.generation, dirty)
      && Synced(RowsOf(files, d), KnownFiles(RowsOf(files, d)), visit.files, RowsOf(files', d))
      && forall x :: x != d ==> RowsOf(files', x) == RowsOf(files, x)
    ensures d !in ids && Touched(before, dirs', files', p, visits[..|ids| + 1], ids + [d])
  {
    hide Synced, RowsOf;
    var n := |ids|;
    forall i | 0 <= i < n ensures ids[i] != d {
      assert visits[..n][i] == visits[i];
      assert visits[i].relpath != visits[n].relpath;
    }
    assert forall i | 0 <= i < n :: visits[..n + 1][i] == visits[..n][i];
    assert visits[..n + 1][n] == visits[n];
  }

  /** Sweeping takes the dirs that no visit touched, and only those. */
  lemma SweepExact(rows: map<Id, DirRow>, before: map<FileKey, FileRow>, dirs: map<Id, DirRow>,
                   files: map<FileKey, FileRow>, p: Pass, visits: seq<Visit>, ids: seq<Id>)
    requires UniquePaths(dirs)
    requires forall d | d in rows && rows[d].location == p.location :: rows[d].seen < p.generation
    requires Touched(before, dirs, files, p, visits, ids) && RestKept(rows, before, dirs, files, ids)
    ensures Exact(SweepRows(dirs, p.location, p.generation), p.location, visits)
  {
    hide Synced, RowsOf, UniquePaths;
    var swept := SweepRows(dirs, p.location, p.generation);
    forall d | d in swept && swept[d].location == p.location
      ensures !swept[d].missing <==> Visited(visits, swept[d].relpath)
    {
      if d in ids {
        var i :| 0 <= i < |ids| && ids[i] == d;
        assert visits[i].relpath == swept[d].relpath;
      }
      forall i | 0 <= i < |visits| && visits[i].relpath == swept[d].relpath ensures d in ids {
        OneAtPath(dirs, p.location, swept[d].relpath, d, ids[i]);
      }
    }
    forall path | Visited(visits, path) ensures exists d :: AtPath(swept, p.location, path, d) {
      var i :| 0 <= i < |visits| && visits[i].relpath == path;
      assert AtPath(swept, p.location, path, ids[i]);
    }
  }

  lemma SweepTouched(before: map<FileKey, FileRow>, dirs: map<Id, DirRow>, files: map<FileKey, FileRow>,
                     p: Pass, visits: seq<Visit>, ids: seq<Id>)
    requires Touched(before, dirs, files, p, visits, ids)
    ensures Touched(before, SweepRows(dirs, p.location, p.generation),
                    SweepFiles(dirs, files, p.location, p.generation), p, visits, ids)
  {
    hide Synced;
    forall i | 0 <= i < |ids|
      ensures RowsOf(SweepFiles(dirs, files, p.location, p.generation), ids[i]) == RowsOf(files, ids[i])
    {
      assert !Stale(dirs[ids[i]], p.location, p.generation);
    }
  }

  /** A sweep takes no visited dir. */
  lemma SweepStored(rows: map<Id, DirRow>, before: map<FileKey, FileRow>, dirs: map<Id, DirRow>,
                    files: map<FileKey, FileRow>, p: Pass, visits: seq<Visit>, ids: seq<Id>)
    requires AllStored(rows, before, dirs, files, p, visits, ids)
    ensures AllStored(rows, before, SweepRows(dirs, p.location, p.generation),
                      SweepFiles(dirs, files, p.location, p.generation), p, visits, ids)
  {
    hide AsWalked, FindsChange;
    forall i | 0 <= i < |ids|
      ensures RowsOf(SweepFiles(dirs, files, p.location, p.generation), ids[i]) == RowsOf(files, ids[i])
      ensures ids[i] in dirs && SweepRows(dirs, p.location, p.generation)[ids[i]] == dirs[ids[i]]
    {
      assert VisitStored(rows, before, dirs, files, p, visits[i], ids[i]);
      assert !Stale(dirs[ids[i]], p.location, p.generation);
    }
    hide RowsOf;
  }

  lemma IdsVisited(before: map<FileKey, FileRow>, dirs: map<Id, DirRow>, files: map<FileKey, FileRow>, p: Pass,
                   visits: seq<Visit>, ids: seq<Id>)
    requires Touched(before, dirs, files, p, visits, ids)
    ensures forall d | d in ids :: d in dirs && dirs[d].location == p.location && Visited(visits, dirs[d].relpath)
  {
    hide Synced;
    forall d | d in ids
      ensures d in dirs && dirs[d].location == p.location && Visited(visits, dirs[d].relpath)
    {
      var i :| 0 <= i < |ids| && ids[i] == d;
      assert visits[i].relpath == dirs[d].relpath;
    }
  }

  lemma FilesKept(rows: map<Id, DirRow>, before: map<FileKey, FileRow>, dirs: map<Id, DirRow>,
                  files: map<FileKey, FileRow>, ids: seq<Id>)
    requires RestKept(rows, before, dirs, files, ids)
    ensures forall k: FileKey | k.dir !in ids :: (k in files <==> k in before) && (k in files ==> files[k] == before[k])
  {
    forall k: FileKey | k.dir !in ids ensures (k in files <==> k in before) && (k in files ==> files[k] == before[k]) {
      RowAt(files, k.dir, k.name);
      RowAt(before, k.dir, k.name);
    }
  }

  /** Syncing the visits changes no other dir and none of its files. */
  lemma VisitsKeepOthers(rows: map<Id, DirRow>, before: map<FileKey, FileRow>, dirs: map<Id, DirRow>,
                         files: map<FileKey, FileRow>, p: Pass, visits: seq<Visit>, ids: seq<Id>)
    requires Touched(before, dirs, files, p, visits, ids) && RestKept(rows, before, dirs, files, ids)
    ensures OthersKept(rows, before, dirs, files, p.location, visits)
  {
    IdsVisited(before, dirs, files, p, visits, ids);
    FilesKept(rows, before, dirs, files, ids);
    hide RowsOf, Touched, Visited;
  }

  /** Nor does the sweep after it, but for what goes missing. */
  lemma SweepKeepsOthers(rows: map<Id, DirRow>, before: map<FileKey, FileRow>, dirs: map<Id, DirRow>,
                         files: map<FileKey, FileRow>, dirs': map<Id, DirRow>, files': map<FileKey, FileRow>,
                         location: Id, generation: int, visits: seq<Visit>)
    requires OthersKept(rows, before, dirs, files, location, visits)
    requires SweptAway(dirs, files, dirs', files', location, generation)
    ensures OthersKept(rows, before, dirs', files', location, visits)
  {
    hide Visited;
  }

  lemma TouchedSynced(before: map<FileKey, FileRow>, dirs: map<Id, DirRow>, files: map<FileKey, FileRow>,
                      p: Pass, visits: seq<Visit>, ids: seq<Id>)
    requires Touched(before, dirs, files, p, visits, ids)
    ensures forall i | 0 <= i < |visits| :: VisitSynced(before, dirs, files, p.location, visits[i])
  {
  }

  lemma NothingTouched(rows: map<Id, DirRow>, before: map<FileKey, FileRow>, p: Pass, visits: seq<Visit>)
    ensures Touched(before, rows, before, p, visits[..0], []) && RestKept(rows, before, rows, before, [])
    ensures AllStored(rows, before, rows, before, p, visits[..0], [])
  {
  }

  lemma KeptPresent(rows: map<Id, DirRow>, before: map<FileKey, FileRow>, dirs: map<Id, DirRow>,
                    files: map<FileKey, FileRow>, p: Pass, visits: seq<Visit>, ids: seq<Id>)
    requires Touched(before, dirs, files, p, visits, ids) && RestKept(rows, before, dirs, files, ids)
    ensures NoneMissing(rows, dirs)
  {
  }

  lemma VisitIsStored(rows: map<Id, DirRow>, before: map<FileKey, FileRow>, dirs: map<Id, DirRow>,
                      files: map<FileKey, FileRow>, p: Pass, visit: Visit, d: Id, dirty: bool)
    requires AtPath(dirs, p.location, visit.relpath, d)
    requires dirs == SyncRows(rows, d, p.location, visit.relpath, p.generation, dirty)
    requires dirty <==> p.force || Dirty(KnownFiles(RowsOf(before, d)), visit.files)
    requires Synced(RowsOf(before, d), KnownFiles(RowsOf(before, d)), visit.files, RowsOf(files, d))
    ensures VisitStored(rows, before, dirs, files, p, visit, d)
  {
    SyncedAsWalked(RowsOf(before, d), visit.files, RowsOf(files, d));
    SameChanges(RowsOf(before, d), visit.files);
    hide AsWalked, FindsChange, Dirty, Synced, RowsOf;
  }

  lemma NoRowsYet(dirs: map<Id, DirRow>, files: map<FileKey, FileRow>, d: Id)
    requires Referenced(dirs, files) && d !in dirs
    ensures RowsOf(files, d) == map[]
  {
  }

  /** The diff reports something exactly when a name changed or is missing. */
  lemma DirtyChanges(known: map<string, File>, files: seq<Walked>)
    ensures Dirty(known, files) <==> Changes(known, files) != [] || exists n :: IsMissing(known, files, n)
  {
    if Changes(known, files) != [] {
      var f := Changes(known, files)[0];
      ChangesIn(known, files, f);
      var i :| 0 <= i < |files| && ChangedFile(known, files[i]) && f == Current(known, files[i]);
      assert ChangedName(known, files, files[i].name);
    }
    if n :| ChangedName(known, files, n) {
      var i :| 0 <= i < |files| && files[i].name == n && ChangedFile(known, files[i]);
      ChangesIn(known, files, Current(known, files[i]));
    }
  }
}
