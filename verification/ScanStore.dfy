/** The scanner's store: the scan lifecycle, the sync of one dir, and the sweep. */
module ScanStore {
  import opened Basics
  import opened Tables
  import opened Changeset

  datatype Outcome = Succeeded | Cancelled | Broken

  datatype SyncPayload = SyncPayload(
    location: Id, relpath: string, generation: int, changed: seq<File>, missing: seq<Id>, dirty: bool)

  function FinalState(outcome: Outcome): ScanState {
    match outcome
    case Cancelled => Aborted
    case Broken => Failed
    case Succeeded => Done
  }

  /** Rows still 'running' belong to dead scans; None stands for every location. */
  function AbortRows(scans: map<Id, ScanRow>, location: Option<Id>): map<Id, ScanRow> {
    map s | s in scans ::
      if scans[s].state.Running? && (location.Some? ==> scans[s].location == location.value)
      then scans[s].(state := Aborted) else scans[s]
  }

  function FinishRows(scans: map<Id, ScanRow>, scan: Id, progress: Progress, outcome: Outcome): map<Id, ScanRow> {
    if scan in scans && scans[scan].state.Running?
    then scans[scan := scans[scan].(state := FinalState(outcome), progress := progress)]
    else scans
  }

  /** A running scan ends done, aborted or failed by how it went; other rows stay. */
  ghost predicate Ended(before: map<Id, ScanRow>, after: map<Id, ScanRow>, scan: Id, progress: Progress,
                        outcome: Outcome) {
    && after.Keys == before.Keys
    && (forall x | x in before && !(x == scan && before[x].state.Running?) :: after[x] == before[x])
    && (scan in before && before[scan].state.Running? ==>
          && after[scan] == before[scan].(state := after[scan].state, progress := progress)
          && (outcome.Succeeded? ==> after[scan].state.Done?)
          && (outcome.Cancelled? ==> after[scan].state.Aborted?)
          && (outcome.Broken? ==> after[scan].state.Failed?))
  }

  predicate Stale(row: DirRow, location: Id, generation: int) {
    row.location == location && row.seen < generation && !row.missing
  }

  /** Dirs that the scan of this generation did not see go missing. */
  function SweepRows(dirs: map<Id, DirRow>, location: Id, generation: int): map<Id, DirRow> {
    map d | d in dirs :: if Stale(dirs[d], location, generation) then dirs[d].(missing := true) else dirs[d]
  }

  function SweepFiles(dirs: map<Id, DirRow>, files: map<FileKey, FileRow>, location: Id,
                      generation: int): map<FileKey, FileRow> {
    map k | k in files ::
      if k.dir in dirs && Stale(dirs[k.dir], location, generation) then files[k].(missing := true) else files[k]
  }

  function MarkMissing(files: map<FileKey, FileRow>, ids: seq<Id>): map<FileKey, FileRow> {
    map k | k in files :: if files[k].id in ids then files[k].(missing := true) else files[k]
  }

  /** The stored files of one dir, by name. */
  function RowsOf(files: map<FileKey, FileRow>, dir: Id): Rows {
    map k | k in files && k.dir == dir :: k.name := files[k]
  }

  ghost predicate AtPath(dirs: map<Id, DirRow>, location: Id, relpath: string, d: Id) {
    d in dirs && dirs[d].location == location && dirs[d].relpath == relpath
  }

  /** A missing dir holds no present file. */
  ghost predicate FilesFollow(dirs: map<Id, DirRow>, files: map<FileKey, FileRow>) {
    forall k | k in files && k.dir in dirs && dirs[k.dir].missing :: files[k].missing
  }

  /** Files refer to dirs. */
  ghost predicate Referenced(dirs: map<Id, DirRow>, files: map<FileKey, FileRow>) {
    forall k :: k in files ==> k.dir in dirs
  }

  ghost predicate OncePerName(changed: seq<File>) {
    forall i, j :: 0 <= i < j < |changed| ==> changed[i].name != changed[j].name
  }

  /** No later file of the change set has this one's name. */
  ghost predicate LastOfName(changed: seq<File>, i: nat)
    requires i < |changed|
  {
    forall j | i < j < |changed| :: changed[j].name != changed[i].name
  }

  /** File i has a row, its own one unless a later file took its place. */
  ghost predicate RowGiven(before: map<FileKey, FileRow>, dir: Id, changed: seq<File>, after: map<FileKey, FileRow>,
                           i: nat)
    requires i < |changed|
  {
    var key := FileKey(dir, changed[i].name);
    && key in after
    && (LastOfName(changed, i) ==> after[key] == UpsertRow(RowsOf(before, dir), changed[i], after[key].id))
  }

  ghost predicate RestUntouched(before: map<FileKey, FileRow>, dir: Id, changed: seq<File>,
                                after: map<FileKey, FileRow>) {
    forall k | k !in set f | f in changed :: FileKey(dir, f.name) ::
      (k in after <==> k in before) && (k in before ==> after[k] == before[k])
  }

  /** After an upsert: each name has the row of the last file given for it, under its
      old id if it had one, and no other row changed. */
  ghost predicate Upserted(before: map<FileKey, FileRow>, dir: Id, changed: seq<File>, after: map<FileKey, FileRow>) {
    && (forall i: nat | i < |changed| :: RowGiven(before, dir, changed, after, i))
    && RestUntouched(before, dir, changed, after)
  }

  /** The ids that the change set carries were minted before. */
  ghost predicate Minted(changed: seq<File>, next: Id) {
    forall f | f in changed && f.id.Some? :: f.id.value < next
  }

  /** Only names with a row carry an id. */
  ghost predicate OwnIds(files: map<FileKey, FileRow>, dir: Id, changed: seq<File>) {
    forall f | f in changed && f.id.Some? :: FileKey(dir, f.name) in files
  }

  /** The dir's row as this sync leaves it: dirty is only ever set, a lock stays. */
  ghost predicate Stamped(before: map<Id, DirRow>, after: map<Id, DirRow>, d: Id, payload: SyncPayload) {
    && d in after && after[d].location == payload.location && after[d].relpath == payload.relpath
    && after[d].seen == payload.generation && !after[d].missing
    && (after[d].dirty <==> payload.dirty || (d in before && before[d].dirty))
    && after[d].locked == if d in before then before[d].locked else None
  }

  /** What went missing: the location's present dirs of older generations. Of their rows
      and of all files only the missing flag changes, and a file's follows its dir. */
  ghost predicate SweptAway(dirs: map<Id, DirRow>, files: map<FileKey, FileRow>, dirs': map<Id, DirRow>,
                        files': map<FileKey, FileRow>, location: Id, generation: int) {
    && dirs'.Keys == dirs.Keys && files'.Keys == files.Keys
    && (forall d | d in dirs ::
          && dirs'[d] == dirs[d].(missing := dirs'[d].missing)
          && (dirs'[d].missing <==> dirs[d].missing || (dirs[d].location == location && dirs[d].seen < generation)))
    && (forall k | k in files ::
          && files'[k] == files[k].(missing := files'[k].missing)
          && (files'[k].missing <==>
                files[k].missing || (k.dir in dirs && !dirs[k.dir].missing && dirs'[k.dir].missing)))
  }

  class Store {
    const db: DB

    constructor (db: DB)
      ensures this.db == db
    {
      this.db := db;
    }

    ghost predicate Valid()
      reads this, db
    {
      db.Valid() && Referenced(db.dirs, db.files) && FilesFollow(db.dirs, db.files)
    }

    /** Opens a scan record in one transaction; None when the location has no row. */
    method BeginScan(location: Id, now: int) returns (begun: Option<(int, Id)>)
      requires Valid()
      modifies db
      ensures Valid() && db.files == old(db.files)
      ensures begun.Some? <==> location in old(db.generations)
      ensures begun.None? ==>
        db.generations == old(db.generations) && db.scans == old(db.scans) && db.dirs == old(db.dirs)
      ensures begun.Some? ==>
        var (generation, scan) := begun.value;
        && generation == old(db.generations)[location] + 1 && scan == old(db.nextId)
        && db.generations == old(db.generations)[location := generation]
        && db.scans == AbortRows(old(db.scans), Some(location))
             [scan := ScanRow(location, generation, Running, now, NO_PROGRESS)]
        && db.dirs == RecoverRows(old(db.dirs), location)
        && db.scans.Keys == old(db.scans).Keys + {scan}
        && db.scans[scan] == ScanRow(location, generation, Running, now, NO_PROGRESS)
        && (forall x | x in old(db.scans) :: var row := old(db.scans)[x];
              db.scans[x] == if row.state.Running? && row.location == location then row.(state := Aborted) else row)
        && (db.dirs.Keys == old(db.dirs).Keys && forall d | d in db.dirs :: var row := old(db.dirs)[d];
              db.dirs[d] == if row.location == location && row.locked.Some?
                            then row.(locked := None, dirty := true) else row)
    {
      if location !in db.generations {
        return None;
      }
      db.scans := AbortRows(db.scans, Some(location));
      db.dirs := RecoverRows(db.dirs, location);
      var generation := db.generations[location] + 1;
      db.generations := db.generations[location := generation];
      var scan := db.FreshId();
      db.scans := db.scans[scan := ScanRow(location, generation, Running, now, NO_PROGRESS)];
      begun := Some((generation, scan));
    }

    /** A scan that is no longer running keeps its state. */
    method FinishScan(scan: Id, progress: Progress, outcome: Outcome)
      requires Valid()
      modifies db`scans
      ensures Valid() && db.scans == FinishRows(old(db.scans), scan, progress, outcome)
      ensures Ended(old(db.scans), db.scans, scan, progress, outcome)
    {
      if scan in db.scans && db.scans[scan].state.Running? {
        var state := match outcome case Cancelled => Aborted case Broken => Failed case Succeeded => Done;
        db.scans := db.scans[scan := db.scans[scan].(state := state, progress := progress)];
      }
    }

    method AbortRunningScans() returns (n: nat)
      requires Valid()
      modifies db`scans
      ensures Valid() && db.scans == AbortRows(old(db.scans), None)
      ensures db.scans.Keys == old(db.scans).Keys && forall x | x in db.scans :: var row := old(db.scans)[x];
        db.scans[x] == if row.state.Running? then row.(state := Aborted) else row
      ensures n == |set s | s in old(db.scans) && old(db.scans)[s].state.Running?|
    {
      n := |set s | s in db.scans && db.scans[s].state.Running?|;
      db.scans := map s | s in db.scans ::
        if db.scans[s].state.Running? then db.scans[s].(state := Aborted) else db.scans[s];
    }

    method DirID(location: Id, relpath: string) returns (found: Option<Id>)
      ensures found.Some? ==> AtPath(db.dirs, location, relpath, found.value)
      ensures found.None? ==> forall d :: !AtPath(db.dirs, location, relpath, d)
    {
      var matches := set d | d in db.dirs && db.dirs[d].location == location && db.dirs[d].relpath == relpath;
      if matches == {} {
        assert forall d :: AtPath(db.dirs, location, relpath, d) ==> d in matches;
        return None;
      }
      var d :| d in matches;
      found := Some(d);
    }

    /** Reads a dir's files, without their missing flag. */
    method KnownFiles(dir: Id) returns (known: map<string, File>)
      ensures known == Changeset.KnownFiles(RowsOf(db.files, dir))
    {
      known := map[];
      var keys := set k | k in db.files && k.dir == dir;
      ghost var all := keys;
      while keys != {}
        invariant keys <= all
        invariant known == Changeset.KnownFiles(map k | k in db.files && k in all - keys :: k.name := db.files[k])
        decreases keys
      {
        var k :| k in keys;
        var row := db.files[k];
        known := known[k.name := File(Some(row.id), k.name, row.kind, row.size, row.modTime, false)];
        keys := keys - {k};
      }
    }

    /** Upserts the changed files one by one. An insert fails when another row has
        the id that the change set gives. */
    method UpsertFiles(dir: Id, changed: seq<File>) returns (ok: bool)
      requires db.Valid() && Minted(changed, db.nextId)
      modifies db`files, db`nextId
      ensures old(db.nextId) <= db.nextId && db.files.Keys >= old(db.files).Keys
      ensures ok ==> db.Valid() && Upserted(old(db.files), dir, changed, db.files)
      ensures OwnIds(old(db.files), dir, changed) ==> ok
    {
      hide UniquePaths, FileIds, Upserted, RowsOf, UpsertRow, Minted, OwnIds;
      ghost var before := db.files;
      UpsertedNone(before, dir, changed);
      for i := 0 to |changed|
        invariant db.Valid() && old(db.nextId) <= db.nextId && db.files.Keys >= before.Keys
        invariant Upserted(before, dir, changed[..i], db.files)
      {
        var f := changed[i];
        var key := FileKey(dir, f.name);
        ghost var was := db.files;
        if key in db.files {
          var row := db.files[key];
          db.files := db.files[key := row.(kind := f.kind, size := f.size, modTime := f.modTime, missing := false)];
          SameFilesKeepIds(was, db.files, db.nextId);
        } else if f.id.Some? {
          NotOwn(before, was, dir, changed, f);
          if exists k :: k in db.files && db.files[k].id == f.id.value {
            return false;
          }
          db.files := db.files[key := FileRow(f.id.value, f.kind, f.size, f.modTime, false)];
          GivenIdKeepsIds(was, key, db.files[key], changed, old(db.nextId), db.nextId);
        } else {
          var id := db.FreshId();
          db.files := db.files[key := FileRow(id, f.kind, f.size, f.modTime, false)];
          NewFileKeepsIds(was, key, db.files[key], id);
        }
        UpsertedNext(before, dir, changed, i, was, db.files);
      }
      assert changed[..|changed|] == changed;
      ok := true;
    }

    /** Inserts the dir under the candidate id, or updates the row at its path. */
    method UpsertDirRow(payload: SyncPayload, candidate: Id) returns (d: Id)
      requires UniquePaths(db.dirs) && candidate !in db.dirs
      modifies db`dirs
      ensures UniquePaths(db.dirs) && AtPath(db.dirs, payload.location, payload.relpath, d)
      ensures d in old(db.dirs) ==> AtPath(old(db.dirs), payload.location, payload.relpath, d)
      ensures d !in old(db.dirs) ==>
        d == candidate && forall x :: !AtPath(old(db.dirs), payload.location, payload.relpath, x)
      ensures db.dirs == SyncRows(old(db.dirs), d, payload.location, payload.relpath, payload.generation, payload.dirty)
      ensures db.dirs.Keys == old(db.dirs).Keys + {d}
        && (forall x | x in old(db.dirs) && x != d :: db.dirs[x] == old(db.dirs)[x])
        && Stamped(old(db.dirs), db.dirs, d, payload)
    {
      hide UniquePaths;
      ghost var dirs := db.dirs;
      var found := DirID(payload.location, payload.relpath);
      if found.Some? {
        d := found.value;
        var row := db.dirs[d];
        db.dirs := db.dirs[d := row.(seen := payload.generation, missing := false,
                                     dirty := payload.dirty || row.dirty)];
        SamePathsUnique(dirs, db.dirs);
      } else {
        d := candidate;
        var row := DirRow(payload.location, payload.relpath, payload.generation, false, payload.dirty, None);
        db.dirs := db.dirs[d := row];
        NewPathUnique(dirs, d, db.dirs[d]);
      }
    }

    /** Writes one dir's change set in one transaction. Dirty is only ever set here,
        never cleared. A change set whose ids clash is rolled back. */
    method SyncDir(payload: SyncPayload) returns (res: Option<Id>)
      requires Valid() && Minted(payload.changed, db.nextId)
      modifies db`dirs, db`files, db`nextId
      ensures Valid() && old(db.nextId) <= db.nextId
      ensures res.None? ==> db.dirs == old(db.dirs) && db.files == old(db.files)
      ensures (forall d :: AtPath(old(db.dirs), payload.location, payload.relpath, d)
                 ==> OwnIds(old(db.files), d, payload.changed))
        && ((forall d :: !AtPath(old(db.dirs), payload.location, payload.relpath, d)) ==> NoIds(payload.changed))
        ==> res.Some?
      ensures res.Some? ==>
        var d := res.value;
        && AtPath(db.dirs, payload.location, payload.relpath, d)
        && (d in old(db.dirs) ==> AtPath(old(db.dirs), payload.location, payload.relpath, d))
        && (d !in old(db.dirs) ==> forall x :: !AtPath(old(db.dirs), payload.location, payload.relpath, x))
        && db.dirs == SyncRows(old(db.dirs), d, payload.location, payload.relpath, payload.generation, payload.dirty)
        && Upserted(MarkMissing(old(db.files), payload.missing), d, payload.changed, db.files)
    {
      hide UniquePaths, FileIds, Upserted, RowsOf, FilesFollow, Minted, OwnIds, NoIds;
      var dirs, files := db.dirs, db.files;
      var candidate := db.FreshId();
      LaterIds(files, candidate);
      LaterMinted(payload.changed, candidate);
      var d := UpsertDirRow(payload, candidate);
      if NoIds(payload.changed) { NoIdsOwn(files, d, payload.changed); }
      db.files := MarkMissing(db.files, payload.missing);
      SameFilesKeepIds(files, db.files, db.nextId);
      SameOwnIds(files, db.files, d, payload.changed);
      ghost var marked := db.files;
      var ok := UpsertFiles(d, payload.changed);
      if !ok {
        db.dirs, db.files := dirs, files;
        MoreIds(files, candidate, db.nextId);
        return None;
      }
      UpsertFollows(dirs, files, marked, db.dirs, db.files, d, payload.changed);
      res := Some(d);
    }

    method Sweep(location: Id, generation: int) returns (dirs: nat, files: nat)
      requires Valid()
      modifies db`dirs, db`files
      ensures Valid()
      ensures db.dirs == SweepRows(old(db.dirs), location, generation)
      ensures db.files == SweepFiles(old(db.dirs), old(db.files), location, generation)
      ensures SweptAway(old(db.dirs), old(db.files), db.dirs, db.files, location, generation)
      ensures dirs == |set d | d in old(db.dirs) && Stale(old(db.dirs)[d], location, generation)|
      ensures files ==
        |set k | k in old(db.files) && k.dir in old(db.dirs) && Stale(old(db.dirs)[k.dir], location, generation)|
    {
      hide UniquePaths, FileIds, FilesFollow, Stale, SweptAway;
      ghost var before, rows := db.files, db.dirs;
      var stale := set d | d in db.dirs && Stale(db.dirs[d], location, generation);
      assert (set k | k in db.files && k.dir in stale)
        == set k | k in db.files && k.dir in db.dirs && Stale(db.dirs[k.dir], location, generation);
      dirs, files := |stale|, |set k | k in db.files && k.dir in stale|;
      db.files := SweepFiles(db.dirs, db.files, location, generation);
      db.dirs := SweepRows(db.dirs, location, generation);
      SameFilesKeepIds(before, db.files, db.nextId);
      SamePathsUnique(rows, db.dirs);
      SweepFollows(rows, before, location, generation);
      SweepSweeps(rows, before, location, generation);
    }
  }

  /** No file's id changed, and no new file came. */
  ghost predicate SameFiles(before: map<FileKey, FileRow>, after: map<FileKey, FileRow>) {
    after.Keys == before.Keys && forall k | k in before :: after[k].id == before[k].id
  }

  lemma SameFilesKeepIds(before: map<FileKey, FileRow>, after: map<FileKey, FileRow>, next: Id)
    requires FileIds(before, next) && SameFiles(before, after)
    ensures FileIds(after, next)
  {
  }

  lemma LaterIds(files: map<FileKey, FileRow>, next: Id)
    requires FileIds(files, next)
    ensures FileIds(files, next + 1)
  {
  }

  lemma NewFileKeepsIds(before: map<FileKey, FileRow>, key: FileKey, row: FileRow, next: Id)
    requires FileIds(before, next) && row.id == next
    ensures FileIds(before[key := row], next + 1)
  {
  }

  lemma SamePathsUnique(before: map<Id, DirRow>, after: map<Id, DirRow>)
    requires UniquePaths(before) && after.Keys == before.Keys
    requires forall d | d in before :: after[d].location == before[d].location && after[d].relpath == before[d].relpath
    ensures UniquePaths(after)
  {
  }

  lemma OneAtPath(dirs: map<Id, DirRow>, location: Id, relpath: string, d: Id, e: Id)
    requires UniquePaths(dirs) && AtPath(dirs, location, relpath, d) && AtPath(dirs, location, relpath, e)
    ensures d == e
  {
  }

  lemma NewPathUnique(before: map<Id, DirRow>, d: Id, row: DirRow)
    requires UniquePaths(before)
    requires forall x :: !AtPath(before, row.location, row.relpath, x)
    ensures UniquePaths(before[d := row])
  {
    assert forall x :: x in before ==> !AtPath(before, row.location, row.relpath, x);
  }

  lemma SweepFollows(dirs: map<Id, DirRow>, files: map<FileKey, FileRow>, location: Id, generation: int)
    requires FilesFollow(dirs, files)
    ensures FilesFollow(SweepRows(dirs, location, generation), SweepFiles(dirs, files, location, generation))
  {
  }

  lemma SweepSweeps(dirs: map<Id, DirRow>, files: map<FileKey, FileRow>, location: Id, generation: int)
    ensures SweptAway(dirs, files, SweepRows(dirs, location, generation), SweepFiles(dirs, files, location, generation),
                  location, generation)
  {
  }

  /** The change set carries no id. */
  ghost predicate NoIds(changed: seq<File>) {
    forall f | f in changed :: f.id.None?
  }

  lemma NoIdsOwn(files: map<FileKey, FileRow>, dir: Id, changed: seq<File>)
    requires NoIds(changed)
    ensures OwnIds(files, dir, changed)
  {
  }

  lemma NotOwn(before: map<FileKey, FileRow>, was: map<FileKey, FileRow>, dir: Id, changed: seq<File>, f: File)
    requires f in changed && f.id.Some? && FileKey(dir, f.name) !in was && was.Keys >= before.Keys
    ensures !OwnIds(before, dir, changed)
  {
  }

  lemma SameOwnIds(before: map<FileKey, FileRow>, after: map<FileKey, FileRow>, dir: Id, changed: seq<File>)
    requires after.Keys == before.Keys
    ensures OwnIds(after, dir, changed) <==> OwnIds(before, dir, changed)
  {
  }

  lemma LaterMinted(changed: seq<File>, next: Id)
    requires Minted(changed, next)
    ensures Minted(changed, next + 1)
  {
  }

  lemma GivenIdKeepsIds(before: map<FileKey, FileRow>, key: FileKey, row: FileRow, changed: seq<File>, minted: Id,
                        next: Id)
    requires FileIds(before, next) && Minted(changed, minted) && minted <= next
    requires exists f :: f in changed && f.id == Some(row.id)
    requires forall k | k in before :: before[k].id != row.id
    ensures FileIds(before[key := row], next)
  {
  }

  lemma MoreIds(files: map<FileKey, FileRow>, next: Id, later: Id)
    requires FileIds(files, next) && next <= later
    ensures FileIds(files, later)
  {
  }

  /** Only files of the synced dir, which is not missing, become present. */
  lemma UpsertFollows(rows: map<Id, DirRow>, before: map<FileKey, FileRow>, marked: map<FileKey, FileRow>,
                      dirs: map<Id, DirRow>, files: map<FileKey, FileRow>, d: Id, changed: seq<File>)
    requires Referenced(rows, before) && FilesFollow(rows, before)
    requires marked.Keys == before.Keys && forall k | k in before && before[k].missing :: marked[k].missing
    requires Upserted(marked, d, changed, files)
    requires d in dirs && dirs == rows[d := dirs[d]] && !dirs[d].missing
    ensures Referenced(dirs, files) && FilesFollow(dirs, files)
  {
  }

  lemma RowAt(files: map<FileKey, FileRow>, dir: Id, name: string)
    ensures name in RowsOf(files, dir) <==> FileKey(dir, name) in files
    ensures FileKey(dir, name) in files ==> RowsOf(files, dir)[name] == files[FileKey(dir, name)]
  {
  }

  lemma UpsertedNone(files: map<FileKey, FileRow>, dir: Id, changed: seq<File>)
    ensures Upserted(files, dir, changed[..0], files)
  {
  }

  /** The row that the next changed file gets. */
  ghost predicate NextRow(dir: Id, f: File, was: map<FileKey, FileRow>, after: map<FileKey, FileRow>) {
    var key := FileKey(dir, f.name);
    && key in after && after == was[key := after[key]]
    && after[key] == FileRow(after[key].id, f.kind, f.size, f.modTime, false)
    && (key in was ==> after[key].id == was[key].id)
  }

  /** One more changed file; it takes the place of an earlier one of its name. */
  lemma UpsertedNext(before: map<FileKey, FileRow>, dir: Id, changed: seq<File>, i: nat,
                     was: map<FileKey, FileRow>, after: map<FileKey, FileRow>)
    requires i < |changed| && Upserted(before, dir, changed[..i], was) && NextRow(dir, changed[i], was, after)
    ensures Upserted(before, dir, changed[..i + 1], after)
  {
    var more := changed[..i + 1];
    forall j: nat | j < |more| ensures RowGiven(before, dir, more, after, j) {
      if j < i {
        EarlierRow(before, dir, changed, i, was, after, j);
      } else {
        NextRowKept(before, dir, changed, i, was, after);
      }
    }
    RestNext(before, dir, changed, i, was, after);
    hide RowGiven, RestUntouched, NextRow;
  }

  lemma EarlierRow(before: map<FileKey, FileRow>, dir: Id, changed: seq<File>, i: nat,
                   was: map<FileKey, FileRow>, after: map<FileKey, FileRow>, j: nat)
    requires j < i < |changed| && RowGiven(before, dir, changed[..i], was, j) && NextRow(dir, changed[i], was, after)
    ensures RowGiven(before, dir, changed[..i + 1], after, j)
  {
    hide UpsertRow, RowsOf;
    var less, more := changed[..i], changed[..i + 1];
    assert less[j] == more[j] == changed[j] && more[i] == changed[i];
    if LastOfName(more, j) {
      forall k | j < k < i ensures less[k].name != less[j].name { assert more[k] == less[k]; }
      assert more[i].name != more[j].name;
    }
  }

  lemma RestNext(before: map<FileKey, FileRow>, dir: Id, changed: seq<File>, i: nat,
                 was: map<FileKey, FileRow>, after: map<FileKey, FileRow>)
    requires i < |changed| && RestUntouched(before, dir, changed[..i], was) && NextRow(dir, changed[i], was, after)
    ensures RestUntouched(before, dir, changed[..i + 1], after)
  {
    var more := changed[..i + 1];
    assert more == changed[..i] + [changed[i]];
    forall k | k !in set f | f in more :: FileKey(dir, f.name)
      ensures (k in after <==> k in before) && (k in before ==> after[k] == before[k])
    {
      assert changed[i] in more;
      assert k !in set f | f in changed[..i] :: FileKey(dir, f.name);
    }
  }

  lemma NextRowKept(before: map<FileKey, FileRow>, dir: Id, changed: seq<File>, i: nat,
                    was: map<FileKey, FileRow>, after: map<FileKey, FileRow>)
    requires i < |changed| && Upserted(before, dir, changed[..i], was) && NextRow(dir, changed[i], was, after)
    ensures RowGiven(before, dir, changed[..i + 1], after, i)
  {
    var key := FileKey(dir, changed[i].name);
    assert changed[..i + 1][i] == changed[i];
    RowAt(before, dir, changed[i].name);
    if key in before { KeptId(before, dir, changed[..i], was, key); }
  }

  lemma UpsertedHas(before: map<FileKey, FileRow>, dir: Id, changed: seq<File>, after: map<FileKey, FileRow>, f: File)
    requires Upserted(before, dir, changed, after) && f in changed
    ensures FileKey(dir, f.name) in after
  {
    var i: nat :| i < |changed| && changed[i] == f;
    assert RowGiven(before, dir, changed, after, i);
  }

  lemma OtherDirsKept(before: map<FileKey, FileRow>, dir: Id, changed: seq<File>, after: map<FileKey, FileRow>,
                      k: FileKey)
    requires Upserted(before, dir, changed, after) && k.dir != dir
    ensures (k in after <==> k in before) && (k in before ==> after[k] == before[k])
  {
  }

  /** Without repeated names every changed file has its row. */
  lemma UpsertedOnce(before: map<FileKey, FileRow>, dir: Id, changed: seq<File>, after: map<FileKey, FileRow>, f: File)
    requires Upserted(before, dir, changed, after) && OncePerName(changed) && f in changed
    ensures FileKey(dir, f.name) in after
    ensures after[FileKey(dir, f.name)] == UpsertRow(RowsOf(before, dir), f, after[FileKey(dir, f.name)].id)
  {
    var i: nat :| i < |changed| && changed[i] == f;
    assert RowGiven(before, dir, changed, after, i) && LastOfName(changed, i);
  }

  /** An upsert never changes an id. */
  lemma KeptId(before: map<FileKey, FileRow>, dir: Id, changed: seq<File>, after: map<FileKey, FileRow>, key: FileKey)
    requires Upserted(before, dir, changed, after) && key in before && key.dir == dir
    ensures key in after && after[key].id == before[key].id
  {
    RowAt(before, dir, key.name);
    if key in set f | f in changed :: FileKey(dir, f.name) {
      var i :| 0 <= i < |changed| && FileKey(dir, changed[i].name) == key;
      var j := LastFile(changed, i);
      assert RowGiven(before, dir, changed, after, j);
    }
  }

  /** The last file with the name of file i. */
  lemma {:induction false} LastFile(changed: seq<File>, i: nat) returns (j: nat)
    requires i < |changed|
    ensures i <= j < |changed| && changed[j].name == changed[i].name && LastOfName(changed, j)
    decreases |changed| - i
  {
    j := i;
    if k :| i < k < |changed| && changed[k].name == changed[i].name { j := LastFile(changed, k); }
  }
}
