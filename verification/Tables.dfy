/** The relational tables behind the scanner and the parse queue. Each store
    method is one statement or one immediate transaction, so it is one atomic
    change of these tables. */
module Tables {
  import opened Basics

  /** One row of `dirs`. `locked` is None while nobody parses the dir, and the
      generation captured at claim time otherwise. */
  datatype DirRow = DirRow(
    location: Id,
    relpath: string,
    seen: int,
    missing: bool,
    dirty: bool,
    locked: Option<int>)

  datatype FileKind = Audio | Image

  /** The unique key of `files`. */
  datatype FileKey = FileKey(dir: Id, name: string)

  datatype FileRow = FileRow(id: Id, kind: FileKind, size: int, modTime: int, missing: bool)

  datatype ScanState = Running | Done | Failed | Aborted

  /** What a scan has synchronized so far. */
  datatype Progress = Progress(dirsSeen: nat, dirsMissing: nat, filesSeen: nat, filesMissing: nat)

  const NO_PROGRESS := Progress(0, 0, 0, 0)

  datatype ScanRow = ScanRow(location: Id, generation: int, state: ScanState, start: int, progress: Progress)

  /** Dir rows keep (location, relpath) unique. */
  ghost predicate UniquePaths(dirs: map<Id, DirRow>) {
    forall d, e | d in dirs && e in dirs ::
      (dirs[d].location == dirs[e].location && dirs[d].relpath == dirs[e].relpath) ==> d == e
  }

  /** File ids are unique, and older than `next`. */
  ghost predicate FileIds(files: map<FileKey, FileRow>, next: Id) {
    && (forall k :: k in files ==> files[k].id < next)
    && (forall j, k :: j in files && k in files && files[j].id == files[k].id ==> j == k)
  }

  /** BeginScan's crash recovery: every locked dir of the location is unlocked and dirty. */
  function RecoverRow(row: DirRow): DirRow {
    row.(locked := None, dirty := true)
  }

  function RecoverRows(dirs: map<Id, DirRow>, location: Id): map<Id, DirRow> {
    map d | d in dirs ::
      if dirs[d].location == location && dirs[d].locked.Some? then RecoverRow(dirs[d]) else dirs[d]
  }

  /** SyncDir's upsert: seen moves, missing clears, dirty is only ever set. */
  function SyncRows(dirs: map<Id, DirRow>, d: Id, location: Id, relpath: string, generation: int, dirty: bool)
    : map<Id, DirRow>
  {
    if d in dirs
    then dirs[d := dirs[d].(seen := generation, missing := false, dirty := dirs[d].dirty || dirty)]
    else dirs[d := DirRow(location, relpath, generation, false, dirty, None)]
  }

  /** The database handle that the stores share. `generations` is the
      scan_generation column of `locations`. */
  class DB {
    var generations: map<Id, int>
    var scans: map<Id, ScanRow>
    var dirs: map<Id, DirRow>
    var files: map<FileKey, FileRow>
    var nextId: Id

    constructor ()
      ensures generations == map[] && scans == map[] && dirs == map[] && files == map[]
      ensures nextId == 1
    {
      generations, scans, dirs, files := map[], map[], map[], map[];
      nextId := 1;
    }

    ghost predicate Valid()
      reads this
    {
      && UniquePaths(dirs)
      && (forall d :: d in dirs ==> d < nextId)
      && (forall s :: s in scans ==> s < nextId)
      && FileIds(files, nextId)
    }

    method FreshId() returns (id: Id)
      modifies `nextId
      ensures id == old(nextId) && nextId == id + 1
    {
      id := nextId;
      nextId := nextId + 1;
    }
  }
}
