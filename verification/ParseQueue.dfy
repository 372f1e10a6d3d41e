/** The claim and release half of the parse queue. */
module ParseQueue {
  import opened Basics
  import opened Tables

  datatype ClaimedDir = ClaimedDir(id: Id, relpath: string, location: Id, generation: int)

  predicate Claimable(row: DirRow) {
    row.dirty && row.locked.None?
  }

  function ClaimRow(row: DirRow): DirRow {
    row.(dirty := false, locked := Some(row.seen))
  }

  /** The rows after the dirs in `ids` have been claimed. */
  function ClaimRows(dirs: map<Id, DirRow>, ids: seq<Id>): map<Id, DirRow> {
    map d | d in dirs :: if d in ids then ClaimRow(dirs[d]) else dirs[d]
  }

  /** What one claim statement with a LIMIT may pick: distinct claimable rows,
      and fewer than the limit only when no other claimable row is left. */
  ghost predicate ClaimChoice(dirs: map<Id, DirRow>, ids: seq<Id>, limit: nat) {
    && Distinct(ids)
    && |ids| <= limit
    && (forall d :: d in ids ==> d in dirs && Claimable(dirs[d]))
    && (|ids| < limit ==> forall d :: d in dirs && Claimable(dirs[d]) ==> d in ids)
  }

  predicate HoldsLock(dirs: map<Id, DirRow>, d: Id, generation: int) {
    d in dirs && dirs[d].locked == Some(generation)
  }

  /** A conditional release: nothing happens unless the token matches. */
  function ReleaseRows(dirs: map<Id, DirRow>, d: Id, generation: int, redirty: bool): map<Id, DirRow> {
    if HoldsLock(dirs, d, generation)
    then dirs[d := dirs[d].(locked := None, dirty := dirs[d].dirty || redirty)]
    else dirs
  }

  /** The row's lock, when it carries the token, is gone; nothing else changed but dirty. */
  ghost predicate Unlocked(before: map<Id, DirRow>, after: map<Id, DirRow>, d: Id, generation: int, redirty: bool) {
    && after.Keys == before.Keys
    && (forall x | x in before && !(x == d && before[x].locked == Some(generation)) :: after[x] == before[x])
    && (d in before && before[d].locked == Some(generation) ==>
          && after[d].locked.None? && (after[d].dirty <==> before[d].dirty || redirty)
          && after[d].seen == before[d].seen && after[d].missing == before[d].missing
          && after[d].location == before[d].location && after[d].relpath == before[d].relpath)
  }

  lemma ReleaseUnlocks(dirs: map<Id, DirRow>, d: Id, generation: int, redirty: bool)
    ensures Unlocked(dirs, ReleaseRows(dirs, d, generation, redirty), d, generation, redirty)
  {
  }

  function ClaimedIds(claimed: seq<ClaimedDir>): (ids: seq<Id>)
    ensures |ids| == |claimed|
    ensures forall i :: 0 <= i < |ids| ==> ids[i] == claimed[i].id
  {
    seq(|claimed|, i requires 0 <= i < |claimed| => claimed[i].id)
  }

  class ParseQueueStore {
    const db: DB

    constructor (db: DB)
      ensures this.db == db
    {
      this.db := db;
    }

    /** Claims up to `limit` dirty, unlocked dirs in one statement. When the returned
        rows cannot be read, `ids` are locked and the caller learns of none. */
    method DirtyDirs(limit: nat, readable: bool) returns (res: Option<seq<ClaimedDir>>, ghost ids: seq<Id>)
      modifies db`dirs
      ensures ClaimChoice(old(db.dirs), ids, limit) && db.dirs == ClaimRows(old(db.dirs), ids)
      ensures Distinct(ids) && |ids| <= limit
      ensures forall d | d in ids :: d in old(db.dirs) && old(db.dirs)[d].dirty && old(db.dirs)[d].locked.None?
      ensures forall d | d in old(db.dirs) && old(db.dirs)[d].dirty && old(db.dirs)[d].locked.None? ::
        d in ids || |ids| == limit
      ensures db.dirs.Keys == old(db.dirs).Keys && forall d | d in old(db.dirs) :: var row := old(db.dirs)[d];
        db.dirs[d] == if d in ids then row.(dirty := false, locked := Some(row.seen)) else row
      ensures res.Some? <==> readable
      ensures res.Some? ==> ids == ClaimedIds(res.value) && forall c | c in res.value ::
        && c.id in db.dirs && c.relpath == db.dirs[c.id].relpath
        && c.location == db.dirs[c.id].location && db.dirs[c.id].locked == Some(c.generation)
    {
      var todo := set d | d in db.dirs && Claimable(db.dirs[d]);
      ghost var rows := db.dirs;
      ids := [];
      var claimed: seq<ClaimedDir> := [];
      while |claimed| < limit && todo != {}
        invariant |ids| == |claimed| && |claimed| <= limit
        invariant forall i :: 0 <= i < |ids| ==> ids[i] == claimed[i].id
        invariant Distinct(ids)
        invariant forall d :: d in ids ==> d in rows && Claimable(rows[d]) && d !in todo
        invariant forall d :: d in rows && Claimable(rows[d]) ==> d in todo || d in ids
        invariant forall d :: d in todo ==> d in rows && Claimable(rows[d])
        invariant db.dirs == ClaimRows(rows, ids)
        invariant forall c | c in claimed ::
          c.id in rows && c == ClaimedDir(c.id, rows[c.id].relpath, rows[c.id].location, rows[c.id].seen)
        decreases todo
      {
        var d :| d in todo;
        todo := todo - {d};
        var row := db.dirs[d];
        db.dirs := db.dirs[d := ClaimRow(row)];
        claimed := claimed + [ClaimedDir(d, row.relpath, row.location, row.seen)];
        ids := ids + [d];
      }
      assert ids == ClaimedIds(claimed);
      forall c | c in claimed
        ensures c.id in ids
      {
        var i :| 0 <= i < |claimed| && claimed[i] == c;
        assert ids[i] == c.id;
      }
      res := if readable then Some(claimed) else None;
    }

    /** Releases the lock and leaves `dirty` alone; false means "lock lost". */
    method ReleaseDir(d: Id, generation: int) returns (ok: bool)
      modifies db`dirs
      ensures ok <==> HoldsLock(old(db.dirs), d, generation)
      ensures db.dirs == ReleaseRows(old(db.dirs), d, generation, false)
      ensures Unlocked(old(db.dirs), db.dirs, d, generation, false)
    {
      ok := d in db.dirs && db.dirs[d].locked == Some(generation);
      if ok {
        db.dirs := db.dirs[d := db.dirs[d].(locked := None)];
      }
    }

    /** Releases the lock and queues the dir again. */
    method ReleaseAndRedirty(d: Id, generation: int) returns (ok: bool)
      modifies db`dirs
      ensures ok <==> HoldsLock(old(db.dirs), d, generation)
      ensures db.dirs == ReleaseRows(old(db.dirs), d, generation, true)
      ensures Unlocked(old(db.dirs), db.dirs, d, generation, true)
    {
      ok := d in db.dirs && db.dirs[d].locked == Some(generation);
      if ok {
        db.dirs := db.dirs[d := db.dirs[d].(locked := None, dirty := true)];
      }
    }
  }
}
