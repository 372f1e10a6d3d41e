/** The change set of a dir, written by the store, is the sync the diff promises. */
module ScanSync {
  import opened Basics
  import opened Tables
  import opened Changeset
  import opened ScanStore

  lemma {:induction false} ChangesIn(known: map<string, File>, files: seq<Walked>, f: File)
    ensures f in Changes(known, files) <==>
      exists i :: 0 <= i < |files| && ChangedFile(known, files[i]) && f == Current(known, files[i])
    decreases |files|
  {
    if files != [] {
      var last, rest := files[|files| - 1], files[..|files| - 1];
      ChangesIn(known, rest, f);
      assert forall i | 0 <= i < |rest| :: rest[i] == files[i];
      if ChangedFile(known, last) && f == Current(known, last) { assert files[|files| - 1] == last; }
    }
  }

  lemma {:induction false} ChangesOnce(known: map<string, File>, files: seq<Walked>)
    requires DistinctNames(files)
    ensures OncePerName(Changes(known, files))
    decreases |files|
  {
    if files != [] {
      var rest := files[..|files| - 1];
      ChangesOnce(known, rest);
      forall f | f in Changes(known, rest) ensures f.name != files[|files| - 1].name {
        ChangesIn(known, rest, f);
      }
    }
  }

  /** The change set of a dir's own rows carries only their ids. */
  lemma ChangesOwnIds(files: map<FileKey, FileRow>, next: Id, d: Id, walked: seq<Walked>)
    requires FileIds(files, next)
    ensures var changed := Changes(KnownFiles(RowsOf(files, d)), walked);
      OwnIds(files, d, changed) && Minted(changed, next) && (RowsOf(files, d) == map[] ==> NoIds(changed))
  {
    var known := KnownFiles(RowsOf(files, d));
    forall f | f in Changes(known, walked) && f.id.Some?
      ensures FileKey(d, f.name) in files && f.id == Some(files[FileKey(d, f.name)].id)
    {
      ChangesIn(known, walked, f);
      RowAt(files, d, f.name);
    }
  }

  /** The ids that the diff reports missing. */
  ghost predicate MissingIds(known: map<string, File>, files: seq<Walked>, missing: seq<Id>) {
    forall id :: id in missing <==> exists n :: IsMissing(known, files, n) && known[n].id == Some(id)
  }

  /** Marking by id hits exactly the missing names of this dir. */
  lemma MarkedName(before: map<FileKey, FileRow>, next: Id, d: Id, files: seq<Walked>, missing: seq<Id>, key: FileKey)
    requires FileIds(before, next) && key in before
    requires MissingIds(KnownFiles(RowsOf(before, d)), files, missing)
    ensures before[key].id in missing <==> key.dir == d && IsMissing(KnownFiles(RowsOf(before, d)), files, key.name)
  {
  }

  /** What the store makes of the change set: the dir is synced, others are untouched. */
  lemma SyncedRows(before: map<FileKey, FileRow>, next: Id, d: Id, files: seq<Walked>, missing: seq<Id>,
                   after: map<FileKey, FileRow>)
    requires DistinctNames(files) && FileIds(before, next)
    requires MissingIds(KnownFiles(RowsOf(before, d)), files, missing)
    requires Upserted(MarkMissing(before, missing), d, Changes(KnownFiles(RowsOf(before, d)), files), after)
    ensures Synced(RowsOf(before, d), KnownFiles(RowsOf(before, d)), files, RowsOf(after, d))
    ensures forall x :: x != d ==> RowsOf(after, x) == RowsOf(before, x)
  {
    hide RowsOf, IsMissing, ChangedName, Upserted, FileIds, UpsertRow, Current, KnownFiles, Changes,
         MarkMissing, DistinctNames, MissingIds;
    var rows := RowsOf(before, d);
    var known := KnownFiles(rows);
    forall n
      ensures n in RowsOf(after, d) <==> n in rows || ChangedName(known, files, n)
      ensures n in rows && !ChangedName(known, files, n) ==>
        RowsOf(after, d)[n] == if IsMissing(known, files, n) then rows[n].(missing := true) else rows[n]
    {
      NameSynced(before, next, d, files, missing, after, n);
    }
    forall i | 0 <= i < |files| && ChangedFile(known, files[i])
      ensures files[i].name in RowsOf(after, d)
      ensures RowsOf(after, d)[files[i].name]
        == UpsertRow(rows, Current(known, files[i]), RowsOf(after, d)[files[i].name].id)
    {
      FileSynced(before, d, files, missing, after, i);
    }
    forall x | x != d ensures RowsOf(after, x) == RowsOf(before, x) {
      OtherDir(before, next, d, files, missing, after, x);
    }
  }

  lemma NameSynced(before: map<FileKey, FileRow>, next: Id, d: Id, files: seq<Walked>, missing: seq<Id>,
                   after: map<FileKey, FileRow>, n: string)
    requires FileIds(before, next) && MissingIds(KnownFiles(RowsOf(before, d)), files, missing)
    requires Upserted(MarkMissing(before, missing), d, Changes(KnownFiles(RowsOf(before, d)), files), after)
    ensures var rows, known := RowsOf(before, d), KnownFiles(RowsOf(before, d));
      && (n in RowsOf(after, d) <==> n in rows || ChangedName(known, files, n))
      && (n in rows && !ChangedName(known, files, n) ==>
            RowsOf(after, d)[n] == if IsMissing(known, files, n) then rows[n].(missing := true) else rows[n])
  {
    var rows, known, key := RowsOf(before, d), KnownFiles(RowsOf(before, d)), FileKey(d, n);
    RowAt(before, d, n);
    RowAt(after, d, n);
    var names := set f | f in Changes(known, files) :: FileKey(d, f.name);
    if ChangedName(known, files, n) {
      var i :| 0 <= i < |files| && files[i].name == n && ChangedFile(known, files[i]);
      ChangesIn(known, files, Current(known, files[i]));
      UpsertedHas(MarkMissing(before, missing), d, Changes(known, files), after, Current(known, files[i]));
    } else {
      if key in names {
        var f :| f in Changes(known, files) && FileKey(d, f.name) == key;
        ChangesIn(known, files, f);
        assert false;
      }
      if n in rows { MarkedName(before, next, d, files, missing, key); }
    }
  }

  lemma FileSynced(before: map<FileKey, FileRow>, d: Id, files: seq<Walked>, missing: seq<Id>,
                   after: map<FileKey, FileRow>, i: nat)
    requires i < |files| && ChangedFile(KnownFiles(RowsOf(before, d)), files[i])
    requires DistinctNames(files)
    requires Upserted(MarkMissing(before, missing), d, Changes(KnownFiles(RowsOf(before, d)), files), after)
    ensures var rows, name := RowsOf(before, d), files[i].name;
      && name in RowsOf(after, d)
      && RowsOf(after, d)[name] == UpsertRow(rows, Current(KnownFiles(rows), files[i]), RowsOf(after, d)[name].id)
  {
    var rows := RowsOf(before, d);
    var f := Current(KnownFiles(rows), files[i]);
    ChangesIn(KnownFiles(rows), files, f);
    ChangesOnce(KnownFiles(rows), files);
    UpsertedOnce(MarkMissing(before, missing), d, Changes(KnownFiles(rows), files), after, f);
    RowAt(before, d, f.name);
    RowAt(MarkMissing(before, missing), d, f.name);
    RowAt(after, d, f.name);
    hide Upserted, RowsOf, Changes, KnownFiles, OncePerName, DistinctNames;
  }

  lemma OtherDir(before: map<FileKey, FileRow>, next: Id, d: Id, files: seq<Walked>, missing: seq<Id>,
                 after: map<FileKey, FileRow>, x: Id)
    requires FileIds(before, next) && MissingIds(KnownFiles(RowsOf(before, d)), files, missing) && x != d
    requires Upserted(MarkMissing(before, missing), d, Changes(KnownFiles(RowsOf(before, d)), files), after)
    ensures RowsOf(after, x) == RowsOf(before, x)
  {
    hide Upserted, RowsOf, Changes, KnownFiles, MissingIds, FileIds;
    forall n
      ensures n in RowsOf(after, x) <==> n in RowsOf(before, x)
      ensures n in RowsOf(before, x) ==> RowsOf(after, x)[n] == RowsOf(before, x)[n]
    {
      RowAt(before, x, n);
      RowAt(after, x, n);
      OtherDirsKept(MarkMissing(before, missing), d, Changes(KnownFiles(RowsOf(before, d)), files), after,
                    FileKey(x, n));
      if FileKey(x, n) in before { MarkedName(before, next, d, files, missing, FileKey(x, n)); }
    }
  }
}
