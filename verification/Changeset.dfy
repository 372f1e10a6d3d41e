/** Diffing one walked dir against its stored files, and what the store makes of
    the change set. */
module Changeset {
  import opened Basics
  import opened Tables

  /** A file as the scanner handles it; new files have no id yet. */
  datatype File = File(id: Option<Id>, name: string, kind: FileKind, size: int, modTime: int, missing: bool)

  datatype Stat = Stat(size: int, modTime: int)

  /** A walked file; `stat` is None when its Info call fails. */
  datatype Walked = Walked(name: string, kind: FileKind, stat: Option<Stat>)

  const ZERO_TIME := 0

  /** A map lookup of an unknown name yields the zero File. */
  function Lookup(known: map<string, File>, name: string): File {
    if name in known then known[name] else File(None, "", Audio, 0, ZERO_TIME, false)
  }

  predicate Unchanged(stored: File, stat: Stat) {
    !stored.missing && stored.size == stat.size && stored.modTime == stat.modTime
  }

  function Current(known: map<string, File>, f: Walked): File
    requires f.stat.Some?
  {
    File(if f.name in known then known[f.name].id else None, f.name, f.kind, f.stat.value.size, f.stat.value.modTime,
         false)
  }

  function Changes(known: map<string, File>, files: seq<Walked>): seq<File> {
    if files == [] then []
    else
      var f := files[|files| - 1];
      Changes(known, files[..|files| - 1]) +
      if f.stat.Some? && !Unchanged(Lookup(known, f.name), f.stat.value) then [Current(known, f)] else []
  }

  /** The name was walked and could be statted. */
  ghost predicate Present(files: seq<Walked>, name: string) {
    exists i :: 0 <= i < |files| && files[i].name == name && files[i].stat.Some?
  }

  ghost predicate DistinctNames(files: seq<Walked>) {
    forall i, j :: 0 <= i < j < |files| ==> files[i].name != files[j].name
  }

  ghost predicate Listed(files: seq<Walked>, name: string) {
    exists i :: 0 <= i < |files| && files[i].name == name
  }

  /** A known name that was not walked, or not statted. */
  ghost predicate IsMissing(known: map<string, File>, files: seq<Walked>, name: string) {
    name in known && !Present(files, name)
  }

  /** Known names that failed to stat among the files read so far. */
  ghost predicate StatFailures(known: map<string, File>, files: seq<Walked>, missing: seq<Id>) {
    forall id :: id in missing <==>
      exists n :: n in known && Listed(files, n) && !Present(files, n) && known[n].id == Some(id)
  }

  /** The known names among the files read that failed to stat. */
  ghost function Failed(known: map<string, File>, files: seq<Walked>): set<string> {
    set n | n in known && Listed(files, n) && !Present(files, n)
  }

  ghost function MissingNames(known: map<string, File>, files: seq<Walked>): set<string> {
    set n | n in known && IsMissing(known, files, n)
  }

  // ----- the change set, field by field -----

  /** The file differs from what is known of its name; an unknown name counts as an
      empty file of time zero. */
  ghost predicate Differs(known: map<string, File>, f: Walked) {
    f.stat.Some? &&
    if f.name in known
    then known[f.name].missing || f.stat.value.size != known[f.name].size
         || f.stat.value.modTime != known[f.name].modTime
    else f.stat.value.size != 0 || f.stat.value.modTime != ZERO_TIME
  }

  /** File f as walked, with the id of its name if that is known. */
  ghost predicate Describes(known: map<string, File>, f: Walked, file: File) {
    && file.name == f.name && file.kind == f.kind && !file.missing
    && f.stat.Some? && file.size == f.stat.value.size && file.modTime == f.stat.value.modTime
    && file.id == if f.name in known then known[f.name].id else None
  }

  /** The files at these positions differ, and no others; each is described. */
  ghost predicate ReportsAt(known: map<string, File>, files: seq<Walked>, changed: seq<File>, at: seq<nat>) {
    && |at| == |changed| && (forall i, j | 0 <= i < j < |at| :: at[i] < at[j])
    && (forall i | 0 <= i < |at| ::
          at[i] < |files| && Differs(known, files[at[i]]) && Describes(known, files[at[i]], changed[i]))
    && (forall i | 0 <= i < |files| && Differs(known, files[i]) :: i in at)
  }

  /** Exactly the files that differ are reported, in the order of the walk. */
  ghost predicate Reports(known: map<string, File>, files: seq<Walked>, changed: seq<File>) {
    exists at :: ReportsAt(known, files, changed, at)
  }

  lemma {:induction false} ChangesReport(known: map<string, File>, files: seq<Walked>)
    ensures Reports(known, files, Changes(known, files))
    decreases |files|
  {
    if files == [] {
      assert ReportsAt(known, files, [], []);
    } else {
      var n := |files| - 1;
      LastChange(known, files);
      hide ReportsAt, Current, Changes, Differs;
      ChangesReport(known, files[..n]);
      var at :| ReportsAt(known, files[..n], Changes(known, files[..n]), at);
      NextReport(known, files, Changes(known, files[..n]), at);
    }
  }

  lemma LastChange(known: map<string, File>, files: seq<Walked>)
    requires files != []
    ensures var n := |files| - 1;
      Changes(known, files) ==
        if Differs(known, files[n]) then Changes(known, files[..n]) + [Current(known, files[n])]
        else Changes(known, files[..n])
  {
    hide Current;
  }

  lemma NextReport(known: map<string, File>, files: seq<Walked>, changed: seq<File>, at: seq<nat>)
    requires files != [] && ReportsAt(known, files[..|files| - 1], changed, at)
    ensures var n := |files| - 1;
      && (Differs(known, files[n]) ==> ReportsAt(known, files, changed + [Current(known, files[n])], at + [n]))
      && (!Differs(known, files[n]) ==> ReportsAt(known, files, changed, at))
  {
    var n := |files| - 1;
    assert forall i | 0 <= i < n :: files[..n][i] == files[i];
    assert forall i | i in at :: i in at + [n];
    hide Differs;
  }

  /** Walks the files once, taking known names out of `left`. */
  method DiffFiles(known: map<string, File>, files: seq<Walked>)
    returns (changed: seq<File>, missing: seq<Id>, left: map<string, File>)
    requires DistinctNames(files) && forall n :: n in known ==> known[n].id.Some?
    ensures changed == Changes(known, files)
    ensures Reports(known, files, changed)
    ensures StatFailures(known, files, missing) && |missing| == |Failed(known, files)|
    ensures left == map n | n in known && !Listed(files, n) :: known[n]
  {
    hide Listed, Present, DistinctNames, Changes, Failed, ReportsAt;
    changed, missing, left := [], [], known;
    NothingListed(known, files);
    for i := 0 to |files|
      invariant changed == Changes(known, files[..i])
      invariant left == map n | n in known && !Listed(files[..i], n) :: known[n]
      invariant StatFailures(known, files[..i], missing) && |missing| == |Failed(known, files[..i])|
    {
      var f := files[i];
      var stored := Lookup(left, f.name);
      var ok := f.name in left;
      NextFile(known, files, i);
      NextFailed(known, files, i);
      left := left - {f.name};
      if f.stat.None? {
        if ok { missing := missing + [stored.id.value]; }
      } else if !Unchanged(stored, f.stat.value) {
        changed := changed + [File(stored.id, f.name, f.kind, f.stat.value.size, f.stat.value.modTime, false)];
      }
    }
    assert files[..|files|] == files;
    ChangesReport(known, files);
  }

  lemma NothingListed(known: map<string, File>, files: seq<Walked>)
    ensures Changes(known, files[..0]) == [] && forall n :: !Listed(files[..0], n)
    ensures Failed(known, files[..0]) == {}
  {
  }

  /** Ids of the known files that no walked file took. */
  method Leftovers(left: map<string, File>) returns (ids: seq<Id>)
    requires forall n :: n in left ==> left[n].id.Some?
    ensures forall id :: id in ids <==> exists n :: n in left && left[n].id == Some(id)
    ensures |ids| == |left|
  {
    ids := [];
    var names := left.Keys;
    while names != {}
      invariant names <= left.Keys && |ids| + |names| == |left.Keys|
      invariant forall id :: id in ids <==> exists n :: n in left.Keys - names && left[n].id == Some(id)
      decreases names
    {
      var n :| n in names;
      ids := ids + [left[n].id.value];
      names := names - {n};
    }
  }

  /** The change set of one walked dir. */
  method ComputeChangeset(known: map<string, File>, files: seq<Walked>)
    returns (changed: seq<File>, missing: seq<Id>, dirty: bool)
    requires DistinctNames(files) && forall n :: n in known ==> known[n].id.Some?
    ensures changed == Changes(known, files) && Reports(known, files, changed)
    ensures forall id :: id in missing <==> exists n :: IsMissing(known, files, n) && known[n].id == Some(id)
    ensures |missing| == |MissingNames(known, files)|
    ensures dirty <==> changed != [] || exists n :: IsMissing(known, files, n)
  {
    var early, left;
    changed, early, left := DiffFiles(known, files);
    var ids := Leftovers(left);
    missing := early + ids;
    dirty := |missing| > 0 || |changed| > 0;
    MissingParts(known, files, early, left, ids);
    MissingSplit(known, files, left);
    if missing != [] { assert missing[0] in missing; }
    forall n | IsMissing(known, files, n) ensures missing != [] {
      assert known[n].id.value in missing;
    }
  }

  /** The failed stats and the leftovers are together the missing names. */
  lemma MissingParts(known: map<string, File>, files: seq<Walked>, early: seq<Id>, left: map<string, File>,
                     ids: seq<Id>)
    requires forall n :: n in known ==> known[n].id.Some?
    requires StatFailures(known, files, early)
    requires left == map n | n in known && !Listed(files, n) :: known[n]
    requires forall id :: id in ids <==> exists n :: n in left && left[n].id == Some(id)
    ensures forall id :: id in early + ids <==> exists n :: IsMissing(known, files, n) && known[n].id == Some(id)
    ensures forall n :: IsMissing(known, files, n) ==> known[n].id.value in early + ids
  {
    forall n | IsMissing(known, files, n) ensures known[n].id.value in early + ids {
      var id := known[n].id.value;
      if Listed(files, n) {
        assert id in early;
      } else {
        assert n in left && left[n].id == Some(id);
        assert id in ids;
      }
    }
    forall id | id in early + ids ensures exists n :: IsMissing(known, files, n) && known[n].id == Some(id) {
      if id in early {
        var n :| n in known && Listed(files, n) && !Present(files, n) && known[n].id == Some(id);
        assert IsMissing(known, files, n);
      } else {
        var n :| n in left && left[n].id == Some(id);
        assert IsMissing(known, files, n);
      }
    }
  }

  lemma MissingSplit(known: map<string, File>, files: seq<Walked>, left: map<string, File>)
    requires left == map n | n in known && !Listed(files, n) :: known[n]
    ensures |MissingNames(known, files)| == |Failed(known, files)| + |left|
  {
    assert MissingNames(known, files) == Failed(known, files) + left.Keys;
    assert Failed(known, files) !! left.Keys;
    assert |left| == |left.Keys|;
  }

  /** A known name that fails to stat joins the failed ones. */
  lemma NextFailed(known: map<string, File>, files: seq<Walked>, i: nat)
    requires DistinctNames(files) && i < |files|
    ensures |Failed(known, files[..i + 1])|
      == |Failed(known, files[..i])| + if files[i].name in known && files[i].stat.None? then 1 else 0
  {
    NextFile(known, files, i);
    hide Listed, Present;
    var name := files[i].name;
    assert Failed(known, files[..i + 1])
      == Failed(known, files[..i]) + if name in known && files[i].stat.None? then {name} else {};
  }

  /** Reading one more file, whose name did not come before. */
  lemma NextFile(known: map<string, File>, files: seq<Walked>, i: nat)
    requires DistinctNames(files) && i < |files|
    ensures !Listed(files[..i], files[i].name) && !Present(files[..i], files[i].name)
    ensures forall n :: Listed(files[..i + 1], n) <==> Listed(files[..i], n) || n == files[i].name
    ensures forall n :: Present(files[..i + 1], n) <==>
      Present(files[..i], n) || (n == files[i].name && files[i].stat.Some?)
    ensures forall n :: Present(files[..i], n) ==> Listed(files[..i], n)
    ensures Changes(known, files[..i + 1]) == Changes(known, files[..i]) +
      if files[i].stat.Some? && !Unchanged(Lookup(known, files[i].name), files[i].stat.value)
      then [Current(known, files[i])] else []
  {
    var before, after := files[..i], files[..i + 1];
    assert after[..i] == before && after[i] == files[i];
    assert forall j :: 0 <= j < i ==> after[j] == before[j];
    forall n ensures Listed(after, n) <==> Listed(before, n) || n == files[i].name {
      if n == files[i].name { assert after[i].name == n; }
      if Listed(before, n) {
        var j :| 0 <= j < i && before[j].name == n;
        assert after[j].name == n;
      }
    }
    forall n ensures Present(after, n) <==> Present(before, n) || (n == files[i].name && files[i].stat.Some?) {
      if n == files[i].name && files[i].stat.Some? { assert after[i].name == n; }
      if Present(before, n) {
        var j :| 0 <= j < i && before[j].name == n && before[j].stat.Some?;
        assert after[j].name == n;
      }
    }
  }

  // ----- the stored rows of one dir, by name -----

  type Rows = map<string, FileRow>

  /** KnownFiles reads every row of the dir but not its missing flag. */
  function KnownFiles(rows: Rows): map<string, File> {
    map n | n in rows :: File(Some(rows[n].id), n, rows[n].kind, rows[n].size, rows[n].modTime, false)
  }

  /** The same rows with their missing flag, which the diff is written for. */
  function KnownFlagged(rows: Rows): map<string, File> {
    map n | n in rows :: File(Some(rows[n].id), n, rows[n].kind, rows[n].size, rows[n].modTime, rows[n].missing)
  }

  function UpsertRow(rows: Rows, f: File, newId: Id): FileRow {
    FileRow(if f.name in rows then rows[f.name].id else newId, f.kind, f.size, f.modTime, false)
  }

  /** A name's row after the change set: marked missing, upserted, or left alone.
      Whatever id a new row gets, `after` is the dir's content. */
  ghost predicate Synced(rows: Rows, known: map<string, File>, files: seq<Walked>, after: Rows) {
    && (forall n :: n in after <==> n in rows || ChangedName(known, files, n))
    && (forall n | n in rows && !ChangedName(known, files, n) ::
          after[n] == if IsMissing(known, files, n) then rows[n].(missing := true) else rows[n])
    && (forall i | 0 <= i < |files| && ChangedFile(known, files[i]) ::
          after[files[i].name] == UpsertRow(rows, Current(known, files[i]), after[files[i].name].id))
  }

  predicate ChangedFile(known: map<string, File>, f: Walked) {
    f.stat.Some? && !Unchanged(Lookup(known, f.name), f.stat.value)
  }

  ghost predicate ChangedName(known: map<string, File>, files: seq<Walked>, name: string) {
    exists i :: 0 <= i < |files| && files[i].name == name && ChangedFile(known, files[i])
  }

  // ----- the rows after a sync, field by field -----

  /** The walked file differs from its row, or has none. */
  ghost predicate RowDiffers(rows: Rows, f: Walked) {
    f.stat.Some? &&
    if f.name in rows then f.stat.value.size != rows[f.name].size || f.stat.value.modTime != rows[f.name].modTime
    else f.stat.value.size != 0 || f.stat.value.modTime != ZERO_TIME
  }

  ghost predicate NameDiffers(rows: Rows, files: seq<Walked>, name: string) {
    exists i :: 0 <= i < |files| && files[i].name == name && RowDiffers(rows, files[i])
  }

  /** A file that differs is stored as it was walked, under its old id; of every other
      row only the missing flag changes, which is set when the file was not found. */
  ghost predicate AsWalked(rows: Rows, files: seq<Walked>, after: Rows) {
    && (forall i | 0 <= i < |files| && RowDiffers(rows, files[i]) ::
          var n, stat := files[i].name, files[i].stat.value;
          && n in after && after[n].kind == files[i].kind && !after[n].missing
          && after[n].size == stat.size && after[n].modTime == stat.modTime
          && (n in rows ==> after[n].id == rows[n].id))
    && (forall n | n in rows && !NameDiffers(rows, files, n) ::
          && n in after && after[n].id == rows[n].id && after[n].kind == rows[n].kind
          && after[n].size == rows[n].size && after[n].modTime == rows[n].modTime
          && (after[n].missing <==> rows[n].missing || !Present(files, n)))
    && (forall n | n in after && n !in rows :: NameDiffers(rows, files, n))
  }

  /** A walked file differs, or a row's file was not found. */
  ghost predicate FindsChange(rows: Rows, files: seq<Walked>) {
    || (exists n :: NameDiffers(rows, files, n))
    || (exists n :: n in rows && !Present(files, n))
  }

  lemma SameChanges(rows: Rows, files: seq<Walked>)
    ensures forall i | 0 <= i < |files| :: ChangedFile(KnownFiles(rows), files[i]) <==> RowDiffers(rows, files[i])
    ensures forall n :: ChangedName(KnownFiles(rows), files, n) <==> NameDiffers(rows, files, n)
    ensures Dirty(KnownFiles(rows), files) <==> FindsChange(rows, files)
  {
    hide Present;
    var known := KnownFiles(rows);
    forall i | 0 <= i < |files| ensures ChangedFile(known, files[i]) <==> RowDiffers(rows, files[i]) {}
    forall n ensures ChangedName(known, files, n) <==> NameDiffers(rows, files, n) {}
    assert forall n :: IsMissing(known, files, n) <==> n in rows && !Present(files, n);
  }

  lemma SyncedAsWalked(rows: Rows, files: seq<Walked>, after: Rows)
    requires Synced(rows, KnownFiles(rows), files, after)
    ensures AsWalked(rows, files, after)
  {
    SameChanges(rows, files);
    hide Present, NameDiffers;
    forall i | 0 <= i < |files| && RowDiffers(rows, files[i]) ensures NameDiffers(rows, files, files[i].name) {
      assert ChangedName(KnownFiles(rows), files, files[i].name);
    }
  }

  // ----- what a sync promises -----

  /** Every file stored as present was walked and statted with the stored size and time. */
  ghost predicate Truthful(after: Rows, files: seq<Walked>) {
    forall n | n in after && !after[n].missing ::
      exists i :: 0 <= i < |files| && files[i].name == n && files[i].stat == Some(Stat(after[n].size, after[n].modTime))
  }

  /** Present rows are exactly the walked files. */
  ghost predicate Complete(after: Rows, files: seq<Walked>) {
    forall n :: n in after && !after[n].missing <==> Present(files, n)
  }

  lemma SyncIsTruthful(rows: Rows, files: seq<Walked>, after: Rows, flagged: bool)
    requires DistinctNames(files)
    requires Synced(rows, if flagged then KnownFlagged(rows) else KnownFiles(rows), files, after)
    ensures Truthful(after, files)
  {
    var known := if flagged then KnownFlagged(rows) else KnownFiles(rows);
    forall n | n in after && !after[n].missing
      ensures exists i ::
        0 <= i < |files| && files[i].name == n && files[i].stat == Some(Stat(after[n].size, after[n].modTime))
    {
      if ChangedName(known, files, n) {
        var i :| 0 <= i < |files| && files[i].name == n && ChangedFile(known, files[i]);
        assert files[i].stat == Some(Stat(after[n].size, after[n].modTime));
      } else {
        assert Present(files, n);
        var i :| 0 <= i < |files| && files[i].name == n && files[i].stat.Some?;
        assert !ChangedFile(known, files[i]);
      }
    }
  }

  /** A walked file with the size and time of the zero File and no row. */
  ghost predicate LooksZero(rows: Rows, files: seq<Walked>) {
    exists i :: 0 <= i < |files| && files[i].name !in rows && files[i].stat == Some(Stat(0, ZERO_TIME))
  }

  /** A file came back exactly as it was when it went missing. */
  ghost predicate CameBackUnchanged(rows: Rows, files: seq<Walked>) {
    exists i :: 0 <= i < |files| && files[i].name in rows && rows[files[i].name].missing &&
      files[i].stat == Some(Stat(rows[files[i].name].size, rows[files[i].name].modTime))
  }

  /** Because KnownFiles leaves the missing flag out, a file that comes back with
      its old size and time stays missing: the rows are complete exactly when no
      file did so, and no new file looks like the zero File. */
  lemma SyncIsCompleteIff(rows: Rows, files: seq<Walked>, after: Rows)
    requires DistinctNames(files) && Synced(rows, KnownFiles(rows), files, after)
    ensures Complete(after, files) <==> !CameBackUnchanged(rows, files) && !LooksZero(rows, files)
  {
    var known := KnownFiles(rows);
    if CameBackUnchanged(rows, files) {
      var i :| 0 <= i < |files| && files[i].name in rows && rows[files[i].name].missing &&
        files[i].stat == Some(Stat(rows[files[i].name].size, rows[files[i].name].modTime));
      assert !ChangedName(known, files, files[i].name) && Present(files, files[i].name);
    } else if LooksZero(rows, files) {
      var i :| 0 <= i < |files| && files[i].name !in rows && files[i].stat == Some(Stat(0, ZERO_TIME));
      assert !ChangedName(known, files, files[i].name) && Present(files, files[i].name);
    } else {
      forall n ensures n in after && !after[n].missing <==> Present(files, n) {
        WalkedRow(rows, known, files, after, n);
      }
    }
  }

  /** Away from the two exceptions, a walked file's row is present, and no other is. */
  lemma WalkedRow(rows: Rows, known: map<string, File>, files: seq<Walked>, after: Rows, n: string)
    requires DistinctNames(files) && Synced(rows, known, files, after)
    requires known == KnownFlagged(rows) || (known == KnownFiles(rows) && !CameBackUnchanged(rows, files))
    requires !LooksZero(rows, files)
    ensures n in after && !after[n].missing <==> Present(files, n)
  {
  }

  /** With the true flag, only a new file that looks like the zero File is left out. */
  lemma FlaggedSyncIsCompleteIff(rows: Rows, files: seq<Walked>, after: Rows)
    requires DistinctNames(files) && Synced(rows, KnownFlagged(rows), files, after)
    ensures Complete(after, files) <==> !LooksZero(rows, files)
  {
  }

  /** The diff of a dir finds something to report. */
  ghost predicate Dirty(known: map<string, File>, files: seq<Walked>) {
    || (exists n :: IsMissing(known, files, n))
    || (exists n :: ChangedName(known, files, n))
  }

  /** Syncing the same walk again is clean exactly when every stored row was
      walked: rows that stay missing are reported again by every scan. */
  lemma ResyncCleanIff(rows: Rows, files: seq<Walked>, after: Rows)
    requires DistinctNames(files) && Synced(rows, KnownFiles(rows), files, after)
    ensures !Dirty(KnownFiles(after), files) <==> forall n :: n in after ==> Present(files, n)
  {
    var known, again := KnownFiles(rows), KnownFiles(after);
    forall n ensures !ChangedName(again, files, n) {
      forall i | 0 <= i < |files| && files[i].name == n ensures !ChangedFile(again, files[i]) {
        if files[i].stat.Some? {
          if ChangedFile(known, files[i]) {
            assert ChangedName(known, files, n);
          } else {
            assert !ChangedName(known, files, n);
          }
        }
      }
    }
    assert forall n :: IsMissing(again, files, n) <==> n in after && !Present(files, n);
  }

  /** A concrete dir: the file goes missing, comes back untouched, and stays missing. */
  lemma ReturnedFileStaysMissing()
    ensures var rows: Rows := map["a.flac" := FileRow(1, Audio, 2, 5, true)];
      var files := [Walked("a.flac", Audio, Some(Stat(2, 5)))];
      && Synced(rows, KnownFiles(rows), files, rows)
      && !Complete(rows, files) && !Dirty(KnownFiles(rows), files)
  {
    var rows: Rows := map["a.flac" := FileRow(1, Audio, 2, 5, true)];
    var files := [Walked("a.flac", Audio, Some(Stat(2, 5)))];
    assert files[0].name == "a.flac";
    assert Present(files, "a.flac");
    assert forall n :: !ChangedName(KnownFiles(rows), files, n);
  }

  /** A concrete dir: its only file stays gone, and every scan reports it again. */
  lemma MissingRowReportedAgain()
    ensures var rows: Rows := map["a.flac" := FileRow(1, Audio, 2, 5, true)];
      && Synced(rows, KnownFiles(rows), [], rows)
      && Dirty(KnownFiles(rows), [])
  {
    var rows: Rows := map["a.flac" := FileRow(1, Audio, 2, 5, true)];
    assert IsMissing(KnownFiles(rows), [], "a.flac");
  }
}
