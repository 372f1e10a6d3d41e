/** Replacing a dir's albums: the whole result, the invariants it keeps, and
    that doing it twice is doing it once. */
module CatalogReplace {
  import opened Basics
  import opened Catalog
  import opened CatalogImport

  ghost predicate OwnedElsewhere(lib: Library, dir: Id, k: TrackKey)
    requires k in lib.tracks
  {
    exists a :: Owns(lib.albums, a, lib.tracks[k]) && a.dir != dir
  }

  /** Albums of the dir are exactly the imported ones, under kept ids; albums of
      other dirs keep everything but perhaps the primary flag. */
  ghost predicate AlbumsReplaced(lib: Library, sortNames: map<Id, string>, dir: Id, payload: seq<ImportAlbum>,
                                 r: Albums) {
    && (forall k: AlbumKey | k.dir == dir :: k in r <==> Touched(dir, payload, |payload|, k))
    && (forall j | 0 <= j < |payload| :: RowReplaced(lib, sortNames, dir, payload, j, r))
    && (forall k: AlbumKey | k.dir != dir ::
          (k in r <==> k in lib.albums) && (k in r ==> r[k] == lib.albums[k].(primary := r[k].primary)))
  }

  ghost predicate RowReplaced(lib: Library, sortNames: map<Id, string>, dir: Id, payload: seq<ImportAlbum>, j: nat,
                              r: Albums)
    requires j < |payload|
  {
    var key := KeyAt(dir, payload, j);
    key in r && r[key] == UpsertedAlbum(lib.albums, sortNames, key, payload[j]).(primary := r[key].primary)
  }

  /** Imported tracks are where the payload says; of the others, exactly those
      of other dirs' albums remain, unchanged. */
  ghost predicate TracksReplaced(lib: Library, dir: Id, payload: seq<ImportAlbum>, r: Tracks) {
    && (forall j: nat, i: nat | At(payload, j, i) ::
          payload[j].tracks[i].key in r && r[payload[j].tracks[i].key] == RowFor(lib, dir, payload, j, i))
    && (forall k | !ImportedBelow(payload, |payload|, k) ::
          && (k in r <==> k in lib.tracks && OwnedElsewhere(lib, dir, k))
          && (k in r ==> r[k] == lib.tracks[k]))
  }

  /** A surviving primary stays; a new primary is its group's oldest album, and
      the group's former primary is gone. */
  ghost predicate PrimaryMoves(before: Albums, after: Albums) {
    && (forall k :: k in before && k in after && before[k].primary ==> after[k].primary)
    && (forall k | k in after && after[k].primary && !(k in before && before[k].primary) ::
          && Oldest(after, k)
          && forall p :: p in before && p.group == k.group && before[p].primary ==> p !in after)
  }

  // ----- deleting stale albums -----

  /** The stale albums are the dir's albums that the payload does not name. */
  lemma StaleAre(lib: Library, sortNames: map<Id, string>, dir: Id, payload: seq<ImportAlbum>, albums: Albums)
    requires AlbumsAfter(lib, sortNames, dir, payload, |payload|, albums)
    requires DistinctKeys(payload) && Fresh(lib, payload) && UniqueAlbumIds(lib.albums)
    ensures forall k :: k in StaleAlbums(albums, dir, KeptAlbums(albums, dir, payload)) <==>
                        k in lib.albums && k.dir == dir && !Touched(dir, payload, |payload|, k)
  {
    var kept := KeptAlbums(albums, dir, payload);
    forall j | 0 <= j < |payload|
      ensures KeyAt(dir, payload, j) in albums && albums[KeyAt(dir, payload, j)].id in kept
    {
      assert AlbumDone(lib, sortNames, dir, payload, j, albums);
      assert payload[j] in payload;
    }
    forall k | k in lib.albums && !Touched(dir, payload, |payload|, k) ensures albums[k].id !in kept {
      forall al | al in payload && AlbumKey(dir, al.group) in albums
        ensures albums[AlbumKey(dir, al.group)].id != albums[k].id
      {
        var j :| 0 <= j < |payload| && payload[j] == al;
        assert AlbumDone(lib, sortNames, dir, payload, j, albums) && KeyAt(dir, payload, j) != k;
      }
    }
  }

  /** Ids of the stale albums. */
  function GoneIds(lib: Library, stale: set<AlbumKey>): set<Id> {
    set k | k in stale && k in lib.albums :: lib.albums[k].id
  }

  lemma ImportedNotGone(lib: Library, dir: Id, payload: seq<ImportAlbum>, stale: set<AlbumKey>, j: nat)
    requires forall k :: k in stale ==> k in lib.albums && k.dir == dir && !Touched(dir, payload, |payload|, k)
    requires j < |payload| && UniqueAlbumIds(lib.albums) && Fresh(lib, payload)
    ensures IdAt(lib, dir, payload, j) !in GoneIds(lib, stale)
  {
  }

  /** A track that no earlier album took survives exactly if its album is of another dir. */
  lemma OthersSurvive(lib: Library, dir: Id, payload: seq<ImportAlbum>, stale: set<AlbumKey>, k: TrackKey)
    requires forall a :: a in stale <==> a in lib.albums && a.dir == dir && !Touched(dir, payload, |payload|, a)
    requires UniqueAlbumIds(lib.albums) && NoOrphans(lib) && Fresh(lib, payload) && k in lib.tracks
    ensures OwnedElsewhere(lib, dir, k) <==>
            !TakenBefore(lib, dir, payload, k, |payload|) && lib.tracks[k].album !in GoneIds(lib, stale)
  {
    var a :| Owns(lib.albums, a, lib.tracks[k]);
    if a.dir == dir {
      if Touched(dir, payload, |payload|, a) {
        var j :| 0 <= j < |payload| && KeyAt(dir, payload, j) == a;
        assert IdAt(lib, dir, payload, j) == lib.tracks[k].album;
      } else {
        assert a in stale;
      }
    }
  }

  lemma TracksDropped(lib: Library, sortNames: map<Id, string>, dir: Id, payload: seq<ImportAlbum>, imported: Library)
    requires After(lib, sortNames, dir, payload, |payload|, imported)
    requires DistinctKeys(payload) && Fresh(lib, payload) && UniqueAlbumIds(lib.albums) && NoOrphans(lib)
    ensures var stale := StaleAlbums(imported.albums, dir, KeptAlbums(imported.albums, dir, payload));
      TracksReplaced(lib, dir, payload, DropAlbums(imported, stale).tracks)
  {
    hide DistinctKeys, Fresh, StaleAlbums, KeptAlbums, OwnedElsewhere, TakenBefore, NoOrphans, UniqueAlbumIds;
    var n := |payload|;
    var stale := StaleAlbums(imported.albums, dir, KeptAlbums(imported.albums, dir, payload));
    StaleAre(lib, sortNames, dir, payload, imported.albums);
    forall k | k in stale ensures k in imported.albums && imported.albums[k] == lib.albums[k] {
      assert !Touched(dir, payload, n, k);
    }
    assert GoneIds(imported, stale) == GoneIds(lib, stale);
    var r := DropAlbums(imported, stale).tracks;
    assert r == map k | k in imported.tracks && imported.tracks[k].album !in GoneIds(lib, stale) :: imported.tracks[k];
    forall j: nat, i: nat | At(payload, j, i)
      ensures payload[j].tracks[i].key in r && r[payload[j].tracks[i].key] == RowFor(lib, dir, payload, j, i)
    {
      ImportedNotGone(lib, dir, payload, stale, j);
    }
    forall k | !ImportedBelow(payload, n, k)
      ensures k in r <==> k in lib.tracks && OwnedElsewhere(lib, dir, k)
      ensures k in r ==> r[k] == lib.tracks[k]
    {
      if k in lib.tracks { OthersSurvive(lib, dir, payload, stale, k); }
    }
  }

  // ----- primaries -----

  lemma {:induction false} OldestExists(albums: Albums, group: string, keys: set<AlbumKey>) returns (oldest: AlbumKey)
    requires keys != {} && forall k :: k in keys ==> k in albums && k.group == group
    ensures oldest in keys && forall k :: k in keys ==> albums[oldest].id <= albums[k].id
    decreases |keys|
  {
    var k :| k in keys;
    oldest := k;
    if keys != {k} {
      assert keys - {k} != {};
      var other := OldestExists(albums, group, keys - {k});
      if albums[other].id < albums[k].id { oldest := other; }
    }
  }

  lemma PromoteRestores(albums: Albums, groups: set<string>)
    requires UniqueAlbumIds(albums) && AtMostOnePrimary(albums)
    requires forall k :: k in albums ==> HasPrimary(albums, k.group) || k.group in groups
    ensures OnePrimary(Promote(albums, groups))
  {
    var r := Promote(albums, groups);
    forall j, k | j in r && k in r && j.group == k.group && r[j].primary && r[k].primary ensures j == k {
      assert albums[j].primary ==> HasPrimary(albums, j.group);
      assert albums[k].primary ==> HasPrimary(albums, k.group);
    }
    forall k | k in r ensures HasPrimary(r, k.group) {
      if HasPrimary(albums, k.group) {
        var p :| p in albums && p.group == k.group && albums[p].primary;
        assert r[p].primary;
      } else {
        var members := set a | a in albums && a.group == k.group;
        assert k in members;
        var p := OldestExists(albums, k.group, members);
        assert Oldest(albums, p) && r[p].primary;
      }
    }
  }

  /** Upserting the list keeps one primary per group. */
  lemma ImportKeepsPrimary(lib: Library, sortNames: map<Id, string>, dir: Id, payload: seq<ImportAlbum>, albums: Albums)
    requires AlbumsAfter(lib, sortNames, dir, payload, |payload|, albums)
    requires DistinctKeys(payload) && OnePrimary(lib.albums)
    ensures OnePrimary(albums)
    ensures forall k :: k in lib.albums ==> k in albums && albums[k].primary == lib.albums[k].primary
    ensures forall k :: k in albums && k !in lib.albums ==> (albums[k].primary <==> !HasPrimary(lib.albums, k.group))
    ensures forall k :: k in albums && k !in lib.albums ==> k.dir == dir
  {
    hide UpsertedTrack;
    var n := |payload|;
    forall k ensures k in lib.albums ==> k in albums && albums[k].primary == lib.albums[k].primary
      ensures k in albums && k !in lib.albums ==>
        k.dir == dir && (albums[k].primary <==> !HasPrimary(lib.albums, k.group))
    {
      if Touched(dir, payload, n, k) {
        var j :| 0 <= j < n && KeyAt(dir, payload, j) == k;
        assert AlbumDone(lib, sortNames, dir, payload, j, albums);
      }
    }
    forall k | k in albums ensures HasPrimary(albums, k.group) {
      if HasPrimary(lib.albums, k.group) {
        var p :| p in lib.albums && p.group == k.group && lib.albums[p].primary;
        assert albums[p].primary;
      } else {
        assert k !in lib.albums;
      }
    }
  }

  /** A group that lost its primary lost it to this dir, so it is in the list. */
  lemma GroupsCovered(imported: Albums, dir: Id, stale: set<AlbumKey>, k: AlbumKey)
    requires OnePrimary(imported) && k in imported - stale
    requires forall a :: a in stale ==> a.dir == dir
    ensures HasPrimary(imported - stale, k.group) || k.group in PrimaryGroups(imported, dir)
  {
  }

  /** Whoever becomes primary is the oldest, and replaces a primary that is gone. */
  lemma NewPrimary(before: Albums, imported: Albums, groups: set<string>, stale: set<AlbumKey>, k: AlbumKey)
    requires OnePrimary(before) && OnePrimary(imported)
    requires forall a :: a in before ==> a in imported && imported[a].primary == before[a].primary
    requires forall a :: a in imported && a !in before ==> (imported[a].primary <==> !HasPrimary(before, a.group))
    requires var r := Promote(imported - stale, groups);
      k in r && r[k].primary && !(k in before && before[k].primary)
    ensures var r := Promote(imported - stale, groups);
      && Oldest(r, k)
      && forall p :: p in before && p.group == k.group && before[p].primary ==> p !in r
  {
    var rest := imported - stale;
    var r := Promote(rest, groups);
    if imported[k].primary {
      NewGroup(before, imported, r, k);
    } else {
      assert forall p :: p in rest ==> rest[p] == imported[p];
      assert !HasPrimary(rest, k.group) && Oldest(rest, k);
    }
  }

  /** Deleting some of a dir's albums and promoting where that dir held the
      primary moves no surviving primary. */
  lemma PromotionMoves(before: Albums, imported: Albums, dir: Id, stale: set<AlbumKey>)
    requires OnePrimary(before) && OnePrimary(imported) && UniqueAlbumIds(imported)
    requires forall k :: k in before ==> k in imported && imported[k].primary == before[k].primary
    requires forall k :: k in imported && k !in before ==> (imported[k].primary <==> !HasPrimary(before, k.group))
    requires forall k :: k in stale ==> k.dir == dir
    ensures var r := Promote(imported - stale, PrimaryGroups(imported, dir));
      OnePrimary(r) && PrimaryMoves(before, r)
  {
    hide HasPrimary, Oldest, PrimaryGroups;
    var groups := PrimaryGroups(imported, dir);
    var rest := imported - stale;
    forall k | k in rest ensures HasPrimary(rest, k.group) || k.group in groups {
      GroupsCovered(imported, dir, stale, k);
    }
    PromoteRestores(rest, groups);
    var r := Promote(rest, groups);
    forall k | k in r && r[k].primary && !(k in before && before[k].primary)
      ensures Oldest(r, k)
      ensures forall p :: p in before && p.group == k.group && before[p].primary ==> p !in r
    {
      NewPrimary(before, imported, groups, stale, k);
    }
  }

  /** An album that was inserted as primary is alone in its group. */
  lemma NewGroup(before: Albums, imported: Albums, r: Albums, k: AlbumKey)
    requires OnePrimary(before) && OnePrimary(imported) && r.Keys <= imported.Keys
    requires forall a :: a in before ==> a in imported && imported[a].primary == before[a].primary
    requires forall a :: a in imported && a !in before ==> (imported[a].primary <==> !HasPrimary(before, a.group))
    requires k in r && imported[k].primary && !(k in before && before[k].primary)
    ensures Oldest(r, k) && !HasPrimary(before, k.group)
  {
  }

  lemma PrimariesReplaced(lib: Library, sortNames: map<Id, string>, dir: Id, payload: seq<ImportAlbum>,
                          imported: Albums)
    requires AlbumsAfter(lib, sortNames, dir, payload, |payload|, imported)
    requires DistinctKeys(payload) && OnePrimary(lib.albums) && UniqueAlbumIds(imported)
    ensures var stale := StaleAlbums(imported, dir, KeptAlbums(imported, dir, payload));
      var r := Promote(imported - stale, PrimaryGroups(imported, dir));
      OnePrimary(r) && PrimaryMoves(lib.albums, r)
  {
    ImportKeepsPrimary(lib, sortNames, dir, payload, imported);
    hide AlbumsAfter, OnePrimary, UniqueAlbumIds, DistinctKeys, PrimaryMoves, Promote, HasPrimary;
    var stale := StaleAlbums(imported, dir, KeptAlbums(imported, dir, payload));
    PromotionMoves(lib.albums, imported, dir, stale);
  }

  // ----- the result of one call -----

  /** The whole effect of one call, for every catalog and payload with distinct keys. */
  lemma ReplaceResult(lib: Library, sortNames: map<Id, string>, dir: Id, payload: seq<ImportAlbum>)
    requires Sound(lib) && DistinctKeys(payload) && Fresh(lib, payload)
    ensures var r := Replace(lib, sortNames, dir, payload);
      && AlbumsReplaced(lib, sortNames, dir, payload, r.albums)
      && TracksReplaced(lib, dir, payload, r.tracks)
      && OnePrimary(r.albums) && PrimaryMoves(lib.albums, r.albums)
  {
    hide ImportStep, DistinctKeys, Fresh, OnePrimary, PrimaryMoves, TracksReplaced, TracksAfter, UpsertedAlbum;
    var n := |payload|;
    var imported := ImportAll(lib, sortNames, dir, payload, n);
    ImportAllAfter(lib, sortNames, dir, payload, n);
    StaleAre(lib, sortNames, dir, payload, imported.albums);
    TracksDropped(lib, sortNames, dir, payload, imported);
    AlbumIdsUnique(lib, sortNames, dir, payload, imported.albums);
    PrimariesReplaced(lib, sortNames, dir, payload, imported.albums);
    RowsReplaced(lib, sortNames, dir, payload, imported.albums);
  }

  lemma AlbumIdsUnique(lib: Library, sortNames: map<Id, string>, dir: Id, payload: seq<ImportAlbum>, albums: Albums)
    requires AlbumsAfter(lib, sortNames, dir, payload, |payload|, albums)
    requires DistinctKeys(payload) && Fresh(lib, payload) && UniqueAlbumIds(lib.albums)
    ensures UniqueAlbumIds(albums)
  {
    var n := |payload|;
    forall k | k in albums
      ensures (k in lib.albums && albums[k].id == lib.albums[k].id)
        || exists j :: 0 <= j < n && KeyAt(dir, payload, j) == k && albums[k].id == payload[j].id
    {
      if Touched(dir, payload, n, k) {
        var j :| 0 <= j < n && KeyAt(dir, payload, j) == k;
        assert AlbumDone(lib, sortNames, dir, payload, j, albums);
      }
    }
  }

  lemma RowsReplaced(lib: Library, sortNames: map<Id, string>, dir: Id, payload: seq<ImportAlbum>, imported: Albums)
    requires AlbumsAfter(lib, sortNames, dir, payload, |payload|, imported)
    requires DistinctKeys(payload) && Fresh(lib, payload) && UniqueAlbumIds(lib.albums)
    ensures var stale := StaleAlbums(imported, dir, KeptAlbums(imported, dir, payload));
      AlbumsReplaced(lib, sortNames, dir, payload, Promote(imported - stale, PrimaryGroups(imported, dir)))
  {
    hide DistinctKeys, Fresh, UpsertedAlbum, HasPrimary, Oldest, StaleAlbums, KeptAlbums, PrimaryGroups;
    var n := |payload|;
    var stale := StaleAlbums(imported, dir, KeptAlbums(imported, dir, payload));
    StaleAre(lib, sortNames, dir, payload, imported);
    var r := Promote(imported - stale, PrimaryGroups(imported, dir));
    forall j | 0 <= j < n ensures RowReplaced(lib, sortNames, dir, payload, j, r) {
      assert AlbumDone(lib, sortNames, dir, payload, j, imported);
      assert Touched(dir, payload, n, KeyAt(dir, payload, j));
    }
    forall k: AlbumKey | k.dir == dir ensures k in r <==> Touched(dir, payload, n, k) {
      if Touched(dir, payload, n, k) {
        var j :| 0 <= j < n && KeyAt(dir, payload, j) == k;
        assert RowReplaced(lib, sortNames, dir, payload, j, r);
      }
    }
    forall k: AlbumKey | k.dir != dir ensures !Touched(dir, payload, n, k) {}
  }
}
