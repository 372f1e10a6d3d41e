/** Sequences of imports: invariants over every run, and idempotence. */
module CatalogRuns {
  import opened Basics
  import opened Catalog
  import opened CatalogImages
  import opened CatalogImport
  import opened CatalogReplace

  // ----- invariants of one call -----

  /** A cover link that is still there is still the cover. */
  ghost predicate CoverStays(before: map<Id, ImageLink>, after: map<Id, ImageLink>) {
    forall i :: i in before && i in after && before[i].cover ==> after[i].cover
  }

  lemma CoversKept(lib: Library, sortNames: map<Id, string>, dir: Id, payload: seq<ImportAlbum>, r: Albums)
    requires AlbumsReplaced(lib, sortNames, dir, payload, r) && OneCoverEach(payload)
    requires forall k :: k in lib.albums ==> AtMostOneCover(lib.albums[k].images)
    ensures forall k :: k in r ==> AtMostOneCover(r[k].images)
    ensures forall k :: k in r && k in lib.albums ==> CoverStays(lib.albums[k].images, r[k].images)
  {
    hide ReplaceImages, AtMostOneCover, CoverChoice;
    forall k | k in r
      ensures AtMostOneCover(r[k].images)
      ensures k in lib.albums ==> CoverStays(lib.albums[k].images, r[k].images)
    {
      if k.dir == dir {
        var j :| 0 <= j < |payload| && KeyAt(dir, payload, j) == k;
        assert RowReplaced(lib, sortNames, dir, payload, j, r);
        assert payload[j] in payload;
        NoCover();
        CoverKept(if k in lib.albums then lib.albums[k].images else map[], payload[j].images);
      }
    }
  }

  lemma NoCover()
    ensures AtMostOneCover(map[])
  {
  }

  lemma AlbumIdsKept(lib: Library, sortNames: map<Id, string>, dir: Id, payload: seq<ImportAlbum>, r: Albums)
    requires AlbumsReplaced(lib, sortNames, dir, payload, r)
    requires UniqueAlbumIds(lib.albums) && DistinctKeys(payload) && Fresh(lib, payload)
    ensures UniqueAlbumIds(r)
  {
    hide UpsertTracks, DistinctTracks, FreshTracks, NoSharedId, NoSharedKey;
    forall k | k in r
      ensures (k in lib.albums && r[k].id == lib.albums[k].id)
        || exists j :: 0 <= j < |payload| && KeyAt(dir, payload, j) == k && r[k].id == payload[j].id
    {
      if k.dir == dir {
        var j :| 0 <= j < |payload| && KeyAt(dir, payload, j) == k;
        assert RowReplaced(lib, sortNames, dir, payload, j, r);
      }
    }
  }

  lemma TrackIdsKept(lib: Library, dir: Id, payload: seq<ImportAlbum>, r: Tracks)
    requires TracksReplaced(lib, dir, payload, r)
    requires DistinctKeys(payload) && Fresh(lib, payload) && UniqueTrackIds(lib.tracks)
    ensures UniqueTrackIds(r)
  {
    forall k | k in r
      ensures (k in lib.tracks && r[k].id == lib.tracks[k].id)
        || exists j: nat, i: nat :: At(payload, j, i) && j < |payload| && payload[j].tracks[i].key == k
             && payload[j].tracks[i].id == r[k].id
    {
      if ImportedBelow(payload, |payload|, k) {
        var j: nat, i: nat :| At(payload, j, i) && j < |payload| && payload[j].tracks[i].key == k;
        assert r[k] == RowFor(lib, dir, payload, j, i);
      }
    }
    OriginUnique(lib, payload, |payload|, r);
  }

  lemma OwnersKept(lib: Library, sortNames: map<Id, string>, dir: Id, payload: seq<ImportAlbum>, r: Library)
    requires AlbumsReplaced(lib, sortNames, dir, payload, r.albums) && TracksReplaced(lib, dir, payload, r.tracks)
    ensures NoOrphans(r)
  {
    hide LinkCredits, TakenBefore, ReplaceImages;
    forall k | k in r.tracks ensures exists a :: Owns(r.albums, a, r.tracks[k]) {
      if ImportedBelow(payload, |payload|, k) {
        var j: nat, i: nat :| At(payload, j, i) && j < |payload| && payload[j].tracks[i].key == k;
        assert r.tracks[k] == RowFor(lib, dir, payload, j, i);
        assert RowReplaced(lib, sortNames, dir, payload, j, r.albums);
        assert Owns(r.albums, KeyAt(dir, payload, j), r.tracks[k]);
      } else {
        var a :| Owns(lib.albums, a, lib.tracks[k]) && a.dir != dir;
        assert Owns(r.albums, a, r.tracks[k]);
      }
    }
  }

  lemma SoundKept(lib: Library, sortNames: map<Id, string>, dir: Id, payload: seq<ImportAlbum>)
    requires Sound(lib) && DistinctKeys(payload) && Fresh(lib, payload) && OneCoverEach(payload)
    ensures Sound(Replace(lib, sortNames, dir, payload))
  {
    hide Replace, DistinctKeys, Fresh, AlbumsReplaced, TracksReplaced, OneCoverEach, PrimaryMoves;
    var r := Replace(lib, sortNames, dir, payload);
    ReplaceResult(lib, sortNames, dir, payload);
    CoversKept(lib, sortNames, dir, payload, r.albums);
    AlbumIdsKept(lib, sortNames, dir, payload, r.albums);
    TrackIdsKept(lib, dir, payload, r.tracks);
    OwnersKept(lib, sortNames, dir, payload, r);
  }

  // ----- every run of calls -----

  datatype Call = Call(sortNames: map<Id, string>, dir: Id, payload: seq<ImportAlbum>)

  function After(lib: Library, call: Call): Library {
    Replace(lib, call.sortNames, call.dir, call.payload)
  }

  function Run(lib: Library, calls: seq<Call>): Library
    decreases |calls|
  {
    if calls == [] then lib else Run(After(lib, calls[0]), calls[1..])
  }

  /** Each call has distinct keys, newly minted ids and the importer's cover choice. */
  ghost predicate Proper(lib: Library, calls: seq<Call>)
    decreases |calls|
  {
    calls == [] ||
    (DistinctKeys(calls[0].payload) && Fresh(lib, calls[0].payload) && OneCoverEach(calls[0].payload)
     && Proper(After(lib, calls[0]), calls[1..]))
  }

  /** Over every sequence of calls from a sound catalog: every group with an album has exactly one primary, every album
      has at most one cover, ids stay unique and no track loses its album. */
  lemma {:induction false} SoundForever(lib: Library, calls: seq<Call>)
    requires Sound(lib) && Proper(lib, calls)
    ensures Sound(Run(lib, calls))
    decreases |calls|
  {
    hide Sound, DistinctKeys, Fresh, OneCoverEach, Replace;
    if calls != [] {
      SoundKept(lib, calls[0].sortNames, calls[0].dir, calls[0].payload);
      SoundForever(After(lib, calls[0]), calls[1..]);
    }
  }

  /** The album is there before and after every call. */
  ghost predicate Survives(lib: Library, calls: seq<Call>, k: AlbumKey)
    decreases |calls|
  {
    k in lib.albums && (calls == [] || Survives(After(lib, calls[0]), calls[1..], k))
  }

  /** As long as it survives, a group's primary stays the primary. */
  lemma {:induction false} PrimaryStays(lib: Library, calls: seq<Call>, k: AlbumKey)
    requires Sound(lib) && Proper(lib, calls) && Survives(lib, calls, k) && lib.albums[k].primary
    ensures k in Run(lib, calls).albums && Run(lib, calls).albums[k].primary
    decreases |calls|
  {
    hide Sound, DistinctKeys, Fresh, OneCoverEach, Replace, AlbumsReplaced, TracksReplaced, OnePrimary;
    if calls != [] {
      var call := calls[0];
      ReplaceResult(lib, call.sortNames, call.dir, call.payload);
      SoundKept(lib, call.sortNames, call.dir, call.payload);
      PrimaryStays(After(lib, call), calls[1..], k);
    }
  }

  lemma EmptySound()
    ensures Sound(Library(map[], map[]))
  {
  }

  /** So every catalog that imports alone have built is sound. */
  lemma SoundFromEmpty(calls: seq<Call>)
    requires Proper(Library(map[], map[]), calls)
    ensures Sound(Run(Library(map[], map[]), calls))
  {
    EmptySound();
    SoundForever(Library(map[], map[]), calls);
  }

  // ----- row ids -----

  /** A known album key keeps its row id. */
  lemma AlbumIdsStable(lib: Library, sortNames: map<Id, string>, dir: Id, payload: seq<ImportAlbum>, j: nat)
    requires Sound(lib) && DistinctKeys(payload) && Fresh(lib, payload) && j < |payload|
    ensures var key, r := AlbumKey(dir, payload[j].group), Replace(lib, sortNames, dir, payload).albums;
      && key in r
      && r[key].id == if key in lib.albums then lib.albums[key].id else payload[j].id
  {
    hide Replace, ReplaceImages;
    ReplaceResult(lib, sortNames, dir, payload);
    assert RowReplaced(lib, sortNames, dir, payload, j, Replace(lib, sortNames, dir, payload).albums);
  }

  /** A known track keeps its row id, wherever it was, if and only if its old
      album is not an earlier one of the list. */
  lemma TrackIdsStable(lib: Library, sortNames: map<Id, string>, dir: Id, payload: seq<ImportAlbum>, j: nat, i: nat)
    requires Sound(lib) && DistinctKeys(payload) && Fresh(lib, payload) && At(payload, j, i)
    requires payload[j].tracks[i].key in lib.tracks
    ensures var k := payload[j].tracks[i].key;
      var r := Replace(lib, sortNames, dir, payload).tracks;
      && k in r
      && (r[k].id == lib.tracks[k].id <==>
          !exists m :: 0 <= m < j && AlbumKey(dir, payload[m].group) in lib.albums &&
            lib.albums[AlbumKey(dir, payload[m].group)].id == lib.tracks[k].album)
  {
    hide Replace, LinkCredits;
    ReplaceResult(lib, sortNames, dir, payload);
    var t := payload[j].tracks[i];
    var r := Replace(lib, sortNames, dir, payload).tracks;
    assert r[t.key] == RowFor(lib, dir, payload, j, i);
    assert FreshTracks(lib.tracks, payload[j].tracks);
    var a :| Owns(lib.albums, a, lib.tracks[t.key]);
    forall m | 0 <= m < j
      ensures IdAt(lib, dir, payload, m) == lib.tracks[t.key].album <==>
        AlbumKey(dir, payload[m].group) in lib.albums &&
        lib.albums[AlbumKey(dir, payload[m].group)].id == lib.tracks[t.key].album
    {
    }
  }

  const ALBUM_INFO := AlbumInfo("", "", "", "", "", false, false, false, "")
  const TRACK_INFO := TrackInfo(1, "", 1, "", "", "", "flac", 44100, 16, 2, 0, 0)
  const TRACK := TrackKey(5, 0)

  /** Dir 1 holds albums "a" and "b", and "a" holds the track. */
  function Shelf(): Library {
    Library(map[AlbumKey(1, "a") := AlbumRow(10, ALBUM_INFO, "", true, [], map[]),
                AlbumKey(1, "b") := AlbumRow(11, ALBUM_INFO, "", true, [], map[])],
            map[TRACK := TrackRow(20, 10, TRACK_INFO, [])])
  }

  /** The next import finds the track in album "b", which comes second. */
  function Moved(): seq<ImportAlbum> {
    [ImportAlbum(12, "a", ALBUM_INFO, [], [], []),
     ImportAlbum(13, "b", ALBUM_INFO, [], [], [ImportTrack(21, TRACK, TRACK_INFO, [])])]
  }

  /** The track's row is deleted with album "a" and comes back under a new id. */
  lemma MovedTrackChangesId()
    ensures Sound(Shelf()) && DistinctKeys(Moved()) && Fresh(Shelf(), Moved())
    ensures var r := Replace(Shelf(), map[], 1, Moved()).tracks;
      TRACK in Shelf().tracks && TRACK in r && r[TRACK].id != Shelf().tracks[TRACK].id
  {
    ShelfSound();
    assert Moved()[1].tracks[0].key == TRACK && At(Moved(), 1, 0) && TRACK in Shelf().tracks;
    assert AlbumKey(1, Moved()[0].group) in Shelf().albums;
    assert Shelf().albums[AlbumKey(1, Moved()[0].group)].id == Shelf().tracks[TRACK].album;
    hide Replace, Sound, DistinctKeys, Fresh, Shelf, Moved, At;
    TrackIdsStable(Shelf(), map[], 1, Moved(), 1, 0);
  }

  lemma ShelfSound()
    ensures Sound(Shelf()) && DistinctKeys(Moved()) && Fresh(Shelf(), Moved())
  {
    ShelfPrimaries();
    ShelfTracks();
    MovedKeys();
    MovedIds();
    hide OnePrimary, UniqueAlbumIds, UniqueTrackIds, NoOrphans, DistinctKeys, Fresh;
  }

  lemma ShelfPrimaries()
    ensures OnePrimary(Shelf().albums) && UniqueAlbumIds(Shelf().albums)
  {
    var albums := Shelf().albums;
    assert albums.Keys == {AlbumKey(1, "a"), AlbumKey(1, "b")};
    assert albums[AlbumKey(1, "a")].primary && albums[AlbumKey(1, "b")].primary;
  }

  lemma ShelfTracks()
    ensures NoOrphans(Shelf()) && UniqueTrackIds(Shelf().tracks)
  {
    assert Owns(Shelf().albums, AlbumKey(1, "a"), Shelf().tracks[TRACK]);
  }

  lemma MovedKeys()
    ensures DistinctKeys(Moved())
  {
    assert Moved()[0].tracks == [] && |Moved()[1].tracks| == 1;
  }

  lemma MovedIds()
    ensures Fresh(Shelf(), Moved())
  {
    assert Moved()[0].tracks == [] && |Moved()[1].tracks| == 1;
    assert forall k | k in Shelf().albums :: Shelf().albums[k].id <= 11;
    assert forall k | k in Shelf().tracks :: Shelf().tracks[k].id == 20;
    hide Shelf;
  }

  // ----- twice is once -----

  /** The same import with its own minted ids. */
  ghost predicate SameImport(p: seq<ImportAlbum>, q: seq<ImportAlbum>) {
    && |p| == |q|
    && forall j :: 0 <= j < |p| ==> SameAlbum(p[j], q[j])
  }

  ghost predicate SameAlbum(a: ImportAlbum, b: ImportAlbum) {
    && a.group == b.group && a.info == b.info && a.artists == b.artists && a.images == b.images
    && |a.tracks| == |b.tracks|
    && forall i :: 0 <= i < |a.tracks| ==> a.tracks[i].(id := 0) == b.tracks[i].(id := 0)
  }

  lemma SameRows(lib: Library, sortNames: map<Id, string>, dir: Id, p: seq<ImportAlbum>, q: seq<ImportAlbum>,
                 r: Library, again: Library, k: AlbumKey)
    requires SameImport(p, q)
    requires AlbumsReplaced(lib, sortNames, dir, p, r.albums)
    requires AlbumsReplaced(r, sortNames, dir, q, again.albums)
    ensures k in again.albums <==> k in r.albums
    ensures k in r.albums ==> again.albums[k] == r.albums[k].(primary := again.albums[k].primary)
  {
    hide ReplaceImages, LinkArtists, HasPrimary;
    assert forall j :: 0 <= j < |p| ==> SameAlbum(p[j], q[j]);
    assert Touched(dir, p, |p|, k) <==> Touched(dir, q, |q|, k) by {
      forall j | 0 <= j < |p| ensures KeyAt(dir, p, j) == KeyAt(dir, q, j) {}
    }
    if Touched(dir, p, |p|, k) {
      var j :| 0 <= j < |p| && KeyAt(dir, p, j) == k;
      assert RowReplaced(lib, sortNames, dir, p, j, r.albums);
      assert RowReplaced(r, sortNames, dir, q, j, again.albums);
      ReplaceImagesTwice(if k in lib.albums then lib.albums[k].images else map[], p[j].images);
    }
  }

  /** The second call finds every primary where the first one left it. */
  lemma SamePrimaries(before: Albums, after: Albums)
    requires OnePrimary(before) && PrimaryMoves(before, after) && after.Keys == before.Keys
    ensures forall k :: k in before ==> after[k].primary == before[k].primary
  {
  }

  lemma SameTrack(lib: Library, sortNames: map<Id, string>, dir: Id, p: seq<ImportAlbum>, q: seq<ImportAlbum>,
                  r: Library, again: Tracks, j: nat, i: nat)
    requires SameImport(p, q) && At(p, j, i)
    requires AlbumsReplaced(lib, sortNames, dir, p, r.albums) && TracksReplaced(lib, dir, p, r.tracks)
    requires UniqueAlbumIds(r.albums) && DistinctKeys(q) && Fresh(r, q)
    requires TracksReplaced(r, dir, q, again)
    ensures var k := p[j].tracks[i].key; k in r.tracks && k in again && again[k] == r.tracks[k]
  {
    hide LinkCredits, ReplaceImages, LinkArtists, HasPrimary;
    assert forall m :: 0 <= m < |p| ==> SameAlbum(p[m], q[m]);
    assert At(q, j, i) && p[j].tracks[i].(id := 0) == q[j].tracks[i].(id := 0);
    var k := p[j].tracks[i].key;
    assert r.tracks[k] == RowFor(lib, dir, p, j, i) && again[k] == RowFor(r, dir, q, j, i);
    assert RowReplaced(lib, sortNames, dir, p, j, r.albums);
    forall m | 0 <= m < j ensures IdAt(r, dir, q, m) != r.tracks[k].album {
      IdsDiffer(r, dir, q, m, j);
    }
  }

  lemma SameTracks(lib: Library, sortNames: map<Id, string>, dir: Id, p: seq<ImportAlbum>, q: seq<ImportAlbum>,
                   r: Library,
                   again: Tracks)
    requires SameImport(p, q)
    requires AlbumsReplaced(lib, sortNames, dir, p, r.albums) && TracksReplaced(lib, dir, p, r.tracks)
    requires UniqueAlbumIds(r.albums) && DistinctKeys(q) && Fresh(r, q)
    requires TracksReplaced(r, dir, q, again)
    ensures again == r.tracks
  {
    hide RowFor, Fresh, DistinctKeys, UniqueAlbumIds;
    forall k ensures k in again <==> k in r.tracks
      ensures k in again ==> again[k] == r.tracks[k]
    {
      if ImportedBelow(p, |p|, k) {
        var j: nat, i: nat :| At(p, j, i) && j < |p| && p[j].tracks[i].key == k;
        SameTrack(lib, sortNames, dir, p, q, r, again, j, i);
      } else {
        assert !ImportedBelow(q, |q|, k) by {
          forall j: nat, i: nat | At(q, j, i) ensures q[j].tracks[i].key != k {
            assert SameAlbum(p[j], q[j]) && At(p, j, i);
            assert p[j].tracks[i].(id := 0) == q[j].tracks[i].(id := 0);
          }
        }
        if k in r.tracks {
          var a :| Owns(lib.albums, a, lib.tracks[k]) && a.dir != dir;
          assert Owns(r.albums, a, r.tracks[k]);
        }
      }
    }
  }

  /** A second identical import changes nothing: no row, no id, no primary, no cover. */
  lemma ReplaceTwice(lib: Library, sortNames: map<Id, string>, dir: Id, p: seq<ImportAlbum>, q: seq<ImportAlbum>)
    requires Sound(lib) && DistinctKeys(p) && Fresh(lib, p) && OneCoverEach(p)
    requires SameImport(p, q) && DistinctKeys(q) && Fresh(Replace(lib, sortNames, dir, p), q)
    ensures Replace(Replace(lib, sortNames, dir, p), sortNames, dir, q) == Replace(lib, sortNames, dir, p)
  {
    hide Replace, DistinctKeys, Fresh, AlbumsReplaced, TracksReplaced;
    hide OneCoverEach, PrimaryMoves, SameImport, OnePrimary;
    var r := Replace(lib, sortNames, dir, p);
    var again := Replace(r, sortNames, dir, q);
    ReplaceResult(lib, sortNames, dir, p);
    SoundKept(lib, sortNames, dir, p);
    ReplaceResult(r, sortNames, dir, q);
    forall k ensures k in again.albums <==> k in r.albums
      ensures k in r.albums ==> again.albums[k] == r.albums[k].(primary := again.albums[k].primary)
    {
      SameRows(lib, sortNames, dir, p, q, r, again, k);
    }
    assert again.albums.Keys == r.albums.Keys;
    SamePrimaries(r.albums, again.albums);
    SameTracks(lib, sortNames, dir, p, q, r, again.tracks);
  }
}
