/** Albums of one import that share a group key: they are one row, and each later
    one takes the tracks of the earlier ones away. */
module CatalogOverwrite {
  import opened Basics
  import opened Catalog
  import opened CatalogImport

  /** Distinct (file, offset) keys; group keys may repeat. */
  ghost predicate DistinctFiles(payload: seq<ImportAlbum>) {
    && (forall j :: 0 <= j < |payload| ==> DistinctTracks(payload[j].tracks))
    && forall i, j :: 0 <= i < j < |payload| ==> NoSharedKey(payload[i].tracks, payload[j].tracks)
  }

  /** No album among positions m + 1 to n - 1 has the group key of album m. */
  ghost predicate LastOfGroup(payload: seq<ImportAlbum>, m: nat, n: nat)
    requires m < n <= |payload|
  {
    forall j | m < j < n :: payload[j].group != payload[m].group
  }

  /** Ids are unique, and the ids minted for the albums from n on are unused. */
  ghost predicate Ready(lib: Library, payload: seq<ImportAlbum>, n: nat) {
    && UniqueAlbumIds(lib.albums) && UniqueTrackIds(lib.tracks)
    && (forall j, k | n <= j < |payload| && k in lib.albums :: lib.albums[k].id != payload[j].id)
    && forall j | n <= j < |payload| :: FreshTracks(lib.tracks, payload[j].tracks)
  }

  /** The tracks of album m so far: all there, under the row of its key, or all gone. */
  ghost predicate TracksStand(lib: Library, dir: Id, payload: seq<ImportAlbum>, m: nat, n: nat)
    requires m < n <= |payload|
  {
    && KeyAt(dir, payload, m) in lib.albums
    && forall i | 0 <= i < |payload[m].tracks| ::
         var k := payload[m].tracks[i].key;
         && (k in lib.tracks <==> LastOfGroup(payload, m, n))
         && (k in lib.tracks ==> lib.tracks[k].album == lib.albums[KeyAt(dir, payload, m)].id)
  }

  ghost predicate MintedApart(payload: seq<ImportAlbum>) {
    && (forall i, j :: 0 <= i < j < |payload| ==> payload[i].id != payload[j].id)
    && forall i, j :: 0 <= i < j < |payload| ==> NoSharedId(payload[i].tracks, payload[j].tracks)
  }

  /** What one step does to ids and tracks, whatever its album's key. */
  lemma StepShape(lib: Library, sortNames: map<Id, string>, dir: Id, payload: seq<ImportAlbum>, n: nat)
    requires n < |payload| && DistinctFiles(payload) && Ready(lib, payload, n)
    ensures var next, key := ImportStep(lib, sortNames, dir, payload[n]), KeyAt(dir, payload, n);
      && key in next.albums && next.albums.Keys == lib.albums.Keys + {key}
      && (forall k | k in lib.albums :: next.albums[k].id == lib.albums[k].id)
      && (key !in lib.albums ==> next.albums[key].id == payload[n].id)
      && UniqueAlbumIds(next.albums)
      && Stepped(lib.tracks, next.tracks, next.albums[key].id, payload[n].tracks)
  {
    var key := KeyAt(dir, payload, n);
    StepTracks(lib.tracks, UpsertedAlbum(lib.albums, sortNames, key, payload[n]).id, payload[n].tracks);
    hide LinkArtists, ReplaceImages, HasPrimary, Stepped, UpsertTracks, DropStaleTracks, KeptTracks;
  }

  lemma ReadyStep(lib: Library, sortNames: map<Id, string>, dir: Id, payload: seq<ImportAlbum>, n: nat)
    requires n < |payload| && DistinctFiles(payload) && MintedApart(payload) && Ready(lib, payload, n)
    ensures Ready(ImportStep(lib, sortNames, dir, payload[n]), payload, n + 1)
  {
    var next := ImportStep(lib, sortNames, dir, payload[n]);
    StepShape(lib, sortNames, dir, payload, n);
    hide ImportStep;
    forall k | k in next.tracks
      ensures (k in lib.tracks && next.tracks[k].id == lib.tracks[k].id) ||
        MintedHere(payload[n].tracks, k, next.tracks[k].id)
    {
      if ListedIn(payload[n].tracks, k) {
        var i :| 0 <= i < |payload[n].tracks| && payload[n].tracks[i].key == k;
        var album := next.albums[KeyAt(dir, payload, n)].id;
        assert next.tracks[k] == UpsertedTrack(lib.tracks, album, payload[n].tracks[i]);
      }
    }
    hide Stepped, UpsertedTrack;
    UniqueTracksNext(lib.tracks, next.tracks, payload[n].tracks);
    forall j | n < j < |payload| ensures FreshTracks(next.tracks, payload[j].tracks) {
      FreshNext(lib.tracks, next.tracks, payload[n].tracks, payload[j].tracks);
    }
  }

  /** The row of k took the id minted for it. */
  ghost predicate MintedHere(ts: seq<ImportTrack>, k: TrackKey, id: Id) {
    exists i :: 0 <= i < |ts| && ts[i].key == k && ts[i].id == id
  }

  ghost predicate IdsFrom(before: Tracks, after: Tracks, ts: seq<ImportTrack>) {
    forall k | k in after :: (k in before && after[k].id == before[k].id) || MintedHere(ts, k, after[k].id)
  }

  lemma UniqueTracksNext(before: Tracks, after: Tracks, ts: seq<ImportTrack>)
    requires UniqueTrackIds(before) && FreshTracks(before, ts) && IdsFrom(before, after, ts)
    ensures UniqueTrackIds(after)
  {
  }

  lemma FreshNext(before: Tracks, after: Tracks, ts: seq<ImportTrack>, us: seq<ImportTrack>)
    requires FreshTracks(before, us) && NoSharedId(ts, us) && IdsFrom(before, after, ts)
    ensures FreshTracks(after, us)
  {
  }

  /** Album m's tracks stay exactly if the next album has another key. */
  lemma StandStep(lib: Library, sortNames: map<Id, string>, dir: Id, payload: seq<ImportAlbum>, n: nat, m: nat)
    requires n < |payload| && DistinctFiles(payload) && Ready(lib, payload, n) && m <= n
    requires m < n ==> TracksStand(lib, dir, payload, m, n)
    ensures TracksStand(ImportStep(lib, sortNames, dir, payload[n]), dir, payload, m, n + 1)
  {
    var next := ImportStep(lib, sortNames, dir, payload[n]);
    StepShape(lib, sortNames, dir, payload, n);
    hide ImportStep, LinkCredits;
    if m < n {
      assert LastOfGroup(payload, m, n + 1) <==> LastOfGroup(payload, m, n) && payload[n].group != payload[m].group;
      forall i | 0 <= i < |payload[m].tracks| ensures !ListedIn(payload[n].tracks, payload[m].tracks[i].key) {
        assert NoSharedKey(payload[m].tracks, payload[n].tracks);
      }
    }
  }

  lemma {:induction false} AllStand(lib: Library, sortNames: map<Id, string>, dir: Id, payload: seq<ImportAlbum>,
                                    n: nat)
    requires n <= |payload| && DistinctFiles(payload) && MintedApart(payload) && Ready(lib, payload, 0)
    ensures var imported := ImportAll(lib, sortNames, dir, payload, n);
      Ready(imported, payload, n) && forall m | 0 <= m < n :: TracksStand(imported, dir, payload, m, n)
  {
    hide Ready, TracksStand, DistinctFiles, MintedApart, ImportStep;
    if n > 0 {
      AllStand(lib, sortNames, dir, payload, n - 1);
      var before := ImportAll(lib, sortNames, dir, payload, n - 1);
      ReadyStep(before, sortNames, dir, payload, n - 1);
      forall m | 0 <= m < n ensures TracksStand(ImportAll(lib, sortNames, dir, payload, n), dir, payload, m, n) {
        StandStep(before, sortNames, dir, payload, n - 1, m);
      }
    }
  }

  /** An imported track is in the catalog afterwards if and only if no later album
      of the list has its album's group key. */
  lemma ImportedTrackStaysIff(lib: Library, sortNames: map<Id, string>, dir: Id, payload: seq<ImportAlbum>, m: nat,
                              i: nat)
    requires UniqueAlbumIds(lib.albums) && UniqueTrackIds(lib.tracks) && Fresh(lib, payload) && DistinctFiles(payload)
    requires At(payload, m, i)
    ensures payload[m].tracks[i].key in Replace(lib, sortNames, dir, payload).tracks
      <==> forall j | m < j < |payload| :: payload[j].group != payload[m].group
  {
    var n := |payload|;
    var imported := ImportAll(lib, sortNames, dir, payload, n);
    AllStand(lib, sortNames, dir, payload, n);
    assert TracksStand(imported, dir, payload, m, n);
    var k, row := payload[m].tracks[i].key, imported.albums[KeyAt(dir, payload, m)];
    assert payload[m] in payload && row.id in KeptAlbums(imported.albums, dir, payload);
    hide ImportAll, TracksStand, Fresh, DistinctFiles;
  }

  const INFO := AlbumInfo("", "", "", "", "", false, false, false, "")
  const TRACK_INFO := TrackInfo(1, "", 1, "", "", "", "flac", 44100, 16, 2, 0, 0)

  /** Two albums with one group key and a track each. */
  function SameGroup(): seq<ImportAlbum> {
    [ImportAlbum(1, "g", INFO, [], [], [ImportTrack(3, TrackKey(5, 0), TRACK_INFO, [])]),
     ImportAlbum(2, "g", INFO, [], [], [ImportTrack(4, TrackKey(6, 0), TRACK_INFO, [])])]
  }

  /** Into an empty catalog: the first album's track is not there afterwards. */
  lemma FirstAlbumOverwritten()
    ensures var r := Replace(Library(map[], map[]), map[], 9, SameGroup()).tracks;
      TrackKey(5, 0) !in r && TrackKey(6, 0) in r
  {
    var none := Library(map[], map[]);
    SameGroupFresh();
    assert SameGroup()[1].group == SameGroup()[0].group;
    assert SameGroup()[0].tracks[0].key == TrackKey(5, 0) && SameGroup()[1].tracks[0].key == TrackKey(6, 0);
    hide Replace, DistinctFiles, Fresh;
    ImportedTrackStaysIff(none, map[], 9, SameGroup(), 0, 0);
    ImportedTrackStaysIff(none, map[], 9, SameGroup(), 1, 0);
  }

  lemma SameGroupFresh()
    ensures DistinctFiles(SameGroup()) && Fresh(Library(map[], map[]), SameGroup())
  {
    assert |SameGroup()[0].tracks| == |SameGroup()[1].tracks| == 1;
  }
}
