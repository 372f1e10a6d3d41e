/** What importing a list of albums does, in closed form: which track ends up
    where and under which id, however the albums of the list are ordered. */
module CatalogImport {
  import opened Basics
  import opened Catalog

  function KeyAt(dir: Id, payload: seq<ImportAlbum>, j: nat): AlbumKey
    requires j < |payload|
  {
    AlbumKey(dir, payload[j].group)
  }

  /** A known key keeps its id, a new one takes the minted id. */
  function IdAt(lib: Library, dir: Id, payload: seq<ImportAlbum>, j: nat): Id
    requires j < |payload|
  {
    if KeyAt(dir, payload, j) in lib.albums then lib.albums[KeyAt(dir, payload, j)].id else payload[j].id
  }

  /** The track belongs to an album that comes before position j in the list. */
  ghost predicate TakenBefore(lib: Library, dir: Id, payload: seq<ImportAlbum>, k: TrackKey, j: nat)
    requires j <= |payload|
  {
    k in lib.tracks && exists m :: 0 <= m < j && IdAt(lib, dir, payload, m) == lib.tracks[k].album
  }

  /** The row of an imported track: an existing track keeps its id unless its
      old album comes earlier in the list. */
  ghost function RowFor(lib: Library, dir: Id, payload: seq<ImportAlbum>, j: nat, i: nat): TrackRow
    requires At(payload, j, i)
  {
    var t := payload[j].tracks[i];
    TrackRow(if t.key in lib.tracks && !TakenBefore(lib, dir, payload, t.key, j) then lib.tracks[t.key].id else t.id,
             IdAt(lib, dir, payload, j), t.info, LinkCredits(t.credits))
  }

  ghost predicate ImportedBelow(payload: seq<ImportAlbum>, n: nat, k: TrackKey) {
    exists j: nat, i: nat :: At(payload, j, i) && j < n && payload[j].tracks[i].key == k
  }

  ghost predicate TracksAfter(lib: Library, dir: Id, payload: seq<ImportAlbum>, n: nat, tracks: Tracks)
    requires n <= |payload|
  {
    && (forall j: nat, i: nat | At(payload, j, i) && j < n ::
          payload[j].tracks[i].key in tracks &&
          tracks[payload[j].tracks[i].key] == RowFor(lib, dir, payload, j, i))
    && (forall k | !ImportedBelow(payload, n, k) ::
          && (k in tracks <==> k in lib.tracks && !TakenBefore(lib, dir, payload, k, n))
          && (k in tracks ==> tracks[k] == lib.tracks[k]))
  }

  ghost predicate Touched(dir: Id, payload: seq<ImportAlbum>, n: nat, k: AlbumKey)
    requires n <= |payload|
  {
    exists j :: 0 <= j < n && KeyAt(dir, payload, j) == k
  }

  ghost predicate AlbumDone(lib: Library, sortNames: map<Id, string>, dir: Id, payload: seq<ImportAlbum>, j: nat,
                            albums: Albums)
    requires j < |payload|
  {
    var key := KeyAt(dir, payload, j);
    key in albums && albums[key] == UpsertedAlbum(lib.albums, sortNames, key, payload[j])
  }

  ghost predicate AlbumsAfter(lib: Library, sortNames: map<Id, string>, dir: Id, payload: seq<ImportAlbum>, n: nat,
                              albums: Albums)
    requires n <= |payload|
  {
    && (forall j :: 0 <= j < n ==> AlbumDone(lib, sortNames, dir, payload, j, albums))
    && (forall k | !Touched(dir, payload, n, k) ::
          (k in albums <==> k in lib.albums) && (k in albums ==> albums[k] == lib.albums[k]))
  }

  // ----- one album -----

  ghost predicate ListedIn(ts: seq<ImportTrack>, k: TrackKey) {
    exists i :: 0 <= i < |ts| && ts[i].key == k
  }

  lemma {:induction false} UpsertTracksAt(tracks: Tracks, album: Id, ts: seq<ImportTrack>)
    requires DistinctTracks(ts)
    ensures var r := UpsertTracks(tracks, album, ts);
      && (forall i :: 0 <= i < |ts| ==> ts[i].key in r && r[ts[i].key] == UpsertedTrack(tracks, album, ts[i]))
      && (forall k | !ListedIn(ts, k) :: (k in r <==> k in tracks) && (k in r ==> r[k] == tracks[k]))
  {
    if ts != [] {
      var n := |ts| - 1;
      UpsertTracksAt(tracks, album, ts[..n]);
      var before := UpsertTracks(tracks, album, ts[..n]);
      assert !ListedIn(ts[..n], ts[n].key);
      assert forall i :: 0 <= i < n ==> ts[..n][i] == ts[i];
      forall k | !ListedIn(ts, k) ensures !ListedIn(ts[..n], k) && ts[n].key != k {}
      forall i | 0 <= i < n
        ensures ts[i].key in before && before[ts[i].key] == UpsertedTrack(tracks, album, ts[i])
      {
        assert ts[..n][i] == ts[i];
      }
    }
  }

  /** An album ends up with exactly its imported tracks. */
  lemma StepTracks(tracks: Tracks, album: Id, ts: seq<ImportTrack>)
    requires DistinctTracks(ts) && FreshTracks(tracks, ts) && UniqueTrackIds(tracks)
    ensures var up := UpsertTracks(tracks, album, ts);
      Stepped(tracks, DropStaleTracks(up, album, KeptTracks(up, ts)), album, ts)
  {
    var up := UpsertTracks(tracks, album, ts);
    UpsertTracksAt(tracks, album, ts);
    forall i | 0 <= i < |ts| ensures up[ts[i].key].id in KeptTracks(up, ts) { assert ts[i] in ts; }
    forall k | !ListedIn(ts, k) && k in tracks ensures up[k].id !in KeptTracks(up, ts) {
      forall i | 0 <= i < |ts| ensures up[ts[i].key].id != up[k].id {}
    }
  }

  // ----- the whole list -----

  /** Earlier albums of the list have other group keys, so they decide neither
      the id nor the primary flag of the next one. */
  lemma NextAlbumRow(lib: Library, sortNames: map<Id, string>, dir: Id, payload: seq<ImportAlbum>, m: nat,
                     before: Albums)
    requires m < |payload| && DistinctKeys(payload)
    requires AlbumsAfter(lib, sortNames, dir, payload, m, before)
    ensures var key := KeyAt(dir, payload, m);
      UpsertedAlbum(before, sortNames, key, payload[m]) == UpsertedAlbum(lib.albums, sortNames, key, payload[m])
  {
  }

  lemma AlbumsAfterStep(lib: Library, sortNames: map<Id, string>, dir: Id, payload: seq<ImportAlbum>, m: nat,
                        before: Albums, after: Albums)
    requires m < |payload| && DistinctKeys(payload)
    requires AlbumsAfter(lib, sortNames, dir, payload, m, before)
    requires AlbumDone(lib, sortNames, dir, payload, m, after)
    requires after == before[KeyAt(dir, payload, m) := after[KeyAt(dir, payload, m)]]
    ensures AlbumsAfter(lib, sortNames, dir, payload, m + 1, after)
  {
    var key := KeyAt(dir, payload, m);
    forall j | 0 <= j < m + 1 ensures AlbumDone(lib, sortNames, dir, payload, j, after) {
      assert j < m ==> AlbumDone(lib, sortNames, dir, payload, j, before) && KeyAt(dir, payload, j) != key;
    }
    assert Touched(dir, payload, m + 1, key);
    forall k | !Touched(dir, payload, m + 1, k) ensures !Touched(dir, payload, m, k) {}
  }

  /** Ids of tracks come from the same row or from the payload below n. */
  ghost predicate IdOrigin(lib: Library, payload: seq<ImportAlbum>, n: nat, tracks: Tracks) {
    forall k :: k in tracks ==>
      || (k in lib.tracks && tracks[k].id == lib.tracks[k].id)
      || exists j: nat, i: nat :: At(payload, j, i) && j < n && payload[j].tracks[i].key == k
           && payload[j].tracks[i].id == tracks[k].id
  }

  lemma OriginOf(lib: Library, dir: Id, payload: seq<ImportAlbum>, n: nat, tracks: Tracks)
    requires n <= |payload| && TracksAfter(lib, dir, payload, n, tracks)
    ensures IdOrigin(lib, payload, n, tracks)
  {
  }

  lemma OriginCases(lib: Library, payload: seq<ImportAlbum>, n: nat, tracks: Tracks, a: TrackKey, b: TrackKey)
    requires IdOrigin(lib, payload, n, tracks) && n <= |payload|
    requires DistinctKeys(payload) && Fresh(lib, payload) && UniqueTrackIds(lib.tracks)
    requires a in tracks && b in tracks && tracks[a].id == tracks[b].id
    ensures a == b
  {
    var oldA := a in lib.tracks && tracks[a].id == lib.tracks[a].id;
    var oldB := b in lib.tracks && tracks[b].id == lib.tracks[b].id;
    assert forall j :: 0 <= j < |payload| ==> FreshTracks(lib.tracks, payload[j].tracks);
    if !oldA && !oldB {
      var j: nat, i: nat :| At(payload, j, i)
        && payload[j].tracks[i].key == a && payload[j].tracks[i].id == tracks[a].id;
      var j': nat, i': nat :| At(payload, j', i')
        && payload[j'].tracks[i'].key == b && payload[j'].tracks[i'].id == tracks[b].id;
      assert j != j' ==> NoSharedId(payload[if j < j' then j else j'].tracks, payload[if j < j' then j' else j].tracks);
    }
  }

  lemma OriginUnique(lib: Library, payload: seq<ImportAlbum>, n: nat, tracks: Tracks)
    requires IdOrigin(lib, payload, n, tracks) && n <= |payload|
    requires DistinctKeys(payload) && Fresh(lib, payload) && UniqueTrackIds(lib.tracks)
    ensures UniqueTrackIds(tracks)
    ensures n < |payload| ==> FreshTracks(tracks, payload[n].tracks) && DistinctTracks(payload[n].tracks)
  {
    forall j, k | j in tracks && k in tracks && tracks[j].id == tracks[k].id ensures j == k {
      OriginCases(lib, payload, n, tracks, j, k);
    }
    if n < |payload| {
      forall i, k | 0 <= i < |payload[n].tracks| && k in tracks ensures tracks[k].id != payload[n].tracks[i].id {
        assert FreshTracks(lib.tracks, payload[n].tracks);
        if !(k in lib.tracks && tracks[k].id == lib.tracks[k].id) {
          var j: nat, i': nat :| At(payload, j, i') && j < n && payload[j].tracks[i'].id == tracks[k].id;
          assert NoSharedId(payload[j].tracks, payload[n].tracks);
        }
      }
    }
  }

  /** What StepTracks says about one album. */
  ghost predicate Stepped(before: Tracks, after: Tracks, album: Id, ts: seq<ImportTrack>) {
    && (forall i :: 0 <= i < |ts| ==> ts[i].key in after && after[ts[i].key] == UpsertedTrack(before, album, ts[i]))
    && (forall k | !ListedIn(ts, k) ::
          (k in after <==> k in before && before[k].album != album) && (k in after ==> after[k] == before[k]))
  }

  lemma NextImported(lib: Library, dir: Id, payload: seq<ImportAlbum>, m: nat, before: Tracks, after: Tracks, j: nat,
                     i: nat)
    requires m < |payload| && DistinctKeys(payload) && At(payload, j, i) && j <= m
    requires TracksAfter(lib, dir, payload, m, before)
    requires Stepped(before, after, IdAt(lib, dir, payload, m), payload[m].tracks)
    requires j < m ==> IdAt(lib, dir, payload, j) != IdAt(lib, dir, payload, m)
    ensures payload[j].tracks[i].key in after
    ensures after[payload[j].tracks[i].key] == RowFor(lib, dir, payload, j, i)
  {
  }

  lemma NextUntouched(lib: Library, dir: Id, payload: seq<ImportAlbum>, m: nat, before: Tracks, after: Tracks,
                      k: TrackKey)
    requires m < |payload| && !ImportedBelow(payload, m + 1, k)
    requires TracksAfter(lib, dir, payload, m, before)
    requires Stepped(before, after, IdAt(lib, dir, payload, m), payload[m].tracks)
    ensures k in after <==> k in lib.tracks && !TakenBefore(lib, dir, payload, k, m + 1)
    ensures k in after ==> after[k] == lib.tracks[k]
  {
  }

  /** One more album: from TracksAfter(m) to TracksAfter(m + 1). */
  lemma TracksAfterStep(lib: Library, dir: Id, payload: seq<ImportAlbum>, m: nat, before: Tracks, after: Tracks)
    requires m < |payload| && DistinctKeys(payload)
    requires TracksAfter(lib, dir, payload, m, before)
    requires Stepped(before, after, IdAt(lib, dir, payload, m), payload[m].tracks)
    requires forall j :: 0 <= j < m ==> IdAt(lib, dir, payload, j) != IdAt(lib, dir, payload, m)
    ensures TracksAfter(lib, dir, payload, m + 1, after)
  {
    forall j: nat, i: nat | At(payload, j, i) && j < m + 1
      ensures payload[j].tracks[i].key in after
      ensures after[payload[j].tracks[i].key] == RowFor(lib, dir, payload, j, i)
    {
      NextImported(lib, dir, payload, m, before, after, j, i);
    }
    forall k | !ImportedBelow(payload, m + 1, k)
      ensures k in after <==> k in lib.tracks && !TakenBefore(lib, dir, payload, k, m + 1)
      ensures k in after ==> after[k] == lib.tracks[k]
    {
      NextUntouched(lib, dir, payload, m, before, after, k);
    }
  }

  lemma IdsDiffer(lib: Library, dir: Id, payload: seq<ImportAlbum>, j: nat, m: nat)
    requires j < |payload| && m < |payload| && j != m
    requires DistinctKeys(payload) && Fresh(lib, payload) && UniqueAlbumIds(lib.albums)
    ensures IdAt(lib, dir, payload, j) != IdAt(lib, dir, payload, m)
  {
  }

  /** Albums and tracks after the first n albums of the list. */
  ghost predicate After(lib: Library, sortNames: map<Id, string>, dir: Id, payload: seq<ImportAlbum>, n: nat,
                        r: Library)
    requires n <= |payload|
  {
    AlbumsAfter(lib, sortNames, dir, payload, n, r.albums) && TracksAfter(lib, dir, payload, n, r.tracks)
  }

  lemma AfterNothing(lib: Library, sortNames: map<Id, string>, dir: Id, payload: seq<ImportAlbum>)
    ensures After(lib, sortNames, dir, payload, 0, lib)
  {
  }

  lemma AfterStep(lib: Library, sortNames: map<Id, string>, dir: Id, payload: seq<ImportAlbum>, m: nat, before: Library)
    requires m < |payload| && DistinctKeys(payload) && Fresh(lib, payload)
    requires UniqueTrackIds(lib.tracks) && UniqueAlbumIds(lib.albums)
    requires After(lib, sortNames, dir, payload, m, before)
    ensures After(lib, sortNames, dir, payload, m + 1, ImportStep(before, sortNames, dir, payload[m]))
  {
    var after := ImportStep(before, sortNames, dir, payload[m]);
    NextAlbumRow(lib, sortNames, dir, payload, m, before.albums);
    AlbumsAfterStep(lib, sortNames, dir, payload, m, before.albums, after.albums);
    OriginOf(lib, dir, payload, m, before.tracks);
    OriginUnique(lib, payload, m, before.tracks);
    StepTracks(before.tracks, IdAt(lib, dir, payload, m), payload[m].tracks);
    forall j | 0 <= j < m ensures IdAt(lib, dir, payload, j) != IdAt(lib, dir, payload, m) {
      IdsDiffer(lib, dir, payload, j, m);
    }
    TracksAfterStep(lib, dir, payload, m, before.tracks, after.tracks);
  }

  lemma {:induction false} ImportAllAfter(lib: Library, sortNames: map<Id, string>, dir: Id, payload: seq<ImportAlbum>,
                                          n: nat)
    requires n <= |payload| && DistinctKeys(payload) && Fresh(lib, payload)
    requires UniqueTrackIds(lib.tracks) && UniqueAlbumIds(lib.albums)
    ensures After(lib, sortNames, dir, payload, n, ImportAll(lib, sortNames, dir, payload, n))
    decreases n
  {
    hide ImportStep, AlbumsAfter, TracksAfter, DistinctKeys, Fresh;
    if n == 0 {
      AfterNothing(lib, sortNames, dir, payload);
    } else {
      ImportAllAfter(lib, sortNames, dir, payload, n - 1);
      AfterStep(lib, sortNames, dir, payload, n - 1, ImportAll(lib, sortNames, dir, payload, n - 1));
    }
  }
}
