/** The catalog after one import, field by field, for every sound catalog and every
    payload with distinct keys. */
module CatalogOutcome {
  import opened Basics
  import opened Catalog
  import opened CatalogFields
  import opened CatalogImport
  import opened CatalogReplace

  /** The row of an imported album. */
  ghost predicate AlbumImported(lib: Library, sortNames: map<Id, string>, key: AlbumKey, al: ImportAlbum,
                                row: AlbumRow) {
    && row.id == (if key in lib.albums then lib.albums[key].id else al.id)
    && row.info == al.info
    && (al.artists != [] && al.artists[0].artist in sortNames ==> row.artistSort == sortNames[al.artists[0].artist])
    && (al.artists == [] || al.artists[0].artist !in sortNames ==> row.artistSort == "")
    && LinksFirsts(al.artists, row.artists)
    && ImagesReplaced(if key in lib.albums then lib.albums[key].images else map[], al.images, row.images)
  }

  /** The dir's albums are the imported ones; of other dirs' albums only the primary flag
      may change. */
  ghost predicate AlbumsFollow(lib: Library, sortNames: map<Id, string>, dir: Id, payload: seq<ImportAlbum>,
                               albums: Albums) {
    && (forall j: nat | j < |payload| ::
          && AlbumKey(dir, payload[j].group) in albums
          && AlbumImported(lib, sortNames, AlbumKey(dir, payload[j].group), payload[j],
                           albums[AlbumKey(dir, payload[j].group)]))
    && (forall k | k in albums && k.dir == dir :: exists j :: 0 <= j < |payload| && payload[j].group == k.group)
    && (forall k: AlbumKey | k.dir != dir ::
          && (k in albums <==> k in lib.albums)
          && (k in albums ==> albums[k] == lib.albums[k].(primary := albums[k].primary)))
  }

  /** The track's old album comes earlier in the list. */
  ghost predicate MovesDown(lib: Library, dir: Id, payload: seq<ImportAlbum>, j: nat, old': TrackRow)
    requires j <= |payload|
  {
    exists m :: 0 <= m < j && AlbumKey(dir, payload[m].group) in lib.albums
      && lib.albums[AlbumKey(dir, payload[m].group)].id == old'.album
  }

  ghost predicate TrackImported(lib: Library, dir: Id, payload: seq<ImportAlbum>, albums: Albums, j: nat, i: nat,
                                row: TrackRow)
    requires At(payload, j, i)
  {
    var t, key := payload[j].tracks[i], AlbumKey(dir, payload[j].group);
    && key in albums && row.album == albums[key].id
    && row.info == t.info && KeepsFirsts(t.credits, row.credits)
    && row.id == if t.key in lib.tracks && !MovesDown(lib, dir, payload, j, lib.tracks[t.key])
                 then lib.tracks[t.key].id else t.id
  }

  /** Imported tracks are under the album that lists them; of the others exactly those of
      other dirs' albums are left, as they were. */
  ghost predicate TracksFollow(lib: Library, dir: Id, payload: seq<ImportAlbum>, r: Library) {
    && (forall j: nat, i: nat | At(payload, j, i) ::
          && payload[j].tracks[i].key in r.tracks
          && TrackImported(lib, dir, payload, r.albums, j, i, r.tracks[payload[j].tracks[i].key]))
    && (forall k | !(exists j: nat, i: nat :: At(payload, j, i) && payload[j].tracks[i].key == k) ::
          && (k in r.tracks <==>
                && k in lib.tracks
                && exists a :: a in lib.albums && lib.albums[a].id == lib.tracks[k].album && a.dir != dir)
          && (k in r.tracks ==> r.tracks[k] == lib.tracks[k]))
  }

  ghost predicate Leads(albums: Albums, group: string, p: AlbumKey) {
    p in albums && p.group == group && albums[p].primary
  }

  ghost predicate SmallestId(albums: Albums, group: string, p: AlbumKey) {
    p in albums && forall a | a in albums && a.group == group :: albums[p].id <= albums[a].id
  }

  /** Every group has exactly one primary. One that is still there keeps the flag; where
      it is gone, the smallest id of the group has it. */
  ghost predicate PrimariesFollow(before: Albums, after: Albums) {
    && (forall k | k in after :: exists p :: Leads(after, k.group, p))
    && (forall g, p, q | Leads(after, g, p) && Leads(after, g, q) :: p == q)
    && (forall g, p | Leads(before, g, p) && p in after :: Leads(after, g, p))
    && (forall g, p | Leads(after, g, p) && !Leads(before, g, p) ::
          && SmallestId(after, g, p)
          && (forall q | Leads(before, g, q) :: q !in after))
  }

  lemma ReplaceFields(lib: Library, sortNames: map<Id, string>, dir: Id, payload: seq<ImportAlbum>)
    requires Sound(lib) && DistinctKeys(payload) && Fresh(lib, payload)
    ensures var r := Replace(lib, sortNames, dir, payload);
      && AlbumsFollow(lib, sortNames, dir, payload, r.albums) && TracksFollow(lib, dir, payload, r)
      && PrimariesFollow(lib.albums, r.albums)
  {
    hide Replace, DistinctKeys, AlbumsFollow, TracksFollow, PrimariesFollow;
    var r := Replace(lib, sortNames, dir, payload);
    ReplaceResult(lib, sortNames, dir, payload);
    AlbumFields(lib, sortNames, dir, payload, r.albums);
    TrackFields(lib, sortNames, dir, payload, r);
    PrimaryFields(lib.albums, r.albums);
  }

  lemma AlbumFields(lib: Library, sortNames: map<Id, string>, dir: Id, payload: seq<ImportAlbum>, r: Albums)
    requires AlbumsReplaced(lib, sortNames, dir, payload, r)
    ensures AlbumsFollow(lib, sortNames, dir, payload, r)
  {
    hide LinksFirsts, ImagesReplaced, LinkArtists, ReplaceImages, HasPrimary;
    forall j: nat | j < |payload|
      ensures var key := AlbumKey(dir, payload[j].group);
        key in r && AlbumImported(lib, sortNames, key, payload[j], r[key])
    {
      assert RowReplaced(lib, sortNames, dir, payload, j, r);
      LinkArtistsFields(payload[j].artists);
      var key := AlbumKey(dir, payload[j].group);
      ReplaceImagesFields(if key in lib.albums then lib.albums[key].images else map[], payload[j].images);
    }
    forall k | k in r && k.dir == dir ensures exists j :: 0 <= j < |payload| && payload[j].group == k.group {
      var j :| 0 <= j < |payload| && KeyAt(dir, payload, j) == k;
      assert payload[j].group == k.group;
    }
  }

  lemma TrackFields(lib: Library, sortNames: map<Id, string>, dir: Id, payload: seq<ImportAlbum>, r: Library)
    requires AlbumsReplaced(lib, sortNames, dir, payload, r.albums) && TracksReplaced(lib, dir, payload, r.tracks)
    requires NoOrphans(lib) && Fresh(lib, payload)
    ensures TracksFollow(lib, dir, payload, r)
  {
    hide LinkCredits, KeepsFirsts, LinkArtists, ReplaceImages, HasPrimary;
    forall j: nat, i: nat | At(payload, j, i)
      ensures payload[j].tracks[i].key in r.tracks
      ensures TrackImported(lib, dir, payload, r.albums, j, i, r.tracks[payload[j].tracks[i].key])
    {
      LinkCreditsFields(payload[j].tracks[i].credits);
      assert RowReplaced(lib, sortNames, dir, payload, j, r.albums);
      if payload[j].tracks[i].key in lib.tracks { TakenIsMoved(lib, dir, payload, payload[j].tracks[i].key, j); }
      hide TakenBefore, MovesDown;
    }
    forall k
      ensures ImportedBelow(payload, |payload|, k) <==>
        exists j: nat, i: nat :: At(payload, j, i) && payload[j].tracks[i].key == k
    {
    }
  }

  /** The minted ids are nobody's album. */
  lemma TakenIsMoved(lib: Library, dir: Id, payload: seq<ImportAlbum>, k: TrackKey, j: nat)
    requires NoOrphans(lib) && Fresh(lib, payload) && k in lib.tracks && j <= |payload|
    ensures TakenBefore(lib, dir, payload, k, j) <==> MovesDown(lib, dir, payload, j, lib.tracks[k])
  {
    var a :| Owns(lib.albums, a, lib.tracks[k]);
    forall m: nat | m < j && KeyAt(dir, payload, m) !in lib.albums ensures payload[m].id != lib.tracks[k].album {}
    if MovesDown(lib, dir, payload, j, lib.tracks[k]) {
      var m :| 0 <= m < j && AlbumKey(dir, payload[m].group) in lib.albums
        && lib.albums[AlbumKey(dir, payload[m].group)].id == lib.tracks[k].album;
      assert IdAt(lib, dir, payload, m) == lib.tracks[k].album;
    }
  }

  lemma PrimaryFields(before: Albums, after: Albums)
    requires OnePrimary(after) && PrimaryMoves(before, after)
    ensures PrimariesFollow(before, after)
  {
    forall k | k in after ensures exists p :: Leads(after, k.group, p) {
      assert HasPrimary(after, k.group);
      var p :| p in after && p.group == k.group && after[p].primary;
      assert Leads(after, k.group, p);
    }
    hide HasPrimary;
  }
}
