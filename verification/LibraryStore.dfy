/** The catalog's write surface: the statements of one import transaction, run
    in order over the tables. The transaction commits as a whole, so a failed
    statement leaves nothing behind and is not modelled. */
module LibraryStore {
  import opened Basics
  import opened Catalog
  import opened CatalogFields
  import opened CatalogOutcome
  import opened CatalogRuns

  function IdSet(ids: seq<Id>): set<Id> {
    set x | x in ids
  }

  /** The ids that the albums of the list have. */
  ghost predicate IdsOf(kept: seq<Id>, albums: Albums, dir: Id, payload: seq<ImportAlbum>) {
    && |kept| == |payload|
    && forall j :: 0 <= j < |payload| ==>
         AlbumKey(dir, payload[j].group) in albums && kept[j] == albums[AlbumKey(dir, payload[j].group)].id
  }

  lemma IdsOfPayload(kept: seq<Id>, albums: Albums, dir: Id, payload: seq<ImportAlbum>)
    requires IdsOf(kept, albums, dir, payload)
    ensures IdSet(kept) == KeptAlbums(albums, dir, payload)
  {
  }

  /** An update never changes an album's id. */
  lemma StepKeepsIds(lib: Library, sortNames: map<Id, string>, dir: Id, al: ImportAlbum)
    ensures var r := ImportStep(lib, sortNames, dir, al).albums;
      && AlbumKey(dir, al.group) in r
      && forall k :: k in lib.albums ==> k in r && r[k].id == lib.albums[k].id
  {
  }

  class LibraryStore {
    var sortNames: map<Id, string>   // artists.sort_name by artist
    var albums: Albums
    var tracks: Tracks

    constructor ()
      ensures View() == Library(map[], map[]) && sortNames == map[]
    {
      sortNames, albums, tracks := map[], map[], map[];
    }

    function View(): Library
      reads this
    {
      Library(albums, tracks)
    }

    /** Inserts the album, or updates it in place under its id; the primary flag
        is chosen only on insert. */
    method UpsertAlbum(key: AlbumKey, al: ImportAlbum) returns (id: Id)
      modifies `albums
      ensures var sort := SortName(sortNames, al.artists);
        albums == old(albums)[key :=
          if key in old(albums) then old(albums)[key].(info := al.info, artistSort := sort)
          else AlbumRow(al.id, al.info, sort, !HasPrimary(old(albums), key.group), [], map[])]
      ensures id == albums[key].id && albums[key].info == al.info
      ensures albums[key].artistSort ==
        if |al.artists| > 0 && al.artists[0].artist in sortNames then sortNames[al.artists[0].artist] else ""
      ensures key !in old(albums) ==> (albums[key].primary <==>
        forall k :: k in old(albums) && k.group == key.group ==> !old(albums)[k].primary)
    {
      var hasPrimary := HasPrimary(albums, key.group);
      var sort := "";
      if |al.artists| > 0 && al.artists[0].artist in sortNames {
        sort := sortNames[al.artists[0].artist];
      }
      if key in albums {
        albums := albums[key := albums[key].(info := al.info, artistSort := sort)];
      } else {
        albums := albums[key := AlbumRow(al.id, al.info, sort, !hasPrimary, [], map[])];
      }
      id := albums[key].id;
    }

    /** Clears the album's artists and inserts the credited ones, first credit wins. */
    method ReplaceAlbumArtists(key: AlbumKey, artists: seq<AlbumArtist>)
      requires key in albums
      modifies `albums
      ensures albums == old(albums)[key := old(albums)[key].(artists := LinkArtists(artists))]
      ensures LinksFirsts(artists, albums[key].artists)
    {
      var links: seq<ArtistLink> := [];
      for i := 0 to |artists|
        invariant links == LinkArtists(artists[..i])
      {
        assert artists[..i + 1][..i] == artists[..i];
        if !exists l :: l in links && l.artist == artists[i].artist {
          links := links + [ArtistLink(artists[i].artist, artists[i].creditedName, i)];
        }
      }
      assert artists[..|artists|] == artists;
      LinkArtistsFields(artists);
      albums := albums[key := albums[key].(artists := links)];
    }

    /** Deletes stale links, then upserts the payload; a cover is taken from the
        payload only when none survived the delete. */
    method ReplaceAlbumImages(key: AlbumKey, images: seq<AlbumImage>)
      requires key in albums && CoverChoice(images)
      modifies `albums
      ensures albums == old(albums)[key := old(albums)[key].(images := ReplaceImages(old(albums)[key].images, images))]
      ensures ImagesReplaced(old(albums)[key].images, images, albums[key].images)
    {
      hide ImagesReplaced;
      var ids := [];
      for i := 0 to |images|
        invariant forall x :: x in ids <==> exists j :: 0 <= j < i && images[j].image == x
      {
        ids := ids + [images[i].image];
      }
      var old' := albums[key].images;
      var links := map i | i in old' && i in ids :: old'[i];
      assert links == KeepImages(old', images);
      ghost var kept := links;
      var hasCover := HasCover(links);
      for i := 0 to |images|
        invariant links == UpsertImages(kept, images[..i], hasCover)
      {
        assert images[..i + 1][..i] == images[..i];
        var img := images[i];
        if img.image in links {
          links := links[img.image := links[img.image].(kind := img.kind)];
        } else {
          links := links[img.image := ImageLink(img.kind, img.setCover && !hasCover)];
        }
      }
      assert images[..|images|] == images;
      ReplaceImagesFields(old', images);
      albums := albums[key := albums[key].(images := links)];
    }

    /** Inserts the track, or adopts the row with the same file and offset. */
    method UpsertTrack(album: Id, t: ImportTrack) returns (id: Id)
      modifies `tracks
      ensures tracks == old(tracks)[t.key :=
        if t.key in old(tracks) then old(tracks)[t.key].(album := album, info := t.info)
        else TrackRow(t.id, album, t.info, [])]
      ensures id == tracks[t.key].id
    {
      if t.key in tracks {
        tracks := tracks[t.key := tracks[t.key].(album := album, info := t.info)];
      } else {
        tracks := tracks[t.key := TrackRow(t.id, album, t.info, [])];
      }
      id := tracks[t.key].id;
    }

    method ReplaceTrackCredits(key: TrackKey, credits: seq<Credit>)
      requires key in tracks
      modifies `tracks
      ensures tracks == old(tracks)[key := old(tracks)[key].(credits := LinkCredits(credits))]
      ensures KeepsFirsts(credits, tracks[key].credits)
    {
      var links: seq<Credit> := [];
      for i := 0 to |credits|
        invariant links == LinkCredits(credits[..i])
      {
        assert credits[..i + 1][..i] == credits[..i];
        if !exists l :: l in links && l.artist == credits[i].artist && l.role == credits[i].role {
          links := links + [credits[i]];
        }
      }
      assert credits[..|credits|] == credits;
      LinkCreditsFields(credits);
      tracks := tracks[key := tracks[key].(credits := links)];
    }

    /** One track: its row and its credits. */
    method ImportTrack(album: Id, t: ImportTrack) returns (id: Id)
      modifies `tracks
      ensures tracks == old(tracks)[t.key := UpsertedTrack(old(tracks), album, t)]
      ensures id == tracks[t.key].id
    {
      id := UpsertTrack(album, t);
      ReplaceTrackCredits(t.key, t.credits);
    }

    /** Upserts one album's tracks and deletes its other tracks. */
    method ImportTracks(album: Id, ts: seq<ImportTrack>)
      modifies `tracks
      ensures var up := UpsertTracks(old(tracks), album, ts);
        tracks == DropStaleTracks(up, album, KeptTracks(up, ts))
    {
      hide UpsertedTrack;
      var kept: seq<Id> := [];
      ghost var before := tracks;
      for i := 0 to |ts|
        invariant tracks == UpsertTracks(before, album, ts[..i])
        invariant KeptOf(kept, tracks, ts[..i])
      {
        assert ts[..i + 1][..i] == ts[..i];
        ghost var now := tracks;
        var id := ImportTrack(album, ts[i]);
        KeptNext(kept, now, tracks, ts, i, album);
        kept := kept + [id];
      }
      assert ts[..|ts|] == ts;
      KeptAre(kept, tracks, ts);
      tracks := map k | k in tracks && !(tracks[k].album == album && tracks[k].id !in kept) :: tracks[k];
    }

    method DirPrimaryGroups(dir: Id) returns (groups: set<string>)
      ensures groups == PrimaryGroups(albums, dir)
    {
      groups := {};
      var rows := albums.Keys;
      while rows != {}
        invariant rows <= albums.Keys
        invariant groups == set k | k in albums.Keys - rows && k.dir == dir && albums[k].primary :: k.group
        decreases rows
      {
        var k :| k in rows;
        rows := rows - {k};
        if k.dir == dir && albums[k].primary { groups := groups + {k.group}; }
      }
    }

    /** Deletes the dir's albums that were not kept, and their tracks with them. */
    method DeleteStaleAlbums(dir: Id, kept: seq<Id>)
      modifies `albums, `tracks
      ensures View() == DropAlbums(old(View()), StaleAlbums(old(albums), dir, IdSet(kept)))
    {
      var stale := set k | k in albums && k.dir == dir && albums[k].id !in kept;
      var gone := set k | k in stale :: albums[k].id;
      assert stale == StaleAlbums(albums, dir, IdSet(kept));
      assert gone == set k | k in stale && k in albums :: albums[k].id;
      albums := albums - stale;
      tracks := map k | k in tracks && tracks[k].album !in gone :: tracks[k];
    }

    /** Promotes group by group, in any order. */
    method PromoteOrphanedPrimaries(groups: set<string>)
      modifies `albums
      ensures albums == Promote(old(albums), groups)
    {
      var todo := groups;
      ghost var before := albums;
      assert Promote(before, {}) == before;
      while todo != {}
        invariant todo <= groups
        invariant albums == Promote(before, groups - todo)
        decreases todo
      {
        var group :| group in todo;
        ghost var done := groups - todo;
        PromoteKeepsOthers(before, done, group);
        albums := Promote(albums, {group});
        todo := todo - {group};
        assert groups - todo == done + {group};
      }
      assert groups - todo == groups;
    }

    /** One album of the payload: its row, its links, its tracks. */
    method ImportAlbum(dir: Id, al: ImportAlbum) returns (id: Id)
      requires CoverChoice(al.images)
      modifies `albums, `tracks
      ensures View() == ImportStep(old(View()), sortNames, dir, al)
      ensures id == albums[AlbumKey(dir, al.group)].id
    {
      hide UpsertTracks, KeptTracks, DropStaleTracks, HasPrimary, ReplaceImages, LinkArtists, CoverChoice;
      var key := AlbumKey(dir, al.group);
      ghost var now := albums;
      id := UpsertAlbum(key, al);
      ReplaceAlbumArtists(key, al.artists);
      ReplaceAlbumImages(key, al.images);
      assert albums == now[key := UpsertedAlbum(now, sortNames, key, al)];
      ImportTracks(id, al.tracks);
    }

    /** The whole list, in order; `kept` are the ids its albums have. */
    method ImportAlbums(dir: Id, payload: seq<ImportAlbum>) returns (kept: seq<Id>)
      requires OneCoverEach(payload)
      modifies `albums, `tracks
      ensures View() == ImportAll(old(View()), sortNames, dir, payload, |payload|)
      ensures IdSet(kept) == KeptAlbums(albums, dir, payload)
    {
      hide ImportStep, CoverChoice;
      kept := [];
      ghost var before := View();
      for i := 0 to |payload|
        invariant View() == ImportAll(before, sortNames, dir, payload, i)
        invariant IdsOf(kept, albums, dir, payload[..i])
      {
        assert payload[i] in payload;
        ghost var now := View();
        var id := ImportAlbum(dir, payload[i]);
        StepKeepsIds(now, sortNames, dir, payload[i]);
        kept := kept + [id];
      }
      assert payload[..|payload|] == payload;
      IdsOfPayload(kept, albums, dir, payload);
    }

    /** Replaces what was imported for `dir` by the payload, in one transaction.
        Minted ids are new, and each album's payload chooses at most one cover. */
    method ReplaceDirAlbums(dir: Id, payload: seq<ImportAlbum>)
      requires Fresh(View(), payload) && OneCoverEach(payload)
      modifies `albums, `tracks
      ensures View() == Replace(old(View()), sortNames, dir, payload)
      ensures Sound(old(View())) && DistinctKeys(payload) ==> Sound(View())
      ensures Sound(old(View())) && DistinctKeys(payload) ==>
        && AlbumsFollow(old(View()), sortNames, dir, payload, albums)
        && TracksFollow(old(View()), dir, payload, View())
        && PrimariesFollow(old(albums), albums)
    {
      hide ImportAll, Promote, PrimaryGroups, DropAlbums, StaleAlbums, KeptAlbums;
      hide Sound, Fresh, DistinctKeys, OneCoverEach, AlbumsFollow, TracksFollow, PrimariesFollow;
      ghost var before := View();
      var kept := ImportAlbums(dir, payload);
      var groups := DirPrimaryGroups(dir);
      DeleteStaleAlbums(dir, kept);
      PromoteOrphanedPrimaries(groups);
      if Sound(before) && DistinctKeys(payload) {
        SoundKept(before, sortNames, dir, payload);
        ReplaceFields(before, sortNames, dir, payload);
      }
    }
  }

  /** The ids that the tracks of the list have. */
  ghost predicate KeptOf(kept: seq<Id>, tracks: Tracks, ts: seq<ImportTrack>) {
    |kept| == |ts| && forall j | 0 <= j < |ts| :: ts[j].key in tracks && kept[j] == tracks[ts[j].key].id
  }

  lemma KeptNext(kept: seq<Id>, before: Tracks, after: Tracks, ts: seq<ImportTrack>, i: nat, album: Id)
    requires i < |ts| && KeptOf(kept, before, ts[..i])
    requires after == before[ts[i].key := UpsertedTrack(before, album, ts[i])]
    ensures KeptOf(kept + [after[ts[i].key].id], after, ts[..i + 1])
  {
    assert forall j | 0 <= j < i :: ts[..i + 1][j] == ts[..i][j];
    hide LinkCredits;
  }

  lemma KeptAre(kept: seq<Id>, tracks: Tracks, ts: seq<ImportTrack>)
    requires KeptOf(kept, tracks, ts) && forall t :: t in ts ==> t.key in tracks
    ensures forall x :: x in kept <==> x in KeptTracks(tracks, ts)
  {
    forall x ensures x in kept <==> x in KeptTracks(tracks, ts) {
      if x in kept {
        var j :| 0 <= j < |kept| && kept[j] == x;
        assert ts[j] in ts;
      }
    }
  }

  /** Promoting one more group after others: groups do not interfere. */
  lemma PromoteKeepsOthers(albums: Albums, done: set<string>, group: string)
    requires group !in done
    ensures Promote(Promote(albums, done), {group}) == Promote(albums, done + {group})
  {
    var once := Promote(albums, done);
    forall k | k in albums && k.group == group ensures once[k] == albums[k] {}
    assert HasPrimary(once, group) <==> HasPrimary(albums, group);
    forall k | k in albums && k.group == group ensures Oldest(once, k) <==> Oldest(albums, k) {}
  }
}
