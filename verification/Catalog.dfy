/** The music catalog and what one import does to it, as values. Child rows that
    the schema deletes with their parent (artist links, image links, credits)
    are kept inside the parent row; albums and tracks are indexed by their
    unique keys. */
module Catalog {
  import opened Basics

  datatype AlbumKey = AlbumKey(dir: Id, group: string)
  datatype TrackKey = TrackKey(file: Id, offset: int)

  datatype AlbumArtist = AlbumArtist(artist: Id, creditedName: string)
  datatype ArtistLink = ArtistLink(artist: Id, creditedName: string, position: nat)
  datatype ImageKind = Cover | Back | Disc | ArtistPhoto | Other
  datatype AlbumImage = AlbumImage(image: Id, kind: ImageKind, setCover: bool)
  datatype ImageLink = ImageLink(kind: ImageKind, cover: bool)
  datatype Credit = Credit(artist: Id, creditedName: string, role: string)

  datatype AlbumInfo = AlbumInfo(
    title: string, albumType: string, releaseDate: string, originalDate: string,
    country: string, bootleg: bool, compilation: bool, live: bool, version: string)

  datatype TrackInfo = TrackInfo(
    disc: int, discSubtitle: string, number: int, title: string,
    releaseDate: string, originalDate: string, codec: string,
    sampleRate: int, bitDepth: int, channels: int, bitrate: int, duration: int)

  datatype AlbumRow = AlbumRow(
    id: Id, info: AlbumInfo, artistSort: string, primary: bool,
    artists: seq<ArtistLink>, images: map<Id, ImageLink>)

  datatype TrackRow = TrackRow(id: Id, album: Id, info: TrackInfo, credits: seq<Credit>)

  /** Payload of one import; the ids are freshly minted and used only for rows
      that do not exist yet. */
  datatype ImportTrack = ImportTrack(id: Id, key: TrackKey, info: TrackInfo, credits: seq<Credit>)
  datatype ImportAlbum = ImportAlbum(
    id: Id, group: string, info: AlbumInfo,
    artists: seq<AlbumArtist>, images: seq<AlbumImage>, tracks: seq<ImportTrack>)

  type Albums = map<AlbumKey, AlbumRow>
  type Tracks = map<TrackKey, TrackRow>
  datatype Library = Library(albums: Albums, tracks: Tracks)

  // ----- child rows -----

  /** Later duplicates of an artist are omitted and leave a gap. */
  function LinkArtists(artists: seq<AlbumArtist>): seq<ArtistLink> {
    if artists == [] then []
    else
      var n := |artists| - 1;
      var links := LinkArtists(artists[..n]);
      if exists l :: l in links && l.artist == artists[n].artist then links
      else links + [ArtistLink(artists[n].artist, artists[n].creditedName, n)]
  }

  /** Later duplicates of an (artist, role) pair are omitted. */
  function LinkCredits(credits: seq<Credit>): seq<Credit> {
    if credits == [] then []
    else
      var n := |credits| - 1;
      var links := LinkCredits(credits[..n]);
      if exists l :: l in links && l.artist == credits[n].artist && l.role == credits[n].role then links
      else links + [credits[n]]
  }

  predicate HasCover(links: map<Id, ImageLink>) {
    exists i :: i in links && links[i].cover
  }

  function ImageIds(images: seq<AlbumImage>): set<Id> {
    set img | img in images :: img.image
  }

  function KeepImages(links: map<Id, ImageLink>, images: seq<AlbumImage>): map<Id, ImageLink> {
    map i | i in links && i in ImageIds(images) :: links[i]
  }

  function UpsertImages(links: map<Id, ImageLink>, images: seq<AlbumImage>, hasCover: bool): map<Id, ImageLink> {
    if images == [] then links
    else
      var n := |images| - 1;
      var img := images[n];
      var before := UpsertImages(links, images[..n], hasCover);
      before[img.image := ImageLink(img.kind,
        if img.image in before then before[img.image].cover else img.setCover && !hasCover)]
  }

  function ReplaceImages(links: map<Id, ImageLink>, images: seq<AlbumImage>): map<Id, ImageLink> {
    var kept := KeepImages(links, images);
    UpsertImages(kept, images, HasCover(kept))
  }

  // ----- one import -----

  predicate HasPrimary(albums: Albums, group: string) {
    exists k :: k in albums && k.group == group && albums[k].primary
  }

  function SortName(sortNames: map<Id, string>, artists: seq<AlbumArtist>): string {
    if artists != [] && artists[0].artist in sortNames then sortNames[artists[0].artist] else ""
  }

  function UpsertedAlbum(albums: Albums, sortNames: map<Id, string>, key: AlbumKey, al: ImportAlbum): AlbumRow {
    var sort := SortName(sortNames, al.artists);
    var row := if key in albums then albums[key].(info := al.info, artistSort := sort)
               else AlbumRow(al.id, al.info, sort, !HasPrimary(albums, key.group), [], map[]);
    row.(artists := LinkArtists(al.artists), images := ReplaceImages(row.images, al.images))
  }

  function UpsertedTrack(tracks: Tracks, album: Id, t: ImportTrack): TrackRow {
    TrackRow(if t.key in tracks then tracks[t.key].id else t.id, album, t.info, LinkCredits(t.credits))
  }

  function UpsertTracks(tracks: Tracks, album: Id, ts: seq<ImportTrack>): (r: Tracks)
    ensures forall t :: t in ts ==> t.key in r
  {
    if ts == [] then tracks
    else
      var n := |ts| - 1;
      var before := UpsertTracks(tracks, album, ts[..n]);
      before[ts[n].key := UpsertedTrack(before, album, ts[n])]
  }

  function KeptTracks(tracks: Tracks, ts: seq<ImportTrack>): set<Id>
    requires forall t :: t in ts ==> t.key in tracks
  {
    set t | t in ts :: tracks[t.key].id
  }

  /** Tracks of the album that were not kept are deleted. */
  function DropStaleTracks(tracks: Tracks, album: Id, kept: set<Id>): Tracks {
    map k | k in tracks && !(tracks[k].album == album && tracks[k].id !in kept) :: tracks[k]
  }

  function ImportStep(lib: Library, sortNames: map<Id, string>, dir: Id, al: ImportAlbum): Library {
    var key := AlbumKey(dir, al.group);
    var row := UpsertedAlbum(lib.albums, sortNames, key, al);
    var tracks := UpsertTracks(lib.tracks, row.id, al.tracks);
    Library(lib.albums[key := row], DropStaleTracks(tracks, row.id, KeptTracks(tracks, al.tracks)))
  }

  /** The first n albums of the payload, in order. */
  function ImportAll(lib: Library, sortNames: map<Id, string>, dir: Id, payload: seq<ImportAlbum>, n: nat): Library
    requires n <= |payload|
  {
    if n == 0 then lib
    else ImportStep(ImportAll(lib, sortNames, dir, payload, n - 1), sortNames, dir, payload[n - 1])
  }

  /** Groups whose primary version is an album of `dir`. */
  function PrimaryGroups(albums: Albums, dir: Id): set<string> {
    set k | k in albums && k.dir == dir && albums[k].primary :: k.group
  }

  predicate Oldest(albums: Albums, key: AlbumKey) {
    key in albums && forall k :: k in albums && k.group == key.group ==> albums[key].id <= albums[k].id
  }

  /** Each of the groups without a primary promotes its oldest album. */
  function Promote(albums: Albums, groups: set<string>): Albums {
    map k | k in albums ::
      if k.group in groups && !HasPrimary(albums, k.group) && Oldest(albums, k)
      then albums[k].(primary := true) else albums[k]
  }

  function StaleAlbums(albums: Albums, dir: Id, keep: set<Id>): set<AlbumKey> {
    set k | k in albums && k.dir == dir && albums[k].id !in keep
  }

  /** Deleting albums deletes their tracks. */
  function DropAlbums(lib: Library, stale: set<AlbumKey>): Library {
    var gone := set k | k in stale && k in lib.albums :: lib.albums[k].id;
    Library(lib.albums - stale, map k | k in lib.tracks && lib.tracks[k].album !in gone :: lib.tracks[k])
  }

  function KeptAlbums(albums: Albums, dir: Id, payload: seq<ImportAlbum>): set<Id> {
    set al | al in payload && AlbumKey(dir, al.group) in albums :: albums[AlbumKey(dir, al.group)].id
  }

  function Replace(lib: Library, sortNames: map<Id, string>, dir: Id, payload: seq<ImportAlbum>): Library {
    var imported := ImportAll(lib, sortNames, dir, payload, |payload|);
    var groups := PrimaryGroups(imported.albums, dir);
    var stale := StaleAlbums(imported.albums, dir, KeptAlbums(imported.albums, dir, payload));
    var rest := DropAlbums(imported, stale);
    Library(Promote(rest.albums, groups), rest.tracks)
  }

  // ----- invariants -----

  ghost predicate UniqueAlbumIds(albums: Albums) {
    forall j, k :: j in albums && k in albums && albums[j].id == albums[k].id ==> j == k
  }

  ghost predicate UniqueTrackIds(tracks: Tracks) {
    forall j, k :: j in tracks && k in tracks && tracks[j].id == tracks[k].id ==> j == k
  }

  /** The album that owns a track. */
  ghost predicate Owns(albums: Albums, key: AlbumKey, row: TrackRow) {
    key in albums && albums[key].id == row.album
  }

  ghost predicate NoOrphans(lib: Library) {
    forall k :: k in lib.tracks ==> exists a :: Owns(lib.albums, a, lib.tracks[k])
  }

  ghost predicate AtMostOnePrimary(albums: Albums) {
    forall j, k | j in albums && k in albums && j.group == k.group ::
      albums[j].primary && albums[k].primary ==> j == k
  }

  /** Exactly one primary in every group that has an album. */
  ghost predicate OnePrimary(albums: Albums) {
    && AtMostOnePrimary(albums)
    && forall k :: k in albums ==> HasPrimary(albums, k.group)
  }

  ghost predicate AtMostOneCover(links: map<Id, ImageLink>) {
    forall i, j :: i in links && j in links && links[i].cover && links[j].cover ==> i == j
  }

  ghost predicate Sound(lib: Library) {
    && UniqueAlbumIds(lib.albums) && UniqueTrackIds(lib.tracks) && NoOrphans(lib)
    && OnePrimary(lib.albums)
    && forall k :: k in lib.albums ==> AtMostOneCover(lib.albums[k].images)
  }

  /** Position i of album j's tracks in the payload. */
  ghost predicate At(payload: seq<ImportAlbum>, j: int, i: int) {
    0 <= j < |payload| && 0 <= i < |payload[j].tracks|
  }

  ghost predicate DistinctTracks(ts: seq<ImportTrack>) {
    forall i, j :: 0 <= i < |ts| && 0 <= j < |ts| && ts[i].key == ts[j].key ==> i == j
  }

  ghost predicate NoSharedKey(ts: seq<ImportTrack>, us: seq<ImportTrack>) {
    forall i, j :: 0 <= i < |ts| && 0 <= j < |us| ==> ts[i].key != us[j].key
  }

  /** Distinct group keys and distinct (file, offset) keys. */
  ghost predicate DistinctKeys(payload: seq<ImportAlbum>) {
    && (forall i, j :: 0 <= i < j < |payload| ==> payload[i].group != payload[j].group)
    && (forall j :: 0 <= j < |payload| ==> DistinctTracks(payload[j].tracks))
    && (forall i, j :: 0 <= i < j < |payload| ==> NoSharedKey(payload[i].tracks, payload[j].tracks))
  }

  ghost predicate FreshTracks(tracks: Tracks, ts: seq<ImportTrack>) {
    && (forall i, k :: 0 <= i < |ts| && k in tracks ==> tracks[k].id != ts[i].id)
    && (forall i, j :: 0 <= i < |ts| && 0 <= j < |ts| && ts[i].id == ts[j].id ==> i == j)
  }

  ghost predicate NoSharedId(ts: seq<ImportTrack>, us: seq<ImportTrack>) {
    forall i, j :: 0 <= i < |ts| && 0 <= j < |us| ==> ts[i].id != us[j].id
  }

  /** Minted ids are new. */
  ghost predicate Fresh(lib: Library, payload: seq<ImportAlbum>) {
    && (forall j, k :: 0 <= j < |payload| && k in lib.albums ==> lib.albums[k].id != payload[j].id)
    && (forall i, j :: 0 <= i < j < |payload| ==> payload[i].id != payload[j].id)
    && (forall j :: 0 <= j < |payload| ==> FreshTracks(lib.tracks, payload[j].tracks))
    && (forall i, j :: 0 <= i < j < |payload| ==> NoSharedId(payload[i].tracks, payload[j].tracks))
  }

  /** What the importer promises about covers. */
  ghost predicate OneCoverEach(payload: seq<ImportAlbum>) {
    forall al :: al in payload ==> CoverChoice(al.images)
  }

  ghost predicate CoverChoice(images: seq<AlbumImage>) {
    forall i, j :: 0 <= i < |images| && 0 <= j < |images| && images[i].setCover && images[j].setCover ==> i == j
  }
}
