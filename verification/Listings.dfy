/** The paginated listings: each one narrows a table, sorts it by a list of
    expressions ending with the row id, and resumes behind its cursor. */
module Listings {
  import opened Basics
  import opened Tables
  import opened Catalog
  import opened Keyset
  import opened RowOrder
  import opened Selection

  const DEFAULT_SIZE := 50
  const MAX_SIZE := 200

  /** The effective page size. */
  function Size(n: int): (size: nat)
    ensures 1 <= size <= MAX_SIZE
    ensures 1 <= n <= MAX_SIZE ==> size == n
    ensures n <= 0 ==> size == DEFAULT_SIZE
    ensures n > MAX_SIZE ==> size == MAX_SIZE
  {
    if n <= 0 then DEFAULT_SIZE else if n < MAX_SIZE then n else MAX_SIZE
  }

  function Same(n: nat, desc: bool): seq<bool> {
    seq(n, _ => desc)
  }

  // ----- albums -----

  datatype BootlegFilter = Include | Exclude | Only
  datatype AlbumOrder = ByTitle | ByArtist | ByReleaseDate | ByOriginalDate | RecentlyAdded | UnknownOrder(name: string)

  datatype AlbumQuery = AlbumQuery(
    artist: Option<Id>, allVersions: bool, types: seq<string>, bootlegs: BootlegFilter,
    order: AlbumOrder, descending: bool)

  datatype AlbumCursor = AlbumCursor(
    query: AlbumQuery, title: string, artistSort: string, releaseDate: string, originalDate: string, id: Id)

  /** Sort expressions over an album row. */
  datatype SortExpr = Title | ArtistSort | ReleaseDate | OriginalDate | RowId

  const UNKNOWN_DATE := "9999"

  /** COALESCE(NULLIF(date, ''), '9999'). */
  function DateExpr(date: string): string {
    var nullIf := if date == "" then None else Some(date);
    match nullIf
    case Some(d) => d
    case None => UNKNOWN_DATE
  }

  function SortableDate(date: string): string {
    if date == "" then UNKNOWN_DATE else date
  }

  function Eval(e: SortExpr, al: AlbumRow): Value {
    match e
    case Title => Text(al.info.title)
    case ArtistSort => Text(al.artistSort)
    case ReleaseDate => Text(DateExpr(al.info.releaseDate))
    case OriginalDate => Text(DateExpr(al.info.originalDate))
    case RowId => Num(al.id)
  }

  function NewAlbumCursor(query: AlbumQuery, al: AlbumRow): AlbumCursor {
    AlbumCursor(query, al.info.title, al.artistSort, SortableDate(al.info.releaseDate),
                SortableDate(al.info.originalDate), al.id)
  }

  /** The sort expressions of an ordering and the cursor's matching values. */
  function AlbumSort(order: AlbumOrder, cur: AlbumCursor): Option<(seq<SortExpr>, Key)> {
    match order
    case ByTitle => Some(([Title, RowId], [Text(cur.title), Num(cur.id)]))
    case ByArtist => Some(([ArtistSort, OriginalDate, Title, RowId],
                           [Text(cur.artistSort), Text(cur.originalDate), Text(cur.title), Num(cur.id)]))
    case ByReleaseDate => Some(([ReleaseDate, Title, RowId], [Text(cur.releaseDate), Text(cur.title), Num(cur.id)]))
    case ByOriginalDate => Some(([OriginalDate, Title, RowId], [Text(cur.originalDate), Text(cur.title), Num(cur.id)]))
    case RecentlyAdded => Some(([RowId], [Num(cur.id)]))
    case UnknownOrder(_) => None
  }

  const NO_CURSOR := AlbumCursor(AlbumQuery(None, false, [], Include, ByTitle, false), "", "", "", "", 0)

  function SortExprs(order: AlbumOrder): seq<SortExpr>
    requires !order.UnknownOrder?
  {
    AlbumSort(order, NO_CURSOR).value.0
  }

  function AlbumKeyBy(order: AlbumOrder): AlbumRow -> Key
    requires !order.UnknownOrder?
  {
    (al: AlbumRow) => var exprs := SortExprs(order);
      seq(|exprs|, i requires 0 <= i < |exprs| => Eval(exprs[i], al))
  }

  /** The order that a query asks for, by the albums' own fields. */
  ghost predicate AlbumLess(order: AlbumOrder, a: AlbumRow, b: AlbumRow)
    requires !order.UnknownOrder?
  {
    match order
    case ByTitle => TitleLess(a, b)
    case ByArtist => ArtistLess(a, b)
    case ByReleaseDate => ReleaseLess(a, b)
    case ByOriginalDate => OriginalLess(a, b)
    case RecentlyAdded => a.id < b.id
  }

  ghost predicate Precedes(query: AlbumQuery, a: AlbumRow, b: AlbumRow)
    requires !query.order.UnknownOrder?
  {
    if query.descending then AlbumLess(query.order, b, a) else AlbumLess(query.order, a, b)
  }

  /** The sort key of a query orders albums by these fields. */
  lemma AlbumKeyOrder(order: AlbumOrder, a: AlbumRow, b: AlbumRow)
    requires !order.UnknownOrder?
    ensures RowLess(AlbumKeyBy(order)(a), AlbumKeyBy(order)(b)) <==> AlbumLess(order, a, b)
  {
    AlbumKeyColumns(order, a);
    AlbumKeyColumns(order, b);
    hide AlbumKeyBy, RowLess, TextLess;
    match order
    case ByTitle => RowLessTitle(a, b);
    case ByArtist => ArtistKeyOrder(a, b);
    case ByReleaseDate => RowLessDate(a.info.releaseDate, b.info.releaseDate, a, b, ReleaseLess(a, b));
    case ByOriginalDate => RowLessDate(a.info.originalDate, b.info.originalDate, a, b, OriginalLess(a, b));
    case RecentlyAdded => RowLessId(a.id, b.id);
  }

  /** The columns of an album's sort key. */
  lemma AlbumKeyColumns(order: AlbumOrder, al: AlbumRow)
    requires !order.UnknownOrder?
    ensures var release := if al.info.releaseDate == "" then "9999" else al.info.releaseDate;
      var original := if al.info.originalDate == "" then "9999" else al.info.originalDate;
      AlbumKeyBy(order)(al) ==
        match order
        case ByTitle => [Text(al.info.title), Num(al.id)]
        case ByArtist => [Text(al.artistSort), Text(original), Text(al.info.title), Num(al.id)]
        case ByReleaseDate => [Text(release), Text(al.info.title), Num(al.id)]
        case ByOriginalDate => [Text(original), Text(al.info.title), Num(al.id)]
        case RecentlyAdded => [Num(al.id)]
  {
  }

  lemma ArtistKeyOrder(a: AlbumRow, b: AlbumRow)
    ensures RowLess(AlbumKeyBy(ByArtist)(a), AlbumKeyBy(ByArtist)(b)) <==> ArtistLess(a, b)
  {
    AlbumKeyColumns(ByArtist, a);
    AlbumKeyColumns(ByArtist, b);
    AlbumKeyColumns(ByOriginalDate, a);
    AlbumKeyColumns(ByOriginalDate, b);
    var s, t := AlbumKeyBy(ByOriginalDate)(a), AlbumKeyBy(ByOriginalDate)(b);
    assert AlbumKeyBy(ByArtist)(a) == [Text(a.artistSort)] + s;
    assert AlbumKeyBy(ByArtist)(b) == [Text(b.artistSort)] + t;
    hide AlbumKeyBy, RowLess, TextLess;
    RowLessColumns(Text(a.artistSort), s, Text(b.artistSort), t);
    RowLessDate(a.info.originalDate, b.info.originalDate, a, b, OriginalLess(a, b));
    TextTotal(a.artistSort, b.artistSort);
  }

  /** The cursor made from a row compares exactly like the row, for every order. */
  lemma CursorIsRowKey(query: AlbumQuery, al: AlbumRow)
    requires !query.order.UnknownOrder?
    ensures AlbumSort(query.order, NewAlbumCursor(query, al)).value ==
      (SortExprs(query.order), AlbumKeyBy(query.order)(al))
    ensures forall b ::
      Precedes(query, al, b)
      <==> AlbumResumes(query.descending, AlbumKeyBy(query.order)(b), AlbumKeyBy(query.order)(al))
  {
    AlbumKeyColumns(query.order, al);
    forall b ensures AlbumResumes(query.descending, AlbumKeyBy(query.order)(b), AlbumKeyBy(query.order)(al))
      <==> Precedes(query, al, b)
    {
      AlbumKeyOrder(query.order, al, b);
      AlbumKeyOrder(query.order, b, al);
    }
  }

  /** A single row-value comparison, flipped as a whole when descending. */
  predicate AlbumResumes(descending: bool, key: Key, values: Key) {
    if descending then RowLess(key, values) else RowLess(values, key)
  }

  lemma {:induction false} RowComparison(n: nat, desc: bool, a: Key, b: Key)
    requires |a| == |b| == n
    ensures Before(Same(n, desc), a, b) == (if desc then RowLess(b, a) else RowLess(a, b))
    decreases n
  {
    if n > 0 {
      assert Same(n, desc)[1..] == Same(n - 1, desc);
      RowComparison(n - 1, desc, a[1..], b[1..]);
    }
  }

  /** The WHERE clause of a resumed query is "past the cursor" for every order. */
  lemma AlbumResumesPastCursor(query: AlbumQuery, al: AlbumRow, cur: AlbumCursor)
    requires !query.order.UnknownOrder?
    ensures var values := AlbumSort(query.order, cur).value.1;
      AlbumResumes(query.descending, AlbumKeyBy(query.order)(al), values)
      <==> PastCursor(AlbumDirections(query), Some(values), AlbumKeyBy(query.order)(al))
  {
    var values := AlbumSort(query.order, cur).value.1;
    RowComparison(|values|, query.descending, values, AlbumKeyBy(query.order)(al));
  }

  predicate Matches(query: AlbumQuery, al: AlbumRow) {
    && (query.artist.Some? ==> exists l :: l in al.artists && l.artist == query.artist.value)
    && (query.allVersions || al.primary)
    && (query.types == [] || al.info.albumType in query.types)
    && (query.bootlegs == Exclude ==> !al.info.bootleg)
    && (query.bootlegs == Only ==> al.info.bootleg)
  }

  function MatchingAlbums(albums: Albums, query: AlbumQuery): set<AlbumRow> {
    set k | k in albums && Matches(query, albums[k]) :: albums[k]
  }

  function AlbumDirections(query: AlbumQuery): seq<bool>
    requires !query.order.UnknownOrder?
  {
    Same(|SortExprs(query.order)|, query.descending)
  }

  /** The row id ends every ordering, so no two albums tie. */
  lemma AlbumsSortable(albums: Albums, query: AlbumQuery)
    requires UniqueAlbumIds(albums) && !query.order.UnknownOrder?
    ensures Sortable(MatchingAlbums(albums, query), AlbumKeyBy(query.order), AlbumDirections(query))
  {
    var key := AlbumKeyBy(query.order);
    var rows := MatchingAlbums(albums, query);
    var last := |SortExprs(query.order)| - 1;
    forall r, q | r in rows && q in rows && key(r) == key(q) ensures r == q {
      assert key(r)[last] == Num(r.id) && key(q)[last] == Num(q.id);
    }
  }

  /** The albums that a query asks for: of one artist, the primary ones, of some types,
      without or with only the bootlegs. */
  ghost function WantedAlbum(albums: Albums, query: AlbumQuery): AlbumRow -> bool {
    (al: AlbumRow) =>
      && (exists k :: k in albums && albums[k] == al)
      && (query.artist.Some? ==> exists i :: 0 <= i < |al.artists| && al.artists[i].artist == query.artist.value)
      && (!query.allVersions ==> al.primary)
      && (|query.types| > 0 ==> exists i :: 0 <= i < |query.types| && query.types[i] == al.info.albumType)
      && (query.bootlegs.Exclude? ==> !al.info.bootleg)
      && (query.bootlegs.Only? ==> al.info.bootleg)
  }

  ghost function AlbumsBefore(query: AlbumQuery): (AlbumRow, AlbumRow) -> bool
    requires !query.order.UnknownOrder?
  {
    (a: AlbumRow, b: AlbumRow) => Precedes(query, a, b)
  }

  /** An album with the sort fields of the cursor. */
  function CursorRow(cur: AlbumCursor): AlbumRow {
    AlbumRow(cur.id, AlbumInfo(cur.title, "", cur.releaseDate, cur.originalDate, "", false, false, false, ""),
             cur.artistSort, false, [], map[])
  }

  /** The albums behind the cursor. */
  ghost function AlbumsPast(query: AlbumQuery, token: Option<AlbumCursor>): AlbumRow -> bool
    requires !query.order.UnknownOrder?
  {
    (al: AlbumRow) => token.Some? ==> Precedes(query, CursorRow(token.value), al)
  }

  /** A cursor that was made from an album has no blank date. */
  ghost predicate Issued(token: Option<AlbumCursor>) {
    token.Some? ==> token.value.releaseDate != "" && token.value.originalDate != ""
  }

  /** The cursor's key, when there is one. */
  function CursorKey(query: AlbumQuery, token: Option<AlbumCursor>): Option<Key>
    requires !query.order.UnknownOrder?
  {
    if token.Some? then Some(AlbumSort(query.order, token.value).value.1) else None
  }

  /** In both directions. */
  lemma AlbumDirected(query: AlbumQuery, a: AlbumRow, b: AlbumRow)
    requires !query.order.UnknownOrder?
    ensures Before(AlbumDirections(query), AlbumKeyBy(query.order)(a), AlbumKeyBy(query.order)(b))
      <==> Precedes(query, a, b)
  {
    RowComparison(|SortExprs(query.order)|, query.descending, AlbumKeyBy(query.order)(a), AlbumKeyBy(query.order)(b));
    AlbumKeyOrder(query.order, a, b);
    AlbumKeyOrder(query.order, b, a);
  }

  lemma AlbumsMean(albums: Albums, query: AlbumQuery, token: Option<AlbumCursor>)
    requires !query.order.UnknownOrder? && Issued(token)
    ensures Means(MatchingAlbums(albums, query), AlbumKeyBy(query.order), AlbumDirections(query),
                  CursorKey(query, token), WantedAlbum(albums, query), AlbumsPast(query, token), AlbumsBefore(query))
  {
    forall al ensures WantedAlbum(albums, query)(al) <==> al in MatchingAlbums(albums, query) {
      AlbumMatches(query, al);
    }
    forall a, b
      ensures Before(AlbumDirections(query), AlbumKeyBy(query.order)(a), AlbumKeyBy(query.order)(b))
        <==> Precedes(query, a, b)
    {
      AlbumDirected(query, a, b);
    }
    if token.Some? { CursorColumns(query, token.value); }
    hide Matches, Precedes, Before, AlbumKeyBy, MatchingAlbums, AlbumSort;
  }

  lemma AlbumPageIsFirst(albums: Albums, query: AlbumQuery, token: Option<AlbumCursor>, limit: nat,
                         items: seq<AlbumRow>, next: Option<AlbumCursor>)
    requires UniqueAlbumIds(albums) && !query.order.UnknownOrder? && Issued(token) && limit > 0
    requires forall al :: al in items ==> al in MatchingAlbums(albums, query)
    requires Shaped(AlbumDirections(query), KeysOf(MatchingAlbums(albums, query), AlbumKeyBy(query.order)))
    requires IsPage(AlbumDirections(query), KeysOf(MatchingAlbums(albums, query), AlbumKeyBy(query.order)),
                    CursorKey(query, token), limit, KeySeq(items, AlbumKeyBy(query.order)), CursorKey(query, next))
    ensures FirstOf(WantedAlbum(albums, query), AlbumsPast(query, token), AlbumsBefore(query), limit, items, next.Some?)
  {
    AlbumsSortable(albums, query);
    AlbumsMean(albums, query, token);
    PageIsFirst(MatchingAlbums(albums, query), AlbumKeyBy(query.order), AlbumDirections(query), CursorKey(query, token),
                limit, items, CursorKey(query, next), WantedAlbum(albums, query), AlbumsPast(query, token),
                AlbumsBefore(query));
  }

  lemma AlbumMatches(query: AlbumQuery, al: AlbumRow)
    ensures Matches(query, al) <==>
      && (query.artist.Some? ==> exists i :: 0 <= i < |al.artists| && al.artists[i].artist == query.artist.value)
      && (!query.allVersions ==> al.primary)
      && (|query.types| > 0 ==> exists i :: 0 <= i < |query.types| && query.types[i] == al.info.albumType)
      && (query.bootlegs.Exclude? ==> !al.info.bootleg)
      && (query.bootlegs.Only? ==> al.info.bootleg)
  {
    if query.artist.Some? {
      if i :| 0 <= i < |al.artists| && al.artists[i].artist == query.artist.value {
        assert al.artists[i] in al.artists;
      }
    }
  }

  lemma CursorColumns(query: AlbumQuery, cur: AlbumCursor)
    requires !query.order.UnknownOrder? && Issued(Some(cur))
    ensures AlbumSort(query.order, cur).value.1 == AlbumKeyBy(query.order)(CursorRow(cur))
  {
    AlbumKeyColumns(query.order, CursorRow(cur));
    hide AlbumKeyBy;
  }

  datatype ListResult<R, C> = Page(items: seq<R>, next: Option<C>) | InvalidToken | NoSuchOrder

  /** A page of albums; the token is checked before the order. */
  method AlbumsPage(albums: Albums, query: AlbumQuery, token: Option<AlbumCursor>, size: int)
    returns (res: ListResult<AlbumRow, AlbumCursor>)
    requires UniqueAlbumIds(albums)
    ensures res == InvalidToken <==> token.Some? && token.value.query != query
    ensures res == NoSuchOrder <==> (token.None? || token.value.query == query) && query.order.UnknownOrder?
    ensures res.Page? ==>
      && (forall al :: al in res.items ==> al in MatchingAlbums(albums, query))
      && (res.next.Some? ==> res.next.value.query == query)
      && Shaped(AlbumDirections(query), KeysOf(MatchingAlbums(albums, query), AlbumKeyBy(query.order)))
      && IsPage(AlbumDirections(query), KeysOf(MatchingAlbums(albums, query), AlbumKeyBy(query.order)),
                if token.Some? then Some(AlbumSort(query.order, token.value).value.1) else None,
                Size(size), KeySeq(res.items, AlbumKeyBy(query.order)),
                if res.next.Some? then Some(AlbumSort(query.order, res.next.value).value.1) else None)
    ensures res.Page? && Issued(token) ==> Issued(res.next)
    ensures res.Page? && Issued(token) ==>
      FirstOf(WantedAlbum(albums, query), AlbumsPast(query, token), AlbumsBefore(query), Size(size), res.items,
              res.next.Some?)
  {
    if token.Some? && token.value.query != query {
      return InvalidToken;
    }
    var sort := AlbumSort(query.order, if token.Some? then token.value else NO_CURSOR);
    if sort.None? {
      return NoSuchOrder;
    }
    AlbumsSortable(albums, query);
    var limit := Size(size);
    var cursor := if token.Some? then Some(sort.value.1) else None;
    var rows := MatchingAlbums(albums, query);
    var key := AlbumKeyBy(query.order);
    var seen := set al | al in rows && (cursor.Some? ==> AlbumResumes(query.descending, key(al), cursor.value));
    forall al ensures al in seen <==> al in rows && PastCursor(AlbumDirections(query), cursor, key(al)) {
      if token.Some? { AlbumResumesPastCursor(query, al, token.value); }
    }
    SeenIsRest(rows, seen, key, AlbumDirections(query), cursor);
    hide AlbumResumes, PastCursor, Matches, MatchingAlbums, FirstOf;
    var items, more := ReadPage(seen, key, AlbumDirections(query), limit);
    var next := None;
    if more {
      next := Some(NewAlbumCursor(query, items[limit - 1]));
      CursorIsRowKey(query, items[limit - 1]);
    }
    if Issued(token) { AlbumPageIsFirst(albums, query, token, limit, items, next); }
    res := Page(items, next);
  }

  // ----- scans: newest first, then by id -----

  const SCAN_DIRECTIONS := [true, false]

  function ScanKey(id: Id, row: ScanRow): Key {
    [Num(row.start), Num(id)]
  }

  datatype ScanCursor = ScanCursor(location: Option<Id>, state: Option<ScanState>, start: int, id: Id)

  /** start_time < ? OR (start_time = ? AND id > ?). */
  predicate ScanResumes(row: ScanRow, id: Id, cur: ScanCursor) {
    row.start < cur.start || (row.start == cur.start && id > cur.id)
  }

  /** The OR expansion is the mixed-direction comparison. */
  lemma ScanResumesPastCursor(row: ScanRow, id: Id, cur: ScanCursor)
    ensures ScanResumes(row, id, cur) <==>
            PastCursor(SCAN_DIRECTIONS, Some([Num(cur.start), Num(cur.id)]), ScanKey(id, row))
  {
    var a, b := [Num(cur.start), Num(cur.id)], ScanKey(id, row);
    assert Before(SCAN_DIRECTIONS[1..], a[1..], b[1..]) == (cur.id < id);
  }

  function MatchingScans(scans: map<Id, ScanRow>, location: Option<Id>, state: Option<ScanState>): set<(Id, ScanRow)> {
    set id | id in scans && (location.Some? ==> scans[id].location == location.value)
          && (state.Some? ==> scans[id].state == state.value) :: (id, scans[id])
  }

  const SCAN_KEY: ((Id, ScanRow)) -> Key := (r: (Id, ScanRow)) => ScanKey(r.0, r.1)

  ghost function WantedScan(scans: map<Id, ScanRow>, location: Option<Id>, state: Option<ScanState>)
    : ((Id, ScanRow)) -> bool
  {
    (r: (Id, ScanRow)) =>
      && r.0 in scans && scans[r.0] == r.1
      && (location.Some? ==> r.1.location == location.value) && (state.Some? ==> r.1.state == state.value)
  }

  /** Newest first, and by id among scans that started together. */
  ghost function ScansBefore(): ((Id, ScanRow), (Id, ScanRow)) -> bool {
    (a: (Id, ScanRow), b: (Id, ScanRow)) => a.1.start > b.1.start || (a.1.start == b.1.start && a.0 < b.0)
  }

  ghost function ScansPast(token: Option<ScanCursor>): ((Id, ScanRow)) -> bool {
    (r: (Id, ScanRow)) =>
      token.Some? ==> r.1.start < token.value.start || (r.1.start == token.value.start && r.0 > token.value.id)
  }

  function ScanCursorKey(token: Option<ScanCursor>): Option<Key> {
    if token.Some? then Some([Num(token.value.start), Num(token.value.id)]) else None
  }

  lemma ScanPageIsFirst(scans: map<Id, ScanRow>, location: Option<Id>, state: Option<ScanState>,
                        token: Option<ScanCursor>, limit: nat, items: seq<(Id, ScanRow)>, next: Option<ScanCursor>)
    requires limit > 0 && forall r :: r in items ==> r in MatchingScans(scans, location, state)
    requires Shaped(SCAN_DIRECTIONS, KeysOf(MatchingScans(scans, location, state), SCAN_KEY))
    requires IsPage(SCAN_DIRECTIONS, KeysOf(MatchingScans(scans, location, state), SCAN_KEY), ScanCursorKey(token),
                    limit, KeySeq(items, SCAN_KEY), ScanCursorKey(next))
    ensures FirstOf(WantedScan(scans, location, state), ScansPast(token), ScansBefore(), limit, items, next.Some?)
  {
    var rows := MatchingScans(scans, location, state);
    assert forall r: (Id, ScanRow) :: SCAN_KEY(r)[1] == Num(r.0);
    forall r: (Id, ScanRow), q: (Id, ScanRow)
      ensures ScansBefore()(r, q) <==> Before(SCAN_DIRECTIONS, SCAN_KEY(r), SCAN_KEY(q))
    {
      ScanResumesPastCursor(q.1, q.0, ScanCursor(location, state, r.1.start, r.0));
    }
    forall r: (Id, ScanRow)
      ensures ScansPast(token)(r) <==> PastCursor(SCAN_DIRECTIONS, ScanCursorKey(token), SCAN_KEY(r))
    {
      if token.Some? { ScanResumesPastCursor(r.1, r.0, token.value); }
    }
    PageIsFirst(rows, SCAN_KEY, SCAN_DIRECTIONS, ScanCursorKey(token), limit, items, ScanCursorKey(next),
                WantedScan(scans, location, state), ScansPast(token), ScansBefore());
  }

  method ScansPage(scans: map<Id, ScanRow>, location: Option<Id>, state: Option<ScanState>, token: Option<ScanCursor>,
                   size: int)
    returns (res: ListResult<(Id, ScanRow), ScanCursor>)
    ensures res == InvalidToken <==> token.Some? && (token.value.location != location || token.value.state != state)
    ensures res != NoSuchOrder
    ensures res.Page? ==>
      && (res.next.Some? ==> res.next.value.location == location && res.next.value.state == state)
      && (forall r :: r in res.items ==> r in MatchingScans(scans, location, state))
      && Shaped(SCAN_DIRECTIONS, KeysOf(MatchingScans(scans, location, state), SCAN_KEY))
      && IsPage(SCAN_DIRECTIONS, KeysOf(MatchingScans(scans, location, state), SCAN_KEY),
                ScanCursorKey(token), Size(size), KeySeq(res.items, SCAN_KEY), ScanCursorKey(res.next))
      && FirstOf(WantedScan(scans, location, state), ScansPast(token), ScansBefore(), Size(size), res.items,
                 res.next.Some?)
  {
    if token.Some? && (token.value.location != location || token.value.state != state) {
      return InvalidToken;
    }
    var limit := Size(size);
    var cursor := ScanCursorKey(token);
    var rows := MatchingScans(scans, location, state);
    var seen := set r | r in rows && (token.Some? ==> ScanResumes(r.1, r.0, token.value));
    forall r: (Id, ScanRow) ensures r in seen <==> r in rows && PastCursor(SCAN_DIRECTIONS, cursor, SCAN_KEY(r)) {
      if token.Some? { ScanResumesPastCursor(r.1, r.0, token.value); }
    }
    SeenIsRest(rows, seen, SCAN_KEY, SCAN_DIRECTIONS, cursor);
    assert Sortable(seen, SCAN_KEY, SCAN_DIRECTIONS) by {
      assert forall r: (Id, ScanRow) :: SCAN_KEY(r)[1] == Num(r.0);
    }
    hide ScanResumes, PastCursor, FirstOf, MatchingScans;
    var items, more := ReadPage(seen, SCAN_KEY, SCAN_DIRECTIONS, limit);
    var next := None;
    if more {
      var last := items[limit - 1];
      next := Some(ScanCursor(location, state, last.1.start, last.0));
    }
    ScanPageIsFirst(scans, location, state, token, limit, items, next);
    res := Page(items, next);
  }

  // ----- artists and tracks: one ascending row-value comparison -----

  datatype Artist = Artist(id: Id, name: string, sortName: string)

  const ARTIST_KEY: Artist -> Key := (a: Artist) => [Text(a.sortName), Num(a.id)]

  ghost function WantedArtist(artists: set<Artist>): Artist -> bool {
    (a: Artist) => a in artists
  }

  ghost function ArtistsBefore(): (Artist, Artist) -> bool {
    (a: Artist, b: Artist) => TextLess(a.sortName, b.sortName) || (a.sortName == b.sortName && a.id < b.id)
  }

  ghost function ArtistsPast(token: Option<(string, Id)>): Artist -> bool {
    (a: Artist) =>
      token.Some? ==> TextLess(token.value.0, a.sortName) || (token.value.0 == a.sortName && token.value.1 < a.id)
  }

  function ArtistCursorKey(token: Option<(string, Id)>): Option<Key> {
    if token.Some? then Some([Text(token.value.0), Num(token.value.1)]) else None
  }

  lemma ArtistColumns(s: string, i: Id, t: string, j: Id)
    ensures Before(Same(2, false), [Text(s), Num(i)], [Text(t), Num(j)]) <==> TextLess(s, t) || (s == t && i < j)
  {
    RowComparison(2, false, [Text(s), Num(i)], [Text(t), Num(j)]);
    assert [Text(s), Num(i)] == [Text(s)] + [Num(i)] && [Text(t), Num(j)] == [Text(t)] + [Num(j)];
    RowLessColumns(Text(s), [Num(i)], Text(t), [Num(j)]);
    RowLessId(i, j);
    TextTotal(s, t);
  }

  lemma ArtistPageIsFirst(artists: set<Artist>, token: Option<(string, Id)>, limit: nat, items: seq<Artist>,
                          next: Option<(string, Id)>)
    requires forall a, b :: a in artists && b in artists && a.id == b.id ==> a == b
    requires limit > 0 && forall a :: a in items ==> a in artists
    requires Shaped(Same(2, false), KeysOf(artists, ARTIST_KEY))
    requires IsPage(Same(2, false), KeysOf(artists, ARTIST_KEY), ArtistCursorKey(token), limit,
                    KeySeq(items, ARTIST_KEY), ArtistCursorKey(next))
    ensures FirstOf(WantedArtist(artists), ArtistsPast(token), ArtistsBefore(), limit, items, next.Some?)
  {
    assert forall a: Artist :: ARTIST_KEY(a)[1] == Num(a.id);
    forall a: Artist, b: Artist
      ensures ArtistsBefore()(a, b) <==> Before(Same(2, false), ARTIST_KEY(a), ARTIST_KEY(b))
    {
      ArtistColumns(a.sortName, a.id, b.sortName, b.id);
    }
    forall a: Artist
      ensures ArtistsPast(token)(a) <==> PastCursor(Same(2, false), ArtistCursorKey(token), ARTIST_KEY(a))
    {
      if token.Some? { ArtistColumns(token.value.0, token.value.1, a.sortName, a.id); }
    }
    PageIsFirst(artists, ARTIST_KEY, Same(2, false), ArtistCursorKey(token), limit, items, ArtistCursorKey(next),
                WantedArtist(artists), ArtistsPast(token), ArtistsBefore());
  }

  method ArtistsPage(artists: set<Artist>, token: Option<(string, Id)>, size: int)
    returns (items: seq<Artist>, next: Option<(string, Id)>)
    requires forall a, b :: a in artists && b in artists && a.id == b.id ==> a == b
    ensures forall a :: a in items ==> a in artists
    ensures Shaped(Same(2, false), KeysOf(artists, ARTIST_KEY))
    ensures IsPage(Same(2, false), KeysOf(artists, ARTIST_KEY), ArtistCursorKey(token), Size(size),
                   KeySeq(items, ARTIST_KEY), ArtistCursorKey(next))
    ensures FirstOf(WantedArtist(artists), ArtistsPast(token), ArtistsBefore(), Size(size), items, next.Some?)
  {
    var limit := Size(size);
    var cursor := ArtistCursorKey(token);
    assert forall a: Artist :: ARTIST_KEY(a)[1] == Num(a.id);
    var seen := set a | a in artists && (cursor.Some? ==> RowLess(cursor.value, ARTIST_KEY(a)));
    forall a: Artist ensures a in seen <==> a in artists && PastCursor(Same(2, false), cursor, ARTIST_KEY(a)) {
      if cursor.Some? { RowComparison(2, false, cursor.value, ARTIST_KEY(a)); }
    }
    SeenIsRest(artists, seen, ARTIST_KEY, Same(2, false), cursor);
    hide PastCursor, FirstOf;
    var more;
    items, more := ReadPage(seen, ARTIST_KEY, Same(2, false), limit);
    next := if more then Some((items[limit - 1].sortName, items[limit - 1].id)) else None;
    ArtistPageIsFirst(artists, token, limit, items, next);
  }

  datatype TrackCursor = TrackCursor(album: Option<Id>, disc: int, number: int, id: Id)

  const TRACK_KEY: TrackRow -> Key := (t: TrackRow) => [Num(t.info.disc), Num(t.info.number), Num(t.id)]

  function MatchingTracks(tracks: Tracks, album: Option<Id>): set<TrackRow> {
    set k | k in tracks && (album.Some? ==> tracks[k].album == album.value) :: tracks[k]
  }

  /** The key a page token resumes after. */
  function TrackCursorKey(cursor: Option<TrackCursor>): Option<Key> {
    if cursor.Some? then Some([Num(cursor.value.disc), Num(cursor.value.number), Num(cursor.value.id)]) else None
  }

  ghost function WantedTrack(tracks: Tracks, album: Option<Id>): TrackRow -> bool {
    (t: TrackRow) => (exists k :: k in tracks && tracks[k] == t) && (album.Some? ==> t.album == album.value)
  }

  predicate TripleLess(a: (int, int, int), b: (int, int, int)) {
    a.0 < b.0 || (a.0 == b.0 && (a.1 < b.1 || (a.1 == b.1 && a.2 < b.2)))
  }

  /** By disc, number on the disc, and id. */
  ghost function TracksBefore(): (TrackRow, TrackRow) -> bool {
    (s: TrackRow, t: TrackRow) => TripleLess((s.info.disc, s.info.number, s.id), (t.info.disc, t.info.number, t.id))
  }

  ghost function TracksPast(token: Option<TrackCursor>): TrackRow -> bool {
    (t: TrackRow) => token.Some? ==>
      TripleLess((token.value.disc, token.value.number, token.value.id), (t.info.disc, t.info.number, t.id))
  }

  lemma TrackColumns(a: (int, int, int), b: (int, int, int))
    ensures Before(Same(3, false), [Num(a.0), Num(a.1), Num(a.2)], [Num(b.0), Num(b.1), Num(b.2)]) <==> TripleLess(a, b)
  {
    var k, l := [Num(a.0), Num(a.1), Num(a.2)], [Num(b.0), Num(b.1), Num(b.2)];
    RowComparison(3, false, k, l);
    assert k == [Num(a.0)] + [Num(a.1), Num(a.2)] && l == [Num(b.0)] + [Num(b.1), Num(b.2)];
    RowLessColumns(Num(a.0), [Num(a.1), Num(a.2)], Num(b.0), [Num(b.1), Num(b.2)]);
    assert [Num(a.1), Num(a.2)] == [Num(a.1)] + [Num(a.2)] && [Num(b.1), Num(b.2)] == [Num(b.1)] + [Num(b.2)];
    RowLessColumns(Num(a.1), [Num(a.2)], Num(b.1), [Num(b.2)]);
  }

  lemma TrackPageIsFirst(tracks: Tracks, album: Option<Id>, token: Option<TrackCursor>, limit: nat,
                         items: seq<TrackRow>, next: Option<TrackCursor>)
    requires UniqueTrackIds(tracks)
    requires limit > 0 && forall t :: t in items ==> t in MatchingTracks(tracks, album)
    requires Shaped(Same(3, false), KeysOf(MatchingTracks(tracks, album), TRACK_KEY))
    requires IsPage(Same(3, false), KeysOf(MatchingTracks(tracks, album), TRACK_KEY), TrackCursorKey(token), limit,
                    KeySeq(items, TRACK_KEY), TrackCursorKey(next))
    ensures FirstOf(WantedTrack(tracks, album), TracksPast(token), TracksBefore(), limit, items, next.Some?)
  {
    assert forall t: TrackRow :: TRACK_KEY(t)[2] == Num(t.id);
    forall s: TrackRow, t: TrackRow
      ensures TracksBefore()(s, t) <==> Before(Same(3, false), TRACK_KEY(s), TRACK_KEY(t))
    {
      TrackColumns((s.info.disc, s.info.number, s.id), (t.info.disc, t.info.number, t.id));
    }
    forall t: TrackRow
      ensures TracksPast(token)(t) <==> PastCursor(Same(3, false), TrackCursorKey(token), TRACK_KEY(t))
    {
      if token.Some? {
        TrackColumns((token.value.disc, token.value.number, token.value.id), (t.info.disc, t.info.number, t.id));
      }
    }
    PageIsFirst(MatchingTracks(tracks, album), TRACK_KEY, Same(3, false), TrackCursorKey(token), limit, items,
                TrackCursorKey(next), WantedTrack(tracks, album), TracksPast(token), TracksBefore());
  }

  method TracksPage(tracks: Tracks, album: Option<Id>, token: Option<TrackCursor>, size: int)
    returns (res: ListResult<TrackRow, TrackCursor>)
    requires UniqueTrackIds(tracks)
    ensures res == InvalidToken <==> token.Some? && token.value.album != album
    ensures res != NoSuchOrder
    ensures res.Page? ==>
      && (res.next.Some? ==> res.next.value.album == album)
      && (forall t :: t in res.items ==> t in MatchingTracks(tracks, album))
      && Shaped(Same(3, false), KeysOf(MatchingTracks(tracks, album), TRACK_KEY))
      && IsPage(Same(3, false), KeysOf(MatchingTracks(tracks, album), TRACK_KEY),
                TrackCursorKey(token), Size(size), KeySeq(res.items, TRACK_KEY), TrackCursorKey(res.next))
      && FirstOf(WantedTrack(tracks, album), TracksPast(token), TracksBefore(), Size(size), res.items, res.next.Some?)
  {
    if token.Some? && token.value.album != album {
      return InvalidToken;
    }
    var limit := Size(size);
    var cursor := TrackCursorKey(token);
    var rows := MatchingTracks(tracks, album);
    var seen := set t | t in rows && (cursor.Some? ==> RowLess(cursor.value, TRACK_KEY(t)));
    forall t: TrackRow ensures t in seen <==> t in rows && PastCursor(Same(3, false), cursor, TRACK_KEY(t)) {
      if cursor.Some? { RowComparison(3, false, cursor.value, TRACK_KEY(t)); }
    }
    SeenIsRest(rows, seen, TRACK_KEY, Same(3, false), cursor);
    assert Sortable(seen, TRACK_KEY, Same(3, false)) by {
      assert forall t: TrackRow :: TRACK_KEY(t)[2] == Num(t.id);
    }
    hide PastCursor, FirstOf, MatchingTracks;
    var items, more := ReadPage(seen, TRACK_KEY, Same(3, false), limit);
    var next := None;
    if more {
      var last := items[limit - 1];
      next := Some(TrackCursor(album, last.info.disc, last.info.number, last.id));
    }
    TrackPageIsFirst(tracks, album, token, limit, items, next);
    res := Page(items, next);
  }

  // ----- the joins of an album query -----

  /** Rows that LEFT JOIN album_images ON set_cover = 1 yields for one album. */
  function CoverJoinRows(links: map<Id, ImageLink>): nat {
    var covers := set i | i in links && links[i].cover;
    if covers == {} then 1 else |covers|
  }

  lemma CoverJoinOnce(links: map<Id, ImageLink>)
    requires AtMostOneCover(links)
    ensures CoverJoinRows(links) == 1
  {
    var covers := set i | i in links && links[i].cover;
    if covers != {} {
      var i :| i in covers;
      assert covers == {i};
    }
  }

  function Credited(artists: seq<AlbumArtist>): set<Id> {
    set a | a in artists :: a.artist
  }

  function Linked(links: seq<ArtistLink>): set<Id> {
    set l | l in links :: l.artist
  }

  /** JOIN album_artists matches an album once per credited artist: the links
      name exactly the credited artists, none of them twice. */
  lemma {:induction false} ArtistJoinOnce(artists: seq<AlbumArtist>)
    ensures Linked(LinkArtists(artists)) == Credited(artists)
    ensures |LinkArtists(artists)| == |Credited(artists)|
  {
    if artists != [] {
      var n := |artists| - 1;
      var before, links := LinkArtists(artists[..n]), LinkArtists(artists);
      ArtistJoinOnce(artists[..n]);
      assert Credited(artists) == Credited(artists[..n]) + {artists[n].artist};
      if links != before {
        assert links == before + [links[|before|]];
        assert Linked(links) == Linked(before) + {artists[n].artist};
      }
    }
  }

  // ----- whole listings -----

  /** The rows of table i, by their sort keys. */
  ghost predicate TablesOf<R>(rows: seq<set<R>>, key: R -> Key, tables: seq<set<Key>>) {
    |rows| == |tables| && forall i :: 0 <= i < |rows| ==> tables[i] == KeysOf(rows[i], key)
  }

  /** Some row with this key is in every table. */
  ghost predicate InAll<R>(rows: seq<set<R>>, key: R -> Key, k: Key) {
    forall i :: 0 <= i < |rows| ==> k in KeysOf(rows[i], key)
  }

  /** Following tokens over a table that changes in between: a row that stays in the
      filter under an unchanged key is listed exactly once. */
  lemma StableOnce<R>(desc: seq<bool>, limit: nat, key: R -> Key, rows: seq<set<R>>, tables: seq<set<Key>>,
                      pages: seq<seq<Key>>, k: Key)
    requires TablesOf(rows, key, tables) && Follows(desc, limit, None, tables, pages) && InAll(rows, key, k)
    ensures multiset(Concat(pages))[k] == 1
  {
    forall t | t in tables ensures k in t {
      var i :| 0 <= i < |tables| && tables[i] == t;
    }
    StableRowsOnce(desc, limit, None, tables, pages, k);
  }

  /** On a fixed table the pages are the filtered rows, sorted, each once. */
  lemma PagesListRows<R>(desc: seq<bool>, limit: nat, key: R -> Key, rows: set<R>, tables: seq<set<Key>>,
                         pages: seq<seq<Key>>)
    requires Sortable(rows, key, desc) && limit > 0
    requires (forall t :: t in tables ==> t == KeysOf(rows, key)) && Follows(desc, limit, None, tables, pages)
    ensures IsListing(desc, Concat(pages), KeysOf(rows, key)) && |Concat(pages)| == |rows|
  {
    var keys := KeysOf(rows, key);
    assert Shaped(desc, keys);
    PagesAreListing(desc, limit, None, keys, tables, pages);
    assert Rest(desc, keys, None) == keys;
    ListingSize(desc, Concat(pages), keys);
    OneKeyPerRow(rows, key, desc);
  }

  lemma {:induction false} OneKeyPerRow<R>(rows: set<R>, key: R -> Key, desc: seq<bool>)
    requires Sortable(rows, key, desc)
    ensures |KeysOf(rows, key)| == |rows|
    decreases |rows|
  {
    if rows == {} {
      assert KeysOf(rows, key) == {};
    } else {
      var r :| r in rows;
      OneKeyPerRow(rows - {r}, key, desc);
      assert KeysOf(rows, key) == KeysOf(rows - {r}, key) + {key(r)};
    }
  }

  // ----- albums, for every order and both directions -----

  lemma StableAlbumsOnce(query: AlbumQuery, size: int, catalogs: seq<Albums>, tables: seq<set<Key>>,
                         pages: seq<seq<Key>>, k: Key)
    requires !query.order.UnknownOrder?
    requires var rows := seq(|catalogs|, i requires 0 <= i < |catalogs| => MatchingAlbums(catalogs[i], query));
      TablesOf(rows, AlbumKeyBy(query.order), tables) && InAll(rows, AlbumKeyBy(query.order), k)
    requires Follows(AlbumDirections(query), Size(size), None, tables, pages)
    ensures multiset(Concat(pages))[k] == 1
  {
    var rows := seq(|catalogs|, i requires 0 <= i < |catalogs| => MatchingAlbums(catalogs[i], query));
    StableOnce(AlbumDirections(query), Size(size), AlbumKeyBy(query.order), rows, tables, pages, k);
  }

  lemma AlbumPagesAreListing(query: AlbumQuery, size: int, albums: Albums, tables: seq<set<Key>>, pages: seq<seq<Key>>)
    requires UniqueAlbumIds(albums) && !query.order.UnknownOrder?
    requires forall t :: t in tables ==> t == KeysOf(MatchingAlbums(albums, query), AlbumKeyBy(query.order))
    requires Follows(AlbumDirections(query), Size(size), None, tables, pages)
    ensures IsListing(AlbumDirections(query), Concat(pages),
                      KeysOf(MatchingAlbums(albums, query), AlbumKeyBy(query.order)))
    ensures |Concat(pages)| == |MatchingAlbums(albums, query)|
    ensures forall i, j, a, b
      | 0 <= i < j < |Concat(pages)| && AlbumKeyBy(query.order)(a) == Concat(pages)[i]
        && AlbumKeyBy(query.order)(b) == Concat(pages)[j] :: Precedes(query, a, b)
  {
    forall a, b
      ensures Before(AlbumDirections(query), AlbumKeyBy(query.order)(a), AlbumKeyBy(query.order)(b))
        <==> Precedes(query, a, b)
    {
      AlbumDirected(query, a, b);
    }
    hide Precedes, Before, AlbumKeyBy;
    AlbumsSortable(albums, query);
    PagesListRows(AlbumDirections(query), Size(size), AlbumKeyBy(query.order), MatchingAlbums(albums, query), tables,
                  pages);
  }

  /** A client that follows the tokens to the end; every page it read is a page of
      the same table. */
  method AllAlbums(albums: Albums, query: AlbumQuery, token: Option<AlbumCursor>, size: int)
    returns (rows: seq<AlbumRow>, ghost tables: seq<set<Key>>, ghost pages: seq<seq<Key>>)
    requires UniqueAlbumIds(albums) && !query.order.UnknownOrder? && (token.Some? ==> token.value.query == query)
    ensures var keys := KeysOf(MatchingAlbums(albums, query), AlbumKeyBy(query.order));
      && (forall t :: t in tables ==> t == keys)
      && Follows(AlbumDirections(query), Size(size), CursorKey(query, token), tables, pages)
    ensures Concat(pages) == KeySeq(rows, AlbumKeyBy(query.order))
    ensures token.None? ==> IsListing(AlbumDirections(query), KeySeq(rows, AlbumKeyBy(query.order)),
                                      KeysOf(MatchingAlbums(albums, query), AlbumKeyBy(query.order)))
    ensures forall al :: al in rows ==> al in MatchingAlbums(albums, query)
    ensures token.None? ==>
      FirstOf(WantedAlbum(albums, query), AlbumsPast(query, None), AlbumsBefore(query), |rows| + 1, rows, false)
    decreases |Left(albums, query, token)|
  {
    hide MatchingAlbums, KeysOf, IsListing, FirstOf;
    var res := AlbumsPage(albums, query, token, size);
    ghost var desc, key := AlbumDirections(query), AlbumKeyBy(query.order);
    ghost var keys := KeysOf(MatchingAlbums(albums, query), key);
    AlbumsSortable(albums, query);
    PageTakesFront(desc, keys, CursorKey(query, token), Size(size), KeySeq(res.items, key), CursorKey(query, res.next));
    rows, tables, pages := res.items, [keys], [KeySeq(res.items, key)];
    if res.next.Some? {
      var rest;
      ghost var laterTables, laterPages;
      rest, laterTables, laterPages := AllAlbums(albums, query, res.next, size);
      FollowsMore(desc, Size(size), CursorKey(query, token), keys, KeySeq(rows, key), CursorKey(query, res.next),
                  laterTables, laterPages);
      tables, pages := tables + laterTables, pages + laterPages;
      KeySeqAppend(rows, rest, key);
      rows := rows + rest;
    }
    if token.None? { AllAreFirst(query, size, albums, tables, pages, rows); }
  }

  /** What a resumed album query still lists. */
  ghost function Left(albums: Albums, query: AlbumQuery, token: Option<AlbumCursor>): seq<Key>
    requires UniqueAlbumIds(albums) && !query.order.UnknownOrder?
  {
    AlbumsSortable(albums, query);
    Listing(AlbumDirections(query),
            Rest(AlbumDirections(query), KeysOf(MatchingAlbums(albums, query), AlbumKeyBy(query.order)),
                 CursorKey(query, token)))
  }

  /** The whole listing, read as one page. */
  lemma AllAreFirst(query: AlbumQuery, size: int, albums: Albums, tables: seq<set<Key>>, pages: seq<seq<Key>>,
                    rows: seq<AlbumRow>)
    requires UniqueAlbumIds(albums) && !query.order.UnknownOrder?
    requires forall t :: t in tables ==> t == KeysOf(MatchingAlbums(albums, query), AlbumKeyBy(query.order))
    requires Follows(AlbumDirections(query), Size(size), None, tables, pages)
    requires Concat(pages) == KeySeq(rows, AlbumKeyBy(query.order))
    requires forall al :: al in rows ==> al in MatchingAlbums(albums, query)
    ensures IsListing(AlbumDirections(query), KeySeq(rows, AlbumKeyBy(query.order)),
                      KeysOf(MatchingAlbums(albums, query), AlbumKeyBy(query.order)))
    ensures FirstOf(WantedAlbum(albums, query), AlbumsPast(query, None), AlbumsBefore(query), |rows| + 1, rows, false)
  {
    AlbumPagesAreListing(query, size, albums, tables, pages);
    AlbumsSortable(albums, query);
    var desc, keys := AlbumDirections(query), KeysOf(MatchingAlbums(albums, query), AlbumKeyBy(query.order));
    assert Rest(desc, keys, None) == keys;
    ListingUnique(desc, Listing(desc, keys), KeySeq(rows, AlbumKeyBy(query.order)), keys);
    AlbumPageIsFirst(albums, query, None, |rows| + 1, rows, None);
  }

  lemma KeySeqAppend<R>(a: seq<R>, b: seq<R>, key: R -> Key)
    ensures KeySeq(a + b, key) == KeySeq(a, key) + KeySeq(b, key)
  {
  }

  /** One page, and what follows from its token. */
  lemma FollowsMore(desc: seq<bool>, limit: nat, cursor: Option<Key>, keys: set<Key>, page: seq<Key>, next: Option<Key>,
                    tables: seq<set<Key>>, pages: seq<seq<Key>>)
    requires Shaped(desc, keys) && IsPage(desc, keys, cursor, limit, page, next) && next.Some?
    requires Follows(desc, limit, next, tables, pages)
    ensures Follows(desc, limit, cursor, [keys] + tables, [page] + pages)
    ensures Concat([page] + pages) == page + Concat(pages)
  {
    assert ([keys] + tables)[1..] == tables && ([page] + pages)[1..] == pages;
  }

  // ----- artists, tracks and scans -----

  lemma StableArtistsOnce(size: int, artists: seq<set<Artist>>, tables: seq<set<Key>>, pages: seq<seq<Key>>, k: Key)
    requires TablesOf(artists, ARTIST_KEY, tables) && InAll(artists, ARTIST_KEY, k)
    requires Follows(Same(2, false), Size(size), None, tables, pages)
    ensures multiset(Concat(pages))[k] == 1
  {
    StableOnce(Same(2, false), Size(size), ARTIST_KEY, artists, tables, pages, k);
  }

  lemma ArtistPagesAreListing(size: int, artists: set<Artist>, tables: seq<set<Key>>, pages: seq<seq<Key>>)
    requires forall a, b :: a in artists && b in artists && a.id == b.id ==> a == b
    requires forall t :: t in tables ==> t == KeysOf(artists, ARTIST_KEY)
    requires Follows(Same(2, false), Size(size), None, tables, pages)
    ensures IsListing(Same(2, false), Concat(pages), KeysOf(artists, ARTIST_KEY)) && |Concat(pages)| == |artists|
  {
    assert forall a: Artist :: ARTIST_KEY(a)[1] == Num(a.id);
    PagesListRows(Same(2, false), Size(size), ARTIST_KEY, artists, tables, pages);
  }

  lemma StableTracksOnce(album: Option<Id>, size: int, catalogs: seq<Tracks>, tables: seq<set<Key>>,
                         pages: seq<seq<Key>>, k: Key)
    requires var rows := seq(|catalogs|, i requires 0 <= i < |catalogs| => MatchingTracks(catalogs[i], album));
      TablesOf(rows, TRACK_KEY, tables) && InAll(rows, TRACK_KEY, k)
    requires Follows(Same(3, false), Size(size), None, tables, pages)
    ensures multiset(Concat(pages))[k] == 1
  {
    var rows := seq(|catalogs|, i requires 0 <= i < |catalogs| => MatchingTracks(catalogs[i], album));
    StableOnce(Same(3, false), Size(size), TRACK_KEY, rows, tables, pages, k);
  }

  lemma TrackPagesAreListing(album: Option<Id>, size: int, tracks: Tracks, tables: seq<set<Key>>, pages: seq<seq<Key>>)
    requires UniqueTrackIds(tracks)
    requires forall t :: t in tables ==> t == KeysOf(MatchingTracks(tracks, album), TRACK_KEY)
    requires Follows(Same(3, false), Size(size), None, tables, pages)
    ensures IsListing(Same(3, false), Concat(pages), KeysOf(MatchingTracks(tracks, album), TRACK_KEY))
    ensures |Concat(pages)| == |MatchingTracks(tracks, album)|
  {
    assert forall t: TrackRow :: TRACK_KEY(t)[2] == Num(t.id);
    PagesListRows(Same(3, false), Size(size), TRACK_KEY, MatchingTracks(tracks, album), tables, pages);
  }

  lemma StableScansOnce(location: Option<Id>, state: Option<ScanState>, size: int, history: seq<map<Id, ScanRow>>,
                        tables: seq<set<Key>>, pages: seq<seq<Key>>, k: Key)
    requires var rows := seq(|history|, i requires 0 <= i < |history| => MatchingScans(history[i], location, state));
      TablesOf(rows, SCAN_KEY, tables) && InAll(rows, SCAN_KEY, k)
    requires Follows(SCAN_DIRECTIONS, Size(size), None, tables, pages)
    ensures multiset(Concat(pages))[k] == 1
  {
    var rows := seq(|history|, i requires 0 <= i < |history| => MatchingScans(history[i], location, state));
    StableOnce(SCAN_DIRECTIONS, Size(size), SCAN_KEY, rows, tables, pages, k);
  }

  lemma ScanPagesAreListing(scans: map<Id, ScanRow>, location: Option<Id>, state: Option<ScanState>, size: int,
                            tables: seq<set<Key>>, pages: seq<seq<Key>>)
    requires forall t :: t in tables ==> t == KeysOf(MatchingScans(scans, location, state), SCAN_KEY)
    requires Follows(SCAN_DIRECTIONS, Size(size), None, tables, pages)
    ensures IsListing(SCAN_DIRECTIONS, Concat(pages), KeysOf(MatchingScans(scans, location, state), SCAN_KEY))
    ensures |Concat(pages)| == |MatchingScans(scans, location, state)|
  {
    assert forall r: (Id, ScanRow) :: SCAN_KEY(r)[1] == Num(r.0);
    PagesListRows(SCAN_DIRECTIONS, Size(size), SCAN_KEY, MatchingScans(scans, location, state), tables, pages);
  }
}
