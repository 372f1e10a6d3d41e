/** How the listings order rows, by the rows' own fields. */
module RowOrder {
  import opened Basics
  import opened Catalog
  import opened Keyset

  /** The first character that differs decides; a prefix comes first. */
  lemma {:induction false} TextLessIff(a: string, b: string)
    ensures TextLess(a, b) <==>
      exists n: nat :: n <= |a| && n < |b| && a[..n] == b[..n] && (n == |a| || a[n] < b[n])
    decreases |a|
  {
    if a == "" || b == "" {
      assert a[..0] == b[..0];
    } else if a[0] != b[0] {
      assert a[0] < b[0] ==> a[..0] == b[..0];
      forall n: nat | 0 < n <= |a| && n < |b| ensures a[..n] != b[..n] { assert a[..n][0] != b[..n][0]; }
    } else {
      var x, y := a[1..], b[1..];
      TextLessIff(x, y);
      if n: nat :| n <= |x| && n < |y| && x[..n] == y[..n] && (n == |x| || x[n] < y[n]) {
        assert a[..n + 1] == [a[0]] + x[..n] == b[..n + 1];
      }
      if n: nat :| n <= |a| && n < |b| && a[..n] == b[..n] && (n == |a| || a[n] < b[n]) {
        assert n > 0;
        assert x[..n - 1] == a[..n][1..] == b[..n][1..] == y[..n - 1];
      }
    }
  }

  /** Dates as listed: a blank one counts as the year 9999. */
  ghost predicate DateLess(a: string, b: string) {
    if a == "" then b != "" && TextLess("9999", b)
    else if b == "" then TextLess(a, "9999")
    else TextLess(a, b)
  }

  ghost predicate SameDate(a: string, b: string) {
    a == b || (a == "" && b == "9999") || (a == "9999" && b == "")
  }

  /** A blank date comes after every date before 9999. */
  lemma BlankDatesLast(a: string)
    requires a != "" && a[0] < '9'
    ensures DateLess(a, "") && !DateLess("", a) && !SameDate(a, "")
  {
  }

  predicate TitleLess(a: AlbumRow, b: AlbumRow) {
    TextLess(a.info.title, b.info.title) || (a.info.title == b.info.title && a.id < b.id)
  }

  ghost predicate ReleaseLess(a: AlbumRow, b: AlbumRow) {
    DateLess(a.info.releaseDate, b.info.releaseDate)
    || (SameDate(a.info.releaseDate, b.info.releaseDate) && TitleLess(a, b))
  }

  ghost predicate OriginalLess(a: AlbumRow, b: AlbumRow) {
    DateLess(a.info.originalDate, b.info.originalDate)
    || (SameDate(a.info.originalDate, b.info.originalDate) && TitleLess(a, b))
  }

  ghost predicate ArtistLess(a: AlbumRow, b: AlbumRow) {
    TextLess(a.artistSort, b.artistSort) || (a.artistSort == b.artistSort && OriginalLess(a, b))
  }

  // ----- row values, column by column -----

  lemma RowLessColumns(x: Value, a: Key, y: Value, b: Key)
    ensures RowLess([x] + a, [y] + b) <==> if x == y then RowLess(a, b) else Less(x, y)
  {
    assert ([x] + a)[1..] == a && ([y] + b)[1..] == b;
  }

  lemma RowLessId(a: Id, b: Id)
    ensures RowLess([Num(a)], [Num(b)]) <==> a < b
  {
  }

  lemma RowLessTitle(a: AlbumRow, b: AlbumRow)
    ensures RowLess([Text(a.info.title), Num(a.id)], [Text(b.info.title), Num(b.id)]) <==> TitleLess(a, b)
  {
    RowLessColumns(Text(a.info.title), [Num(a.id)], Text(b.info.title), [Num(b.id)]);
    assert [Text(a.info.title), Num(a.id)] == [Text(a.info.title)] + [Num(a.id)];
    assert [Text(b.info.title), Num(b.id)] == [Text(b.info.title)] + [Num(b.id)];
    RowLessId(a.id, b.id);
    TextTotal(a.info.title, b.info.title);
  }

  /** A date column, its blanks replaced, before the title. */
  lemma RowLessDate(x: string, y: string, a: AlbumRow, b: AlbumRow, less: bool)
    requires less <==> DateLess(x, y) || (SameDate(x, y) && TitleLess(a, b))
    ensures var (u, v) := (if x == "" then "9999" else x, if y == "" then "9999" else y);
      RowLess([Text(u), Text(a.info.title), Num(a.id)], [Text(v), Text(b.info.title), Num(b.id)]) <==> less
  {
    var (u, v) := (if x == "" then "9999" else x, if y == "" then "9999" else y);
    var s, t := [Text(a.info.title), Num(a.id)], [Text(b.info.title), Num(b.id)];
    RowLessColumns(Text(u), s, Text(v), t);
    assert [Text(u), Text(a.info.title), Num(a.id)] == [Text(u)] + s;
    assert [Text(v), Text(b.info.title), Num(b.id)] == [Text(v)] + t;
    RowLessTitle(a, b);
    TextTotal(u, v);
    hide RowLess, TextLess, TitleLess;
  }
}
