/** Keyset pagination in the abstract: a listing is the set of its rows' sort
    keys, each ending with the row id; a cursor is the key of the last row
    returned. Every key column has its own direction. */
module Keyset {
  import opened Basics

  /** Column values, compared the way SQLite compares numbers and binary text. */
  datatype Value = Num(n: int) | Text(s: string)

  type Key = seq<Value>

  predicate TextLess(a: string, b: string) {
    if b == "" then false
    else if a == "" then true
    else if a[0] == b[0] then TextLess(a[1..], b[1..])
    else a[0] < b[0]
  }

  predicate Less(a: Value, b: Value) {
    match (a, b)
    case (Num(m), Num(n)) => m < n
    case (Num(_), Text(_)) => true
    case (Text(_), Num(_)) => false
    case (Text(s), Text(t)) => TextLess(s, t)
  }

  /** Row-value comparison: the first differing column decides. */
  predicate RowLess(a: Key, b: Key) {
    if a == [] || b == [] then false
    else if a[0] == b[0] then RowLess(a[1..], b[1..])
    else Less(a[0], b[0])
  }

  /** ORDER BY with a direction per column; true means DESC. */
  predicate Before(desc: seq<bool>, a: Key, b: Key) {
    if desc == [] || a == [] || b == [] then false
    else if a[0] == b[0] then Before(desc[1..], a[1..], b[1..])
    else if desc[0] then Less(b[0], a[0])
    else Less(a[0], b[0])
  }

  // ----- a strict total order -----

  lemma {:induction false} TextTotal(a: string, b: string)
    ensures !TextLess(a, a)
    ensures TextLess(a, b) || TextLess(b, a) || a == b
    ensures !(TextLess(a, b) && TextLess(b, a))
    decreases |a|
  {
    if a != "" {
      TextTotal(a[1..], if b == "" then "" else b[1..]);
      assert b != "" && a[0] == b[0] && a[1..] == b[1..] ==> a == [a[0]] + a[1..] == b;
    }
  }

  lemma {:induction false} TextTransitive(a: string, b: string, c: string)
    requires TextLess(a, b) && TextLess(b, c)
    ensures TextLess(a, c)
    decreases |a|
  {
    if a != "" && a[0] == b[0] == c[0] { TextTransitive(a[1..], b[1..], c[1..]); }
  }

  lemma LessTotal(a: Value, b: Value)
    ensures !Less(a, a)
    ensures Less(a, b) || Less(b, a) || a == b
    ensures !(Less(a, b) && Less(b, a))
  {
    if a.Text? { TextTotal(a.s, if b.Text? then b.s else ""); }
  }

  lemma LessTransitive(a: Value, b: Value, c: Value)
    requires Less(a, b) && Less(b, c)
    ensures Less(a, c)
  {
    if a.Text? { TextTransitive(a.s, b.s, c.s); }
  }

  lemma {:induction false} BeforeTotal(desc: seq<bool>, a: Key, b: Key)
    requires |a| == |b| == |desc|
    ensures !Before(desc, a, a)
    ensures Before(desc, a, b) || Before(desc, b, a) || a == b
    ensures !(Before(desc, a, b) && Before(desc, b, a))
    decreases |desc|
  {
    if desc != [] {
      LessTotal(a[0], b[0]);
      BeforeTotal(desc[1..], a[1..], b[1..]);
      assert a[0] == b[0] && a[1..] == b[1..] ==> a == [a[0]] + a[1..] == b;
    }
  }

  lemma {:induction false} BeforeTransitive(desc: seq<bool>, a: Key, b: Key, c: Key)
    requires Before(desc, a, b) && Before(desc, b, c)
    ensures Before(desc, a, c)
    decreases |desc|
  {
    LessTotal(a[0], b[0]);
    LessTotal(b[0], c[0]);
    if a[0] == b[0] == c[0] {
      BeforeTransitive(desc[1..], a[1..], b[1..], c[1..]);
    } else if a[0] != b[0] && b[0] != c[0] {
      if desc[0] { LessTransitive(c[0], b[0], a[0]); } else { LessTransitive(a[0], b[0], c[0]); }
      LessTotal(a[0], c[0]);
    }
  }

  // ----- the sorted listing -----

  ghost predicate Shaped(desc: seq<bool>, keys: set<Key>) {
    forall k :: k in keys ==> |k| == |desc|
  }

  ghost predicate Increasing(desc: seq<bool>, s: seq<Key>) {
    forall i, j :: 0 <= i < j < |s| ==> Before(desc, s[i], s[j])
  }

  ghost predicate Lists(s: seq<Key>, keys: set<Key>) {
    forall k :: k in s <==> k in keys
  }

  /** s is the listing of `keys` in order. */
  ghost predicate IsListing(desc: seq<bool>, s: seq<Key>, keys: set<Key>) {
    Increasing(desc, s) && Lists(s, keys)
  }

  lemma TailListing(desc: seq<bool>, s: seq<Key>, keys: set<Key>)
    requires Shaped(desc, keys) && IsListing(desc, s, keys) && s != []
    ensures IsListing(desc, s[1..], keys - {s[0]})
  {
    assert s[0] in keys;
    forall k ensures k in s[1..] <==> k in keys - {s[0]} {
      BeforeTotal(desc, s[0], s[0]);
      if k in s && k != s[0] {
        var i :| 0 <= i < |s| && s[i] == k;
        assert s[1..][i - 1] == k;
      }
    }
  }

  lemma {:induction false} ListingSize(desc: seq<bool>, s: seq<Key>, keys: set<Key>)
    requires Shaped(desc, keys) && IsListing(desc, s, keys)
    ensures |s| == |keys|
    decreases |s|
  {
    if s == [] {
      assert keys == {};
    } else {
      assert s[0] in keys;
      TailListing(desc, s, keys);
      ListingSize(desc, s[1..], keys - {s[0]});
    }
  }

  lemma {:induction false} ListingUnique(desc: seq<bool>, s: seq<Key>, t: seq<Key>, keys: set<Key>)
    requires Shaped(desc, keys) && IsListing(desc, s, keys) && IsListing(desc, t, keys)
    ensures s == t
    decreases |s|
  {
    ListingSize(desc, s, keys);
    ListingSize(desc, t, keys);
    if s != [] {
      assert s[0] in keys;
      assert t[0] in keys && s[0] in t && t[0] in s;
      if s[0] != t[0] {
        BeforeTotal(desc, s[0], t[0]);
        assert false;
      }
      TailListing(desc, s, keys);
      TailListing(desc, t, keys);
      ListingUnique(desc, s[1..], t[1..], keys - {s[0]});
      assert s == [s[0]] + s[1..] && t == [t[0]] + t[1..];
    }
  }

  /** The first key of a nonempty listing. */
  lemma {:induction false} FirstKey(desc: seq<bool>, keys: set<Key>) returns (first: Key)
    requires keys != {} && Shaped(desc, keys)
    ensures first in keys && forall k :: k in keys && k != first ==> Before(desc, first, k)
    decreases |keys|
  {
    var k :| k in keys;
    first := k;
    if keys != {k} {
      assert keys - {k} != {};
      var other := FirstKey(desc, keys - {k});
      BeforeTotal(desc, k, other);
      if Before(desc, other, k) {
        first := other;
      } else {
        forall x | x in keys && x != k ensures Before(desc, k, x) {
          if x != other { BeforeTransitive(desc, k, other, x); }
        }
      }
    }
  }

  lemma {:induction false} ListingExists(desc: seq<bool>, keys: set<Key>) returns (s: seq<Key>)
    requires Shaped(desc, keys)
    ensures IsListing(desc, s, keys)
    decreases |keys|
  {
    if keys == {} {
      s := [];
    } else {
      var first := FirstKey(desc, keys);
      var rest := ListingExists(desc, keys - {first});
      s := [first] + rest;
      forall i, j | 0 <= i < j < |s| ensures Before(desc, s[i], s[j]) {
        if i == 0 { assert rest[j - 1] in keys - {first}; }
      }
      assert Increasing(desc, s);
    }
  }

  lemma HasListing(desc: seq<bool>, keys: set<Key>)
    requires Shaped(desc, keys)
    ensures exists s :: IsListing(desc, s, keys)
  {
    var s := ListingExists(desc, keys);
  }

  /** What one SELECT with this ORDER BY returns over a whole table. */
  ghost function Listing(desc: seq<bool>, keys: set<Key>): (s: seq<Key>)
    requires Shaped(desc, keys)
    ensures IsListing(desc, s, keys)
  {
    HasListing(desc, keys);
    var s :| IsListing(desc, s, keys);
    s
  }

  // ----- pages -----

  predicate PastCursor(desc: seq<bool>, cursor: Option<Key>, k: Key) {
    cursor.Some? ==> Before(desc, cursor.value, k)
  }

  /** The rows that a resumed query still sees. */
  function Rest(desc: seq<bool>, keys: set<Key>, cursor: Option<Key>): set<Key> {
    set k | k in keys && PastCursor(desc, cursor, k)
  }

  /** One page: LIMIT n + 1 rows past the cursor, of which at most n are returned;
      the token is the last returned key, and absent when nothing is left. */
  ghost predicate IsPage(desc: seq<bool>, keys: set<Key>, cursor: Option<Key>, limit: nat, page: seq<Key>,
                         next: Option<Key>)
    requires Shaped(desc, keys)
  {
    IsCut(Listing(desc, Rest(desc, keys, cursor)), limit, page, next)
  }

  /** The first `limit` rows, and a token unless they are all. */
  ghost predicate IsCut(all: seq<Key>, limit: nat, page: seq<Key>, next: Option<Key>) {
    if |all| <= limit then page == all && next == None
    else page == all[..limit] && limit > 0 && next == Some(all[limit - 1])
  }

  /** What remains after a full page starts right behind its last row. */
  lemma RestAfterPage(desc: seq<bool>, keys: set<Key>, cursor: Option<Key>, limit: nat)
    requires Shaped(desc, keys) && limit > 0 && (cursor.Some? ==> |cursor.value| == |desc|)
    requires |Listing(desc, Rest(desc, keys, cursor))| > limit
    ensures var all := Listing(desc, Rest(desc, keys, cursor));
      Listing(desc, Rest(desc, keys, Some(all[limit - 1]))) == all[limit..]
  {
    var all := Listing(desc, Rest(desc, keys, cursor));
    var last := all[limit - 1];
    assert last in all;
    var rest := Rest(desc, keys, Some(last));
    forall k ensures k in all[limit..] <==> k in rest {
      BeforeTotal(desc, last, last);
      if k in all[limit..] {
        var i :| limit <= i < |all| && all[i] == k;
        assert Before(desc, last, k) && k in all;
      }
      if k in rest {
        if cursor.Some? { BeforeTransitive(desc, cursor.value, last, k); }
        assert k in all;
        var i :| 0 <= i < |all| && all[i] == k;
        BeforeTotal(desc, last, k);
        assert i >= limit;
        assert all[limit..][i - limit] == k;
      }
    }
    ListingUnique(desc, Listing(desc, rest), all[limit..], rest);
  }

  /** A page comes off the front of what its cursor still lists. */
  lemma PageTakesFront(desc: seq<bool>, keys: set<Key>, cursor: Option<Key>, limit: nat, page: seq<Key>,
                       next: Option<Key>)
    requires Shaped(desc, keys) && limit > 0 && (cursor.Some? ==> |cursor.value| == |desc|)
    requires IsPage(desc, keys, cursor, limit, page, next)
    ensures next.None? ==> page == Listing(desc, Rest(desc, keys, cursor))
    ensures next.Some? ==> page != [] && |next.value| == |desc|
    ensures next.Some? ==> page + Listing(desc, Rest(desc, keys, next)) == Listing(desc, Rest(desc, keys, cursor))
  {
    var all := Listing(desc, Rest(desc, keys, cursor));
    if |all| > limit {
      assert all[limit - 1] in all;
      RestAfterPage(desc, keys, cursor, limit);
      assert all == all[..limit] + all[limit..];
    }
  }

  function Concat(pages: seq<seq<Key>>): seq<Key> {
    if pages == [] then [] else pages[0] + Concat(pages[1..])
  }

  /** Following the tokens: page i is read from tables[i], which may have changed
      in any way since the page before; the last page has no token. */
  ghost predicate Follows(desc: seq<bool>, limit: nat, cursor: Option<Key>, tables: seq<set<Key>>, pages: seq<seq<Key>>)
    decreases |tables|
  {
    && |tables| == |pages| > 0 && Shaped(desc, tables[0])
    && exists next :: IsPage(desc, tables[0], cursor, limit, pages[0], next)
         && (if next.None? then |tables| == 1
             else |tables| > 1 && Follows(desc, limit, next, tables[1..], pages[1..]))
  }

  /** The token that came with the first page. */
  lemma Token(desc: seq<bool>, limit: nat, cursor: Option<Key>, tables: seq<set<Key>>, pages: seq<seq<Key>>)
    returns (next: Option<Key>)
    requires Follows(desc, limit, cursor, tables, pages)
    ensures IsPage(desc, tables[0], cursor, limit, pages[0], next)
    ensures next.None? ==> |tables| == 1 && Concat(pages) == pages[0]
    ensures next.Some? ==> |tables| > 1 && Follows(desc, limit, next, tables[1..], pages[1..])
  {
    next :| IsPage(desc, tables[0], cursor, limit, pages[0], next)
      && (if next.None? then |tables| == 1
          else |tables| > 1 && Follows(desc, limit, next, tables[1..], pages[1..]));
    if next.None? {
      assert Concat(pages[1..]) == [];
    }
  }

  // ----- on a fixed table -----

  /** On a fixed table the pages are the full sorted list, cut every `limit` rows. */
  lemma {:induction false} PagesAreListing(desc: seq<bool>, limit: nat, cursor: Option<Key>, keys: set<Key>,
                                           tables: seq<set<Key>>, pages: seq<seq<Key>>)
    requires Shaped(desc, keys) && limit > 0 && (cursor.Some? ==> |cursor.value| == |desc|)
    requires Follows(desc, limit, cursor, tables, pages) && forall t :: t in tables ==> t == keys
    ensures Concat(pages) == Listing(desc, Rest(desc, keys, cursor))
    ensures forall i :: 0 <= i < |pages| - 1 ==> |pages[i]| == limit
    ensures |pages[|pages| - 1]| <= limit && (|pages| > 1 ==> pages[|pages| - 1] != [])
    decreases |tables|
  {
    assert tables[0] in tables;
    var all := Listing(desc, Rest(desc, keys, cursor));
    var next := Token(desc, limit, cursor, tables, pages);
    if next.Some? {
      assert all[limit - 1] in all;
      assert forall t :: t in tables[1..] ==> t in tables;
      RestAfterPage(desc, keys, cursor, limit);
      PagesAreListing(desc, limit, next, keys, tables[1..], pages[1..]);
      assert all == all[..limit] + all[limit..];
      LastPage(pages[1..]);
    }
  }

  lemma LastPage(pages: seq<seq<Key>>)
    requires |pages| > 0
    ensures |pages| == 1 ==> Concat(pages) == pages[0]
  {
  }

  /** Following the tokens of a fixed table ends. */
  lemma {:induction false} PagingEnds(desc: seq<bool>, limit: nat, cursor: Option<Key>, keys: set<Key>)
    returns (tables: seq<set<Key>>, pages: seq<seq<Key>>)
    requires Shaped(desc, keys) && limit > 0 && (cursor.Some? ==> |cursor.value| == |desc|)
    ensures Follows(desc, limit, cursor, tables, pages) && forall t :: t in tables ==> t == keys
    decreases |Listing(desc, Rest(desc, keys, cursor))|
  {
    var all := Listing(desc, Rest(desc, keys, cursor));
    if |all| <= limit {
      tables, pages := [keys], [all];
      assert IsPage(desc, keys, cursor, limit, pages[0], None);
    } else {
      assert all[limit - 1] in all;
      RestAfterPage(desc, keys, cursor, limit);
      var next := Some(all[limit - 1]);
      var laterTables, laterPages := PagingEnds(desc, limit, next, keys);
      tables, pages := [keys] + laterTables, [all[..limit]] + laterPages;
      assert tables[1..] == laterTables && pages[1..] == laterPages;
      assert IsPage(desc, keys, cursor, limit, pages[0], next);
    }
  }

  // ----- while the table changes -----

  /** Every key on a later page lies past the cursor. */
  lemma {:induction false} LaterPages(desc: seq<bool>, limit: nat, cursor: Option<Key>,
                                      tables: seq<set<Key>>, pages: seq<seq<Key>>, k: Key)
    requires Follows(desc, limit, cursor, tables, pages) && k in Concat(pages)
    ensures PastCursor(desc, cursor, k) && |k| == |desc|
    decreases |tables|
  {
    var next := Token(desc, limit, cursor, tables, pages);
    var all := Listing(desc, Rest(desc, tables[0], cursor));
    if k in pages[0] {
      assert k in all;
    } else {
      assert k in Concat(pages[1..]);
      LaterPages(desc, limit, next, tables[1..], pages[1..], k);
      assert next.value in all;
      if cursor.Some? { BeforeTransitive(desc, cursor.value, next.value, k); }
    }
  }

  lemma IncreasingOnce(desc: seq<bool>, s: seq<Key>, k: Key)
    requires Increasing(desc, s) && |k| == |desc|
    ensures multiset(s)[k] == if k in s then 1 else 0
  {
    BeforeTotal(desc, k, k);
    DistinctCount(s, k);
  }

  /** Whatever is inserted, changed or deleted between pages, no key comes twice,
      and a row that stays in the listing under its key comes exactly once. */
  lemma {:induction false} StableRowsOnce(desc: seq<bool>, limit: nat, cursor: Option<Key>,
                                          tables: seq<set<Key>>, pages: seq<seq<Key>>, k: Key)
    requires Follows(desc, limit, cursor, tables, pages)
    ensures multiset(Concat(pages))[k] <= 1
    ensures PastCursor(desc, cursor, k) && (forall t :: t in tables ==> k in t) ==> multiset(Concat(pages))[k] == 1
    decreases |tables|
  {
    assert tables[0] in tables;
    var next := Token(desc, limit, cursor, tables, pages);
    var all := Listing(desc, Rest(desc, tables[0], cursor));
    assert forall x :: x in pages[0] ==> x in all;
    if k in pages[0] { IncreasingOnce(desc, pages[0], k); }
    if next.Some? {
      StableRowsOnce(desc, limit, next, tables[1..], pages[1..], k);
      assert multiset(Concat(pages)) == multiset(pages[0]) + multiset(Concat(pages[1..]));
      NotOnBoth(desc, limit, cursor, tables, pages, next, k);
      if PastCursor(desc, cursor, k) && k in tables[0] && k !in pages[0] {
        assert k in all;
        var i :| 0 <= i < |all| && all[i] == k;
        assert forall j :: 0 <= j < limit ==> pages[0][j] == all[j];
      }
    }
  }

  /** A key of the first page lies at or before the token, later keys past it. */
  lemma NotOnBoth(desc: seq<bool>, limit: nat, cursor: Option<Key>, tables: seq<set<Key>>, pages: seq<seq<Key>>,
                  next: Option<Key>, k: Key)
    requires |tables| == |pages| > 1 && Shaped(desc, tables[0])
    requires IsPage(desc, tables[0], cursor, limit, pages[0], next) && next.Some?
    requires Follows(desc, limit, next, tables[1..], pages[1..])
    ensures !(k in pages[0] && k in Concat(pages[1..]))
  {
    if k in pages[0] && k in Concat(pages[1..]) {
      var all := Listing(desc, Rest(desc, tables[0], cursor));
      LaterPages(desc, limit, next, tables[1..], pages[1..], k);
      var i :| 0 <= i < limit && all[i] == k;
      BeforeTotal(desc, all[limit - 1], k);
      assert false;
    }
  }
}
