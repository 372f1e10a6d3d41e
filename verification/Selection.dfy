/** One SELECT with a sort key, a cursor and a limit: row by row, by the rows' keys,
    and by what the keys mean. */
module Selection {
  import opened Basics
  import opened Keyset

  function KeysOf<R>(rows: set<R>, key: R -> Key): set<Key> {
    set r | r in rows :: key(r)
  }

  function KeySeq<R>(items: seq<R>, key: R -> Key): seq<Key> {
    seq(|items|, i requires 0 <= i < |items| => key(items[i]))
  }

  /** The sort key tells rows apart, and has one value per direction. */
  ghost predicate Sortable<R>(rows: set<R>, key: R -> Key, desc: seq<bool>) {
    && (forall r :: r in rows ==> |key(r)| == |desc|)
    && (forall r, q :: r in rows && q in rows && key(r) == key(q) ==> r == q)
  }

  /** Filtering the rows is filtering their keys. */
  lemma SeenIsRest<R>(rows: set<R>, seen: set<R>, key: R -> Key, desc: seq<bool>, cursor: Option<Key>)
    requires forall r :: r in seen <==> r in rows && PastCursor(desc, cursor, key(r))
    ensures KeysOf(seen, key) == Rest(desc, KeysOf(rows, key), cursor)
  {
    hide PastCursor;
  }

  lemma ListingFirst(desc: seq<bool>, keys: set<Key>, first: Key)
    requires Shaped(desc, keys) && first in keys
    requires forall k :: k in keys && k != first ==> Before(desc, first, k)
    ensures Listing(desc, keys) == [first] + Listing(desc, keys - {first})
  {
    var rest := Listing(desc, keys - {first});
    var s := [first] + rest;
    forall i, j | 0 <= i < j < |s| ensures Before(desc, s[i], s[j]) {
      assert s[j] == rest[j - 1] && rest[j - 1] in rest;
    }
    ListingUnique(desc, Listing(desc, keys), s, keys);
  }

  method FirstRow<R(==)>(rows: set<R>, key: R -> Key, desc: seq<bool>) returns (first: R)
    requires rows != {} && Sortable(rows, key, desc)
    ensures first in rows && forall r :: r in rows && r != first ==> Before(desc, key(first), key(r))
  {
    first :| first in rows;
    var left := rows - {first};
    while left != {}
      invariant first in rows && left <= rows && first !in left
      invariant forall r :: r in rows - left && r != first ==> Before(desc, key(first), key(r))
      decreases left
    {
      var r :| r in left;
      BeforeTotal(desc, key(first), key(r));
      if Before(desc, key(r), key(first)) {
        forall q | q in rows - left && q != first ensures Before(desc, key(r), key(q)) {
          BeforeTransitive(desc, key(r), key(first), key(q));
        }
        first := r;
      }
      left := left - {r};
    }
  }

  lemma SelectStep<R>(left: set<R>, key: R -> Key, desc: seq<bool>, items: seq<R>, first: R)
    requires Sortable(left, key, desc) && first in left
    requires forall r :: r in left && r != first ==> Before(desc, key(first), key(r))
    ensures KeySeq(items, key) + Listing(desc, KeysOf(left, key))
      == KeySeq(items + [first], key) + Listing(desc, KeysOf(left - {first}, key))
  {
    assert KeysOf(left, key) - {key(first)} == KeysOf(left - {first}, key);
    ListingFirst(desc, KeysOf(left, key), key(first));
    assert KeySeq(items + [first], key) == KeySeq(items, key) + [key(first)];
  }

  /** SELECT ... ORDER BY ... LIMIT bound, row by row. */
  method Select<R(==)>(rows: set<R>, key: R -> Key, desc: seq<bool>, bound: nat) returns (items: seq<R>)
    requires Sortable(rows, key, desc)
    ensures forall r :: r in items ==> r in rows
    ensures var all := Listing(desc, KeysOf(rows, key));
      |items| == (if |all| < bound then |all| else bound) && KeySeq(items, key) == all[..|items|]
  {
    items := [];
    var left := rows;
    ghost var all := Listing(desc, KeysOf(rows, key));
    while |items| < bound && left != {}
      invariant left <= rows && |items| <= bound
      invariant forall r :: r in items ==> r in rows
      invariant all == KeySeq(items, key) + Listing(desc, KeysOf(left, key))
      decreases left
    {
      var first := FirstRow(left, key, desc);
      SelectStep(left, key, desc, items, first);
      items := items + [first];
      left := left - {first};
    }
    if left == {} {
      assert KeysOf(left, key) == {};
      ListingSize(desc, Listing(desc, KeysOf(left, key)), KeysOf(left, key));
    }
  }

  /** Reads limit + 1 of the rows that the WHERE clause let through, and reports
      whether the last one was dropped. */
  method ReadPage<R(==)>(rows: set<R>, key: R -> Key, desc: seq<bool>, limit: nat) returns (items: seq<R>, more: bool)
    requires limit > 0 && Sortable(rows, key, desc)
    ensures forall r :: r in items ==> r in rows
    ensures more ==> |items| == limit
    ensures IsCut(Listing(desc, KeysOf(rows, key)), limit, KeySeq(items, key),
                  if more then Some(key(items[limit - 1])) else None)
  {
    items := Select(rows, key, desc, limit + 1);
    more := |items| > limit;
    if more {
      assert KeySeq(items[..limit], key) == KeySeq(items, key)[..limit];
      assert forall r :: r in items[..limit] ==> r in items;
      items := items[..limit];
      assert KeySeq(items, key)[limit - 1] == key(items[limit - 1]);
    }
  }

  /** A page by the rows' own fields: of the wanted rows past the cursor the first ones,
      in order and at most `limit`, with a token if and only if some are left. */
  ghost predicate FirstOf<R(!new)>(wanted: R -> bool, past: R -> bool, before: (R, R) -> bool, limit: nat,
                                   items: seq<R>, more: bool)
  {
    && |items| <= limit
    && (forall i | 0 <= i < |items| :: wanted(items[i]) && past(items[i]))
    && (forall i, j | 0 <= i < j < |items| :: before(items[i], items[j]))
    && (forall r | wanted(r) && past(r) && r !in items ::
          |items| == limit && forall i | 0 <= i < |items| :: before(items[i], r))
    && (more <==> exists r :: wanted(r) && past(r) && r !in items)
  }

  /** The fields mean what the keys do. */
  ghost predicate Means<R(!new)>(rows: set<R>, key: R -> Key, desc: seq<bool>, cursor: Option<Key>, wanted: R -> bool,
                                 past: R -> bool, before: (R, R) -> bool)
  {
    && (forall r :: wanted(r) <==> r in rows)
    && (forall r | r in rows :: past(r) <==> PastCursor(desc, cursor, key(r)))
    && (forall r, q | r in rows && q in rows :: before(r, q) <==> Before(desc, key(r), key(q)))
  }

  lemma PageIsFirst<R(!new)>(rows: set<R>, key: R -> Key, desc: seq<bool>, cursor: Option<Key>, limit: nat,
                             items: seq<R>, next: Option<Key>, wanted: R -> bool, past: R -> bool,
                             before: (R, R) -> bool)
    requires Sortable(rows, key, desc) && limit > 0 && forall r :: r in items ==> r in rows
    requires Shaped(desc, KeysOf(rows, key)) && IsPage(desc, KeysOf(rows, key), cursor, limit, KeySeq(items, key), next)
    requires Means(rows, key, desc, cursor, wanted, past, before)
    ensures FirstOf(wanted, past, before, limit, items, next.Some?)
  {
    var all := Listing(desc, Rest(desc, KeysOf(rows, key), cursor));
    var keys := KeySeq(items, key);
    forall i | 0 <= i < |items| ensures keys[i] == all[i] && wanted(items[i]) && past(items[i]) {
      assert all[i] in all;
    }
    assert forall i, j | 0 <= i < j < |items| :: before(items[i], items[j]);
    forall r | wanted(r) && past(r) && r !in items
      ensures next.Some? && |items| == limit && forall i | 0 <= i < |items| :: before(items[i], r)
    {
      LeftOut(rows, key, desc, cursor, limit, items, next, r);
    }
    if next.Some? {
      var r := FirstLeft(rows, key, desc, cursor, limit, items, next);
      assert wanted(r) && past(r);
    }
  }

  /** A row past the cursor that is not on the page comes after it. */
  lemma LeftOut<R(!new)>(rows: set<R>, key: R -> Key, desc: seq<bool>, cursor: Option<Key>, limit: nat, items: seq<R>,
                         next: Option<Key>, r: R)
    requires Sortable(rows, key, desc) && limit > 0 && forall q :: q in items ==> q in rows
    requires Shaped(desc, KeysOf(rows, key)) && IsPage(desc, KeysOf(rows, key), cursor, limit, KeySeq(items, key), next)
    requires r in rows && PastCursor(desc, cursor, key(r)) && r !in items
    ensures next.Some? && |items| == limit && forall i | 0 <= i < |items| :: Before(desc, key(items[i]), key(r))
  {
    var all := Listing(desc, Rest(desc, KeysOf(rows, key), cursor));
    assert key(r) in Rest(desc, KeysOf(rows, key), cursor);
    assert key(r) in all;
    var n :| 0 <= n < |all| && all[n] == key(r);
    assert |KeySeq(items, key)| == |items|;
    forall i | 0 <= i < |items| ensures all[i] == key(items[i]) && all[i] != key(r) {
      assert KeySeq(items, key)[i] == key(items[i]);
      assert items[i] in rows;
    }
  }

  /** What a token stands for. */
  lemma FirstLeft<R(!new)>(rows: set<R>, key: R -> Key, desc: seq<bool>, cursor: Option<Key>, limit: nat,
                           items: seq<R>, next: Option<Key>)
    returns (r: R)
    requires Sortable(rows, key, desc) && limit > 0 && next.Some?
    requires Shaped(desc, KeysOf(rows, key)) && IsPage(desc, KeysOf(rows, key), cursor, limit, KeySeq(items, key), next)
    ensures r in rows && PastCursor(desc, cursor, key(r)) && r !in items
  {
    var all := Listing(desc, Rest(desc, KeysOf(rows, key), cursor));
    assert all[limit] in all;
    r :| r in rows && key(r) == all[limit];
    forall i | 0 <= i < |items| ensures key(items[i]) != key(r) {
      assert KeySeq(items, key)[i] == all[i];
      BeforeTotal(desc, all[i], all[limit]);
    }
  }
}
