/** The artist tables: which artists hold a normalized name as alias. */
module Artists {
  import opened Basics

  type Aliases = map<string, set<Id>>

  predicate Known(aliases: Aliases, norm: string) {
    norm in aliases && aliases[norm] != {}
  }

  /** One alias row more. */
  function Inserted(aliases: Aliases, norm: string, id: Id): Aliases {
    aliases[norm := (if norm in aliases then aliases[norm] else {}) + {id}]
  }

  ghost predicate IsOldest(ids: set<Id>, id: Id) {
    id in ids && forall x :: x in ids ==> id <= x
  }

  lemma {:induction false} HasOldest(ids: set<Id>)
    requires ids != {}
    ensures exists id :: IsOldest(ids, id)
  {
    var x :| x in ids;
    if ids == {x} {
      assert IsOldest(ids, x);
    } else {
      var rest := ids - {x};
      assert ids == rest + {x};
      HasOldest(rest);
      var y :| IsOldest(rest, y);
      assert IsOldest(ids, if x < y then x else y);
    }
  }

  /** The artist that an ambiguous name means. */
  ghost function OldestArtist(aliases: Aliases, norm: string): (id: Id)
    requires Known(aliases, norm)
    ensures IsOldest(aliases[norm], id)
  {
    HasOldest(aliases[norm]);
    var id :| IsOldest(aliases[norm], id);
    id
  }

  ghost predicate OlderThan(aliases: Aliases, next: Id) {
    forall n, id | n in aliases && id in aliases[n] :: id < next
  }

  class ArtistStore {
    var artists: map<Id, ArtistRow>
    var aliases: Aliases
    var nextId: Id

    constructor ()
      ensures artists == map[] && aliases == map[] && Valid()
    {
      artists, aliases, nextId := map[], map[], 1;
    }

    ghost predicate Valid()
      reads this
    {
      OlderThan(aliases, nextId) && forall id :: id in artists ==> id < nextId
    }

    method NewId() returns (id: Id)
      requires Valid()
      modifies `nextId
      ensures Valid() && id == old(nextId) && nextId == id + 1
    {
      id, nextId := nextId, nextId + 1;
    }

    /** The artists whose alias matches, oldest first. */
    method ArtistsByAlias(norm: string) returns (matches: seq<Id>)
      ensures forall id :: id in matches <==> norm in aliases && id in aliases[norm]
      ensures forall i, j :: 0 <= i < j < |matches| ==> matches[i] < matches[j]
    {
      matches := [];
      var left := if norm in aliases then aliases[norm] else {};
      ghost var all := left;
      while left != {}
        invariant left <= all && forall id :: id in matches <==> id in all - left
        invariant forall i, j :: 0 <= i < j < |matches| ==> matches[i] < matches[j]
        invariant forall i, id | 0 <= i < |matches| && id in left :: matches[i] < id
        decreases left
      {
        var first := Smallest(left);
        matches := matches + [first];
        left := left - {first};
      }
    }

    static method Smallest(ids: set<Id>) returns (id: Id)
      requires ids != {}
      ensures IsOldest(ids, id)
    {
      id :| id in ids;
      var left := ids - {id};
      while left != {}
        invariant left <= ids && id in ids && forall x :: x in ids ==> x in left || id <= x
        decreases left
      {
        var x :| x in left;
        if x < id { id := x; }
        left := left - {x};
      }
    }

    /** Inserts the artist and its alias rows in one transaction, which a duplicate
        key rolls back. False means it failed, before or after its commit. */
    method InsertArtist(id: Id, artist: ArtistRow, names: seq<string>, commits: bool, replies: bool) returns (ok: bool)
      requires Valid() && id < nextId
      modifies `aliases, `artists
      ensures Valid()
      ensures ok <==> commits && replies && Insertable(old(artists), old(aliases), id, names)
      ensures commits && Insertable(old(artists), old(aliases), id, names) ==>
        artists == old(artists)[id := artist] && aliases == InsertedAll(old(aliases), names, id)
      ensures !(commits && Insertable(old(artists), old(aliases), id, names)) ==>
        artists == old(artists) && aliases == old(aliases)
    {
      ok := false;
      if id in artists {
        return;
      }
      var rows, i := aliases, 0;
      while i < |names| && !Names(rows, names[i], id)
        invariant i <= |names| && rows == InsertedAll(aliases, names[..i], id)
        invariant Insertable(artists, aliases, id, names[..i])
        modifies {}
      {
        InsertableNext(artists, aliases, id, names, i);
        rows := Inserted(rows, names[i], id);
        i := i + 1;
      }
      assert names[..|names|] == names;
      if i < |names| {
        InsertableNext(artists, aliases, id, names, i);
        if Insertable(artists, aliases, id, names) { InsertablePrefix(artists, aliases, id, names, i + 1); }
        return;
      }
      if commits {
        InsertedAllOlder(aliases, names, id, nextId);
        artists := artists[id := artist];
        aliases := rows;
      }
      ok := commits && replies;
    }
  }

  datatype ArtistRow = ArtistRow(name: string, sortName: string)

  /** The aliases one after the other. */
  function InsertedAll(aliases: Aliases, names: seq<string>, id: Id): Aliases {
    if names == [] then aliases
    else Inserted(InsertedAll(aliases, names[..|names| - 1], id), names[|names| - 1], id)
  }

  /** No row of the transaction repeats a key. */
  ghost predicate Insertable(artists: map<Id, ArtistRow>, aliases: Aliases, id: Id, names: seq<string>) {
    id !in artists && Distinct(names) && forall n :: n in names ==> !Names(aliases, n, id)
  }

  lemma {:induction false} InsertedAllAt(aliases: Aliases, names: seq<string>, id: Id)
    ensures forall n, x :: Names(InsertedAll(aliases, names, id), n, x) <==>
      Names(aliases, n, x) || (n in names && x == id)
  {
    if names != [] {
      var last, rest := names[|names| - 1], names[..|names| - 1];
      InsertedAllAt(aliases, rest, id);
      assert names == rest + [last];
      forall n, x
        ensures Names(InsertedAll(aliases, names, id), n, x) <==>
          Names(InsertedAll(aliases, rest, id), n, x) || (n == last && x == id)
      {
      }
    }
  }

  lemma InsertedAllOlder(aliases: Aliases, names: seq<string>, id: Id, next: Id)
    requires OlderThan(aliases, next) && id < next
    ensures OlderThan(InsertedAll(aliases, names, id), next)
  {
    InsertedAllAt(aliases, names, id);
    var after := InsertedAll(aliases, names, id);
    forall n, x | n in after && x in after[n] ensures x < next {
      assert Names(after, n, x);
    }
  }

  /** The artist holds the name. */
  predicate Names(aliases: Aliases, norm: string, id: Id) {
    norm in aliases && id in aliases[norm]
  }

  /** One more alias row, or the first repeated key. */
  lemma InsertableNext(artists: map<Id, ArtistRow>, aliases: Aliases, id: Id, names: seq<string>, i: nat)
    requires i < |names| && Insertable(artists, aliases, id, names[..i])
    ensures var rows, next := InsertedAll(aliases, names[..i], id), names[..i + 1];
      && InsertedAll(aliases, next, id) == Inserted(rows, names[i], id)
      && (Insertable(artists, aliases, id, next) <==> !Names(rows, names[i], id))
  {
    var next := names[..i + 1];
    assert next[..i] == names[..i] && next[i] == names[i];
    assert forall n :: n in next <==> n in names[..i] || n == names[i] by { assert next == names[..i] + [names[i]]; }
    InsertedAllAt(aliases, names[..i], id);
    if names[i] in names[..i] {
      var j :| 0 <= j < i && names[..i][j] == names[i];
      assert next[j] == next[i];
    }
  }

  lemma InsertablePrefix(artists: map<Id, ArtistRow>, aliases: Aliases, id: Id, names: seq<string>, i: nat)
    requires i <= |names| && Insertable(artists, aliases, id, names)
    ensures Insertable(artists, aliases, id, names[..i])
  {
  }
}
