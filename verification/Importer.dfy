/** The importer turns a parse result into catalog payload: it interns artist
    names, drops repeated credits and images, and picks the cover. */
module Importer {
  import opened Basics
  import opened ArtistName
  import opened Artists
  import opened Catalog

  datatype Result<+T> = Ok(value: T) | Failed

  datatype ParsedImage = ParsedImage(image: Id, kind: ImageKind)
  datatype ParsedCredit = ParsedCredit(name: string, role: string)

  // ----- the first of each -----

  /** The items with a key, without those whose key came before. */
  ghost function Firsts<T, K>(items: seq<T>, key: T -> Option<K>): (firsts: seq<T>)
  {
    if items == [] then []
    else
      var n := |items| - 1;
      if IsFirst(items, key, n) then Firsts(items[..n], key) + [items[n]] else Firsts(items[..n], key)
  }

  ghost predicate IsFirst<T, K>(items: seq<T>, key: T -> Option<K>, i: nat)
    requires i < |items|
  {
    key(items[i]).Some? && forall j | 0 <= j < i :: key(items[j]) != key(items[i])
  }

  /** x is the first item with its key. */
  ghost predicate Leads<T, K>(items: seq<T>, key: T -> Option<K>, x: T) {
    exists i :: 0 <= i < |items| && items[i] == x && IsFirst(items, key, i)
  }

  /** The first items are kept, those only, and so no key repeats. */
  lemma {:induction false} FirstsSpec<T, K>(items: seq<T>, key: T -> Option<K>)
    ensures forall x :: x in Firsts(items, key) <==> Leads(items, key, x)
    ensures forall i, j :: 0 <= i < j < |Firsts(items, key)| ==>
      key(Firsts(items, key)[i]) != key(Firsts(items, key)[j])
    decreases |items|
  {
    if items != [] {
      var n := |items| - 1;
      var rest := items[..n];
      FirstsSpec(rest, key);
      forall x ensures Leads(items, key, x) <==> Leads(rest, key, x) || (x == items[n] && IsFirst(items, key, n)) {
        LeadsNext(items, key, x);
      }
      if IsFirst(items, key, n) {
        forall x | x in Firsts(rest, key) ensures key(x) != key(items[n]) {
          assert Leads(rest, key, x);
          var i :| 0 <= i < n && rest[i] == x && IsFirst(rest, key, i);
          assert items[i] == x;
        }
      }
    }
  }

  /** x and y are first items, x before y. */
  ghost predicate InOrder<T, K>(items: seq<T>, key: T -> Option<K>, x: T, y: T) {
    exists i, j ::
      0 <= i < j < |items| && items[i] == x && items[j] == y && IsFirst(items, key, i) && IsFirst(items, key, j)
  }

  /** And they stay in order. */
  lemma {:induction false} FirstsInOrder<T, K>(items: seq<T>, key: T -> Option<K>)
    ensures forall i, j :: 0 <= i < j < |Firsts(items, key)| ==>
      InOrder(items, key, Firsts(items, key)[i], Firsts(items, key)[j])
    decreases |items|
  {
    if items != [] {
      var n := |items| - 1;
      var rest := items[..n];
      FirstsInOrder(rest, key);
      FirstsSpec(rest, key);
      forall x, y | InOrder(rest, key, x, y) ensures InOrder(items, key, x, y) {
        var i, j :| 0 <= i < j < n && rest[i] == x && rest[j] == y && IsFirst(rest, key, i) && IsFirst(rest, key, j);
        assert items[i] == x && items[j] == y && IsFirst(items, key, i) && IsFirst(items, key, j);
      }
      if IsFirst(items, key, n) {
        forall x | x in Firsts(rest, key) ensures InOrder(items, key, x, items[n]) {
          assert Leads(rest, key, x);
          var i :| 0 <= i < n && rest[i] == x && IsFirst(rest, key, i);
          assert items[i] == x && IsFirst(items, key, i);
        }
      }
    }
  }

  lemma LeadsNext<T, K>(items: seq<T>, key: T -> Option<K>, x: T)
    requires items != []
    ensures var n := |items| - 1;
      Leads(items, key, x) <==> Leads(items[..n], key, x) || (x == items[n] && IsFirst(items, key, n))
  {
  }

  /** The first item with the key of item i. */
  lemma {:induction false} FirstWith<T, K>(items: seq<T>, key: T -> Option<K>, i: nat) returns (j: nat)
    requires i < |items| && key(items[i]).Some?
    ensures j <= i && key(items[j]) == key(items[i]) && IsFirst(items, key, j)
    decreases i
  {
    j := i;
    if !IsFirst(items, key, i) {
      var k :| 0 <= k < i && key(items[k]) == key(items[i]);
      j := FirstWith(items, key, k);
    }
  }

  lemma FirstsKeep<T, K>(items: seq<T>, key: T -> Option<K>, i: nat)
    requires i < |items| && key(items[i]).Some?
    ensures exists x :: x in Firsts(items, key) && key(x) == key(items[i])
  {
    FirstsSpec(items, key);
    var j := FirstWith(items, key, i);
    assert items[j] in Firsts(items, key);
  }

  lemma {:induction false} SameFirsts<T, K>(items: seq<T>, key: T -> Option<K>, other: T -> Option<K>)
    requires forall x :: x in items ==> key(x) == other(x)
    ensures Firsts(items, key) == Firsts(items, other)
    decreases |items|
  {
    if items != [] {
      SameFirsts(items[..|items| - 1], key, other);
    }
  }

  // ----- images -----

  function ImageKey(img: ParsedImage): Option<Id> {
    Some(img.image)
  }

  /** The links of the distinct images, the first cover among them set. */
  ghost predicate Links(images: seq<ParsedImage>, links: seq<AlbumImage>) {
    && |links| == |images|
    && forall i | 0 <= i < |links| ::
         && links[i].image == images[i].image && links[i].kind == images[i].kind
         && (links[i].setCover <==> images[i].kind.Cover? && forall j | 0 <= j < i :: !images[j].kind.Cover?)
  }

  /** Drops repeated images, and sets the cover on the first of kind cover. */
  method AlbumImages(imgs: seq<ParsedImage>) returns (links: seq<AlbumImage>)
    ensures Links(Firsts(imgs, ImageKey), links)
    ensures CoverChoice(links)
    ensures forall i, j :: 0 <= i < j < |links| ==> links[i].image != links[j].image
    ensures AnyCover(links) ==> exists l :: l in links && l.setCover
  {
    var seen: set<Id> := {};
    var haveCover := false;
    links := [];
    hide Links, CoverChoice, AnyCover;
    NoLinks();
    for i := 0 to |imgs|
      invariant Links(Firsts(imgs[..i], ImageKey), links)
      invariant seen == set j | 0 <= j < i :: imgs[j].image
      invariant haveCover <==> AnyCover(links)
    {
      var pi := imgs[i];
      FirstsNext(imgs, ImageKey, i);
      if pi.image in seen { continue; }
      seen := seen + {pi.image};
      var isCover := !haveCover && pi.kind.Cover?;
      if isCover { haveCover := true; }
      LinksNext(Firsts(imgs[..i], ImageKey), links, pi);
      links := links + [AlbumImage(pi.image, pi.kind, isCover)];
    }
    assert imgs[..|imgs|] == imgs;
    OneCover(Firsts(imgs, ImageKey), links);
    LinksApart(imgs, links);
  }

  lemma LinksApart(imgs: seq<ParsedImage>, links: seq<AlbumImage>)
    requires Links(Firsts(imgs, ImageKey), links)
    ensures forall i, j :: 0 <= i < j < |links| ==> links[i].image != links[j].image
  {
    FirstsSpec(imgs, ImageKey);
    var firsts := Firsts(imgs, ImageKey);
    forall i, j | 0 <= i < j < |links| ensures links[i].image != links[j].image {
      assert ImageKey(firsts[i]) != ImageKey(firsts[j]);
    }
  }

  lemma NoLinks()
    ensures Links([], []) && !AnyCover([])
  {
  }

  ghost predicate AnyCover(links: seq<AlbumImage>) {
    exists l :: l in links && l.kind.Cover?
  }

  lemma LinksNext(images: seq<ParsedImage>, links: seq<AlbumImage>, img: ParsedImage)
    requires Links(images, links)
    ensures var link := AlbumImage(img.image, img.kind, !AnyCover(links) && img.kind.Cover?);
      && Links(images + [img], links + [link])
      && (AnyCover(links + [link]) <==> AnyCover(links) || img.kind.Cover?)
  {
    var link := AlbumImage(img.image, img.kind, !AnyCover(links) && img.kind.Cover?);
    var more, linked := images + [img], links + [link];
    AnyCoverNext(links, link);
    assert AnyCover(links) <==> exists j | 0 <= j < |images| :: images[j].kind.Cover? by {
      if AnyCover(links) {
        var l :| l in links && l.kind.Cover?;
        var j :| 0 <= j < |links| && links[j] == l;
        assert images[j].kind.Cover?;
      }
      if j :| 0 <= j < |images| && images[j].kind.Cover? { assert links[j] in links; }
    }
    hide AnyCover;
    assert forall i | 0 <= i < |links| :: more[i] == images[i] && linked[i] == links[i];
    assert more[|images|] == img && linked[|links|] == link;
  }

  lemma AnyCoverNext(links: seq<AlbumImage>, link: AlbumImage)
    ensures AnyCover(links + [link]) <==> AnyCover(links) || link.kind.Cover?
  {
  }

  /** At most one link is the cover, and one is if any image can be. */
  lemma OneCover(images: seq<ParsedImage>, links: seq<AlbumImage>)
    requires Links(images, links)
    ensures CoverChoice(links)
    ensures AnyCover(links) ==> exists l :: l in links && l.setCover
  {
    if AnyCover(links) {
      var l :| l in links && l.kind.Cover?;
      var i :| 0 <= i < |links| && links[i] == l;
      var j := FirstCover(images, i);
      assert links[j] in links;
    }
  }

  lemma {:induction false} FirstCover(images: seq<ParsedImage>, i: nat) returns (j: nat)
    requires i < |images| && images[i].kind.Cover?
    ensures j < |images| && images[j].kind.Cover? && forall k | 0 <= k < j :: !images[k].kind.Cover?
    decreases i
  {
    j := i;
    if k :| 0 <= k < i && images[k].kind.Cover? { j := FirstCover(images, k); }
  }

  lemma FirstsNext<T, K>(items: seq<T>, key: T -> Option<K>, i: nat)
    requires i < |items|
    ensures Firsts(items[..i + 1], key)
      == if IsFirst(items, key, i) then Firsts(items[..i], key) + [items[i]] else Firsts(items[..i], key)
  {
    var next := items[..i + 1];
    assert next[..i] == items[..i] && next[i] == items[i];
    assert forall j | 0 <= j < i :: next[j] == items[j];
  }

  // ----- artists -----

  /** The artist that a credited name means; names that normalize to nothing mean none. */
  ghost function Resolve(u: Unicode, aliases: Aliases, name: string): Option<Id> {
    var norm := Normalized(u, name);
    if norm != "" && Known(aliases, norm) then Some(OldestArtist(aliases, norm)) else None
  }

  /** Known names keep their artist. */
  ghost predicate Kept(before: Aliases, after: Aliases) {
    forall n | Known(before, n) :: Known(after, n) && OldestArtist(after, n) == OldestArtist(before, n)
  }

  ghost predicate AllKnown(u: Unicode, aliases: Aliases, names: seq<string>) {
    forall n | n in names && Normalized(u, n) != "" :: Known(aliases, Normalized(u, n))
  }

  ghost function ArtistKey(u: Unicode, aliases: Aliases): string -> Option<Id> {
    (name: string) => Resolve(u, aliases, name)
  }

  ghost function CreditKey(u: Unicode, aliases: Aliases): ParsedCredit -> Option<(Id, string)> {
    (c: ParsedCredit) =>
      var id := Resolve(u, aliases, c.name);
      if id.Some? then Some((id.value, c.role)) else None
  }

  function NamesOf(credits: seq<ParsedCredit>): seq<string> {
    seq(|credits|, i requires 0 <= i < |credits| => credits[i].name)
  }

  /** One artist per distinct artist credited, in order, under the first name given. */
  ghost predicate ArtistsBuilt(u: Unicode, aliases: Aliases, names: seq<string>, artists: seq<AlbumArtist>) {
    var firsts := Firsts(names, ArtistKey(u, aliases));
    && |artists| == |firsts|
    && forall i | 0 <= i < |artists| ::
         artists[i].creditedName == firsts[i] && Resolve(u, aliases, firsts[i]) == Some(artists[i].artist)
  }

  /** One credit per distinct artist and role. */
  ghost predicate CreditsBuilt(u: Unicode, aliases: Aliases, parsed: seq<ParsedCredit>, credits: seq<Credit>) {
    var firsts := Firsts(parsed, CreditKey(u, aliases));
    && |credits| == |firsts|
    && forall i | 0 <= i < |credits| ::
         && credits[i].creditedName == firsts[i].name && credits[i].role == firsts[i].role
         && Resolve(u, aliases, firsts[i].name) == Some(credits[i].artist)
  }

  /** How the store behaves during one call. */
  datatype Replies = Replies(lookup: bool, commits: bool, insert: bool)

  class Importer {
    const unicode: Unicode
    const library: ArtistStore
    var artists: map<string, Id>

    constructor (unicode: Unicode, library: ArtistStore)
      requires library.Valid()
      ensures this.unicode == unicode && this.library == library && artists == map[] && Valid()
    {
      this.unicode, this.library := unicode, library;
      artists := map[];
    }

    /** The cache holds the oldest artist of each name. */
    ghost predicate Valid()
      reads this, library
    {
      && library.Valid()
      && forall n | n in artists :: Known(library.aliases, n) && artists[n] == OldestArtist(library.aliases, n)
    }

    /** Resolves a credited name, creating the artist if nobody holds the name. */
    method InternArtist(name: string, io: Replies) returns (res: Result<Option<Id>>)
      requires Valid()
      modifies `artists, library
      ensures Valid() && Kept(old(library.aliases), library.aliases)
      ensures res.Ok? ==> res.value == Resolve(unicode, library.aliases, name)
      ensures res.Ok? ==> (res.value.None? <==> Normalized(unicode, name) == "")
      ensures res.Ok? && res.value.Some? ==>
        && Names(library.aliases, Normalized(unicode, name), res.value.value)
        && forall id | Names(library.aliases, Normalized(unicode, name), id) :: res.value.value <= id
      ensures forall n, id :: Names(library.aliases, n, id) <==>
        Names(old(library.aliases), n, id)
        || (library.aliases != old(library.aliases) && n == Normalized(unicode, name) && id == old(library.nextId))
      ensures var norm := Normalized(unicode, name);
        norm == "" || norm in old(artists) ==>
          res.Ok? && library.aliases == old(library.aliases) && artists == old(artists)
      ensures var norm := Normalized(unicode, name);
        norm != "" && norm !in old(artists) ==>
          && (res.Ok? <==> io.lookup && (Known(old(library.aliases), norm) || (io.commits && io.insert)))
          && (library.aliases == if io.lookup && !Known(old(library.aliases), norm) && io.commits
                then Inserted(old(library.aliases), norm, old(library.nextId)) else old(library.aliases))
          && (library.artists == if io.lookup && !Known(old(library.aliases), norm) && io.commits
                then old(library.artists)[old(library.nextId) := ArtistRow(Trim(unicode, name), Trim(unicode, name))]
                else old(library.artists))
          && (artists == if res.Ok? then old(artists)[norm := res.value.value] else old(artists))
    {
      var norm := NormalizeArtistName(unicode, name);
      if norm == "" {
        return Ok(None);
      }
      if norm in artists {
        return Ok(Some(artists[norm]));
      }
      if !io.lookup {
        return Failed;
      }
      var matches := library.ArtistsByAlias(norm);
      var id;
      if |matches| > 0 {
        assert matches[0] in matches;
        id := matches[0];
      } else {
        id := library.NewId();
        var artist := ArtistRow(Trim(unicode, name), Trim(unicode, name));
        OneAlias(library.aliases, norm, id);
        var ok := library.InsertArtist(id, artist, [norm], io.commits, io.insert);
        if !ok {
          return Failed;
        }
      }
      artists := artists[norm := id];
      res := Ok(Some(id));
    }

    /** The album's artists: repeated and nameless credits are dropped. */
    method BuildArtists(names: seq<string>, io: nat -> Replies) returns (res: Result<seq<AlbumArtist>>)
      requires Valid()
      modifies `artists, library
      ensures Valid() && Kept(old(library.aliases), library.aliases)
      ensures res.Ok? ==> ArtistsBuilt(unicode, library.aliases, names, res.value)
      ensures res.Ok? ==> AllKnown(unicode, library.aliases, names)
    {
      hide Normalized, Inserted;
      var built: seq<AlbumArtist> := [];
      var seen: set<Id> := {};
      for i := 0 to |names|
        invariant Valid() && Kept(old(library.aliases), library.aliases)
        invariant ArtistsBuilt(unicode, library.aliases, names[..i], built)
        invariant AllKnown(unicode, library.aliases, names[..i])
        invariant seen == set a | a in built :: a.artist
      {
        ghost var before := library.aliases;
        var answer := InternArtist(names[i], io(i));
        if answer.Failed? {
          return Failed;
        }
        ArtistsNext(unicode, before, library.aliases, names, i, built);
        if answer.value.None? || answer.value.value in seen { continue; }
        seen := seen + {answer.value.value};
        built := built + [AlbumArtist(answer.value.value, names[i])];
      }
      assert names[..|names|] == names;
      res := Ok(built);
    }

    /** A track's credits: repeats of an artist in one role, and nameless ones, are dropped. */
    method BuildCredits(parsed: seq<ParsedCredit>, io: nat -> Replies) returns (res: Result<seq<Credit>>)
      requires Valid()
      modifies `artists, library
      ensures Valid() && Kept(old(library.aliases), library.aliases)
      ensures res.Ok? ==> CreditsBuilt(unicode, library.aliases, parsed, res.value)
      ensures res.Ok? ==> AllKnown(unicode, library.aliases, NamesOf(parsed))
    {
      hide Normalized, Inserted;
      var built: seq<Credit> := [];
      var seen: set<(Id, string)> := {};
      for i := 0 to |parsed|
        invariant Valid() && Kept(old(library.aliases), library.aliases)
        invariant CreditsBuilt(unicode, library.aliases, parsed[..i], built)
        invariant AllKnown(unicode, library.aliases, NamesOf(parsed[..i]))
        invariant seen == set c | c in built :: (c.artist, c.role)
      {
        ghost var before := library.aliases;
        var answer := InternArtist(parsed[i].name, io(i));
        if answer.Failed? {
          return Failed;
        }
        CreditsNext(unicode, before, library.aliases, parsed, i, built);
        if answer.value.None? || (answer.value.value, parsed[i].role) in seen { continue; }
        seen := seen + {(answer.value.value, parsed[i].role)};
        built := built + [Credit(answer.value.value, parsed[i].name, parsed[i].role)];
      }
      assert parsed[..|parsed|] == parsed;
      res := Ok(built);
    }
  }

  lemma OneAlias(aliases: Aliases, norm: string, id: Id)
    ensures InsertedAll(aliases, [norm], id) == Inserted(aliases, norm, id)
  {
    assert [norm][..0] == [];
  }

  /** One more item: it is kept unless it has no key or a known one. */
  lemma FirstsGrow<T, K>(items: seq<T>, before: T -> Option<K>, key: T -> Option<K>, i: nat, keys: seq<K>)
    requires i < |items| && forall x :: x in items[..i] ==> before(x) == key(x)
    requires var firsts := Firsts(items[..i], before);
      |keys| == |firsts| && forall k | 0 <= k < |keys| :: before(firsts[k]) == Some(keys[k])
    ensures Firsts(items[..i], key) == Firsts(items[..i], before)
    ensures Firsts(items[..i + 1], key) == Firsts(items[..i], key) +
      if key(items[i]).None? || key(items[i]).value in keys then [] else [items[i]]
  {
    SameFirsts(items[..i], before, key);
    FirstsNext(items, key, i);
    var firsts := Firsts(items[..i], key);
    FirstsSpec(items[..i], key);
    if key(items[i]).Some? {
      if j :| 0 <= j < i && key(items[j]) == key(items[i]) {
        assert items[..i][j] == items[j];
        FirstsKeep(items[..i], key, j);
        var x :| x in firsts && key(x) == key(items[i]);
        var k :| 0 <= k < |firsts| && firsts[k] == x;
        assert firsts[k] in items[..i] && keys[k] == key(items[i]).value;
      }
      if k :| 0 <= k < |keys| && keys[k] == key(items[i]).value {
        assert Leads(items[..i], key, firsts[k]);
        var j :| 0 <= j < i && items[..i][j] == firsts[k];
        assert key(items[j]) == key(items[i]);
      }
    }
  }

  /** The keys of what was built so far, in order. */
  function ArtistIds(built: seq<AlbumArtist>): (ids: seq<Id>)
    ensures |ids| == |built|
    ensures forall k | 0 <= k < |built| :: ids[k] == built[k].artist
  {
    seq(|built|, k requires 0 <= k < |built| => built[k].artist)
  }

  function CreditIds(built: seq<Credit>): (ids: seq<(Id, string)>)
    ensures |ids| == |built|
    ensures forall k | 0 <= k < |built| :: ids[k] == (built[k].artist, built[k].role)
  {
    seq(|built|, k requires 0 <= k < |built| => (built[k].artist, built[k].role))
  }

  lemma SeenArtists(built: seq<AlbumArtist>)
    ensures forall id :: id in ArtistIds(built) <==> id in set a | a in built :: a.artist
  {
  }

  lemma SeenCredits(built: seq<Credit>)
    ensures forall key :: key in CreditIds(built) <==> key in set c | c in built :: (c.artist, c.role)
  {
  }

  lemma FirstsAreItems<T, K>(items: seq<T>, key: T -> Option<K>)
    ensures forall x :: x in Firsts(items, key) ==> x in items
  {
  }

  /** One more credited name. */
  lemma ArtistsNext(u: Unicode, before: Aliases, aliases: Aliases, names: seq<string>, i: nat, built: seq<AlbumArtist>)
    requires i < |names| && Kept(before, aliases) && AllKnown(u, before, names[..i])
    requires ArtistsBuilt(u, before, names[..i], built)
    requires Normalized(u, names[i]) != "" ==> Known(aliases, Normalized(u, names[i]))
    ensures AllKnown(u, aliases, names[..i + 1])
    ensures var id := Resolve(u, aliases, names[i]);
      ArtistsBuilt(u, aliases, names[..i + 1],
        if id.None? || id.value in (set a | a in built :: a.artist) then built
        else built + [AlbumArtist(id.value, names[i])])
  {
    hide Normalized;
    SeenArtists(built);
    FirstsAreItems(names[..i], ArtistKey(u, before));
    FirstsGrow<string, Id>(names, ArtistKey(u, before), ArtistKey(u, aliases), i, ArtistIds(built));
  }

  /** The names so far are known, with the one just interned, and mean the same artists. */
  lemma NamesNext(u: Unicode, before: Aliases, aliases: Aliases, parsed: seq<ParsedCredit>, i: nat)
    requires i < |parsed| && Kept(before, aliases) && AllKnown(u, before, NamesOf(parsed[..i]))
    requires Normalized(u, parsed[i].name) != "" ==> Known(aliases, Normalized(u, parsed[i].name))
    ensures AllKnown(u, aliases, NamesOf(parsed[..i + 1]))
    ensures forall c :: c in parsed[..i] ==> CreditKey(u, before)(c) == CreditKey(u, aliases)(c)
  {
    hide Normalized;
    var names := NamesOf(parsed[..i]);
    assert NamesOf(parsed[..i + 1]) == names + [parsed[i].name];
    forall c | c in parsed[..i] ensures Resolve(u, before, c.name) == Resolve(u, aliases, c.name) {
      var k :| 0 <= k < i && parsed[..i][k] == c;
      assert names[k] in names;
    }
  }

  lemma CreditsNext(u: Unicode, before: Aliases, aliases: Aliases, parsed: seq<ParsedCredit>, i: nat,
                    built: seq<Credit>)
    requires i < |parsed| && Kept(before, aliases) && AllKnown(u, before, NamesOf(parsed[..i]))
    requires CreditsBuilt(u, before, parsed[..i], built)
    requires Normalized(u, parsed[i].name) != "" ==> Known(aliases, Normalized(u, parsed[i].name))
    ensures AllKnown(u, aliases, NamesOf(parsed[..i + 1]))
    ensures var id := Resolve(u, aliases, parsed[i].name);
      CreditsBuilt(u, aliases, parsed[..i + 1],
        if id.None? || (id.value, parsed[i].role) in (set c | c in built :: (c.artist, c.role)) then built
        else built + [Credit(id.value, parsed[i].name, parsed[i].role)])
  {
    NamesNext(u, before, aliases, parsed, i);
    hide Normalized, Kept, AllKnown, NamesOf, Known;
    SeenCredits(built);
    FirstsAreItems(parsed[..i], CreditKey(u, before));
    FirstsGrow<ParsedCredit, (Id, string)>(parsed, CreditKey(u, before), CreditKey(u, aliases), i, CreditIds(built));
    CreditsExtend(u, before, aliases, parsed, i, built);
  }

  /** The kept credits still mean what they did. */
  lemma CreditsExtend(u: Unicode, before: Aliases, aliases: Aliases, parsed: seq<ParsedCredit>, i: nat,
                      built: seq<Credit>)
    requires i < |parsed| && CreditsBuilt(u, before, parsed[..i], built)
    requires forall c :: c in parsed[..i] ==> CreditKey(u, before)(c) == CreditKey(u, aliases)(c)
    requires var key := CreditKey(u, aliases);
      && Firsts(parsed[..i], key) == Firsts(parsed[..i], CreditKey(u, before))
      && Firsts(parsed[..i + 1], key) == Firsts(parsed[..i], key) +
           if key(parsed[i]).None? || key(parsed[i]).value in CreditIds(built) then [] else [parsed[i]]
    ensures var id := Resolve(u, aliases, parsed[i].name);
      CreditsBuilt(u, aliases, parsed[..i + 1],
        if id.None? || (id.value, parsed[i].role) in (set c | c in built :: (c.artist, c.role)) then built
        else built + [Credit(id.value, parsed[i].name, parsed[i].role)])
  {
    hide Resolve, Firsts;
    SeenCredits(built);
    FirstsAreItems(parsed[..i], CreditKey(u, before));
    var firsts := Firsts(parsed[..i], CreditKey(u, before));
    forall k | 0 <= k < |built| ensures Resolve(u, aliases, firsts[k].name) == Some(built[k].artist) {
      assert firsts[k] in parsed[..i];
    }
  }

  // ----- what the store writes -----

  /** The artists built are the distinct ones credited. */
  lemma ArtistsDistinct(u: Unicode, aliases: Aliases, names: seq<string>, artists: seq<AlbumArtist>)
    requires ArtistsBuilt(u, aliases, names, artists)
    ensures forall i, j :: 0 <= i < j < |artists| ==> artists[i].artist != artists[j].artist
    ensures forall id :: (exists a :: a in artists && a.artist == id)
                    <==> exists i :: 0 <= i < |names| && Resolve(u, aliases, names[i]) == Some(id)
  {
    var key := ArtistKey(u, aliases);
    var firsts := Firsts(names, key);
    FirstsSpec(names, key);
    forall i, j | 0 <= i < j < |artists| ensures artists[i].artist != artists[j].artist {
      assert key(firsts[i]) != key(firsts[j]);
    }
    forall id ensures (exists a :: a in artists && a.artist == id)
                 <==> exists i :: 0 <= i < |names| && Resolve(u, aliases, names[i]) == Some(id) {
      if i :| 0 <= i < |names| && Resolve(u, aliases, names[i]) == Some(id) {
        FirstsKeep(names, key, i);
        var x :| x in firsts && key(x) == key(names[i]);
        var k :| 0 <= k < |firsts| && firsts[k] == x;
        assert artists[k] in artists && artists[k].artist == id;
      }
      if a :| a in artists && a.artist == id {
        var k :| 0 <= k < |artists| && artists[k] == a;
        assert Leads(names, key, firsts[k]);
        var i :| 0 <= i < |names| && names[i] == firsts[k];
        assert Resolve(u, aliases, names[i]) == Some(id);
      }
    }
  }

  /** So the store omits none of them, and their positions have no gap. */
  lemma {:induction false} NoGaps(artists: seq<AlbumArtist>)
    requires forall i, j :: 0 <= i < j < |artists| ==> artists[i].artist != artists[j].artist
    ensures |LinkArtists(artists)| == |artists|
    ensures forall i | 0 <= i < |artists| ::
      LinkArtists(artists)[i] == ArtistLink(artists[i].artist, artists[i].creditedName, i)
  {
    if artists != [] { NoGaps(artists[..|artists| - 1]); }
  }

  lemma CreditsDistinct(u: Unicode, aliases: Aliases, parsed: seq<ParsedCredit>, credits: seq<Credit>)
    requires CreditsBuilt(u, aliases, parsed, credits)
    ensures forall i, j :: 0 <= i < j < |credits| ==>
      credits[i].artist != credits[j].artist || credits[i].role != credits[j].role
  {
    var key := CreditKey(u, aliases);
    var firsts := Firsts(parsed, key);
    FirstsSpec(parsed, key);
    forall i, j | 0 <= i < j < |credits|
      ensures credits[i].artist != credits[j].artist || credits[i].role != credits[j].role
    {
      assert key(firsts[i]) != key(firsts[j]);
    }
  }

  lemma {:induction false} NoCreditOmitted(credits: seq<Credit>)
    requires forall i, j :: 0 <= i < j < |credits| ==>
      credits[i].artist != credits[j].artist || credits[i].role != credits[j].role
    ensures LinkCredits(credits) == credits
  {
    if credits != [] {
      NoCreditOmitted(credits[..|credits| - 1]);
      assert credits == credits[..|credits| - 1] + [credits[|credits| - 1]];
    }
  }
}
