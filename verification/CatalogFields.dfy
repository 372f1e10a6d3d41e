/** What an import leaves in the catalog, field by field: rows, links, credits, covers. */
module CatalogFields {
  import opened Basics
  import opened Catalog

  // ----- artist links -----

  ghost predicate FirstArtist(artists: seq<AlbumArtist>, i: nat)
    requires i < |artists|
  {
    forall j | 0 <= j < i :: artists[j].artist != artists[i].artist
  }

  /** The first credit of each artist is linked, at its position. */
  ghost predicate LinksFirsts(artists: seq<AlbumArtist>, links: seq<ArtistLink>) {
    && (forall a, b | 0 <= a < b < |links| :: links[a].position < links[b].position)
    && (forall a | 0 <= a < |links| ::
          && links[a].position < |artists| && FirstArtist(artists, links[a].position)
          && links[a].artist == artists[links[a].position].artist
          && links[a].creditedName == artists[links[a].position].creditedName)
    && (forall i: nat | i < |artists| && FirstArtist(artists, i) :: PositionIn(links, i))
  }

  ghost predicate PositionIn(links: seq<ArtistLink>, i: nat) {
    exists a :: 0 <= a < |links| && links[a].position == i
  }

  lemma {:induction false} FirstOfArtist(artists: seq<AlbumArtist>, i: nat) returns (j: nat)
    requires i < |artists|
    ensures j <= i && artists[j].artist == artists[i].artist && FirstArtist(artists, j)
    decreases i
  {
    j := i;
    if k :| 0 <= k < i && artists[k].artist == artists[i].artist { j := FirstOfArtist(artists, k); }
  }

  lemma {:induction false} LinkArtistsFields(artists: seq<AlbumArtist>)
    ensures LinksFirsts(artists, LinkArtists(artists))
    decreases |artists|
  {
    if artists != [] {
      var n := |artists| - 1;
      LinkArtistsFields(artists[..n]);
      NextLink(artists, LinkArtists(artists[..n]));
    }
  }

  lemma NextLink(artists: seq<AlbumArtist>, links: seq<ArtistLink>)
    requires artists != [] && LinksFirsts(artists[..|artists| - 1], links)
    ensures var n := |artists| - 1;
      LinksFirsts(artists,
        if exists l :: l in links && l.artist == artists[n].artist then links
        else links + [ArtistLink(artists[n].artist, artists[n].creditedName, n)])
  {
    ArtistLinked(artists, links);
    if FirstArtist(artists, |artists| - 1) { NewLink(artists, links); } else { SameLinks(artists, links); }
    hide LinksFirsts, FirstArtist;
  }

  /** An artist came before if and only if it is linked. */
  lemma ArtistLinked(artists: seq<AlbumArtist>, links: seq<ArtistLink>)
    requires artists != [] && LinksFirsts(artists[..|artists| - 1], links)
    ensures var n := |artists| - 1;
      (exists l :: l in links && l.artist == artists[n].artist) <==> !FirstArtist(artists, n)
  {
    var n := |artists| - 1;
    var before := artists[..n];
    if !FirstArtist(artists, n) {
      var k :| 0 <= k < n && artists[k].artist == artists[n].artist;
      var j := FirstOfArtist(before, k);
      assert PositionIn(links, j);
      var a :| 0 <= a < |links| && links[a].position == j;
      assert links[a] in links;
    }
  }

  lemma SameLinks(artists: seq<AlbumArtist>, links: seq<ArtistLink>)
    requires artists != [] && LinksFirsts(artists[..|artists| - 1], links) && !FirstArtist(artists, |artists| - 1)
    ensures LinksFirsts(artists, links)
  {
    forall i: nat | i < |artists| - 1 ensures FirstArtist(artists, i) <==> FirstArtist(artists[..|artists| - 1], i) {}
    hide FirstArtist, PositionIn;
  }

  lemma NewLink(artists: seq<AlbumArtist>, links: seq<ArtistLink>)
    requires artists != [] && LinksFirsts(artists[..|artists| - 1], links) && FirstArtist(artists, |artists| - 1)
    ensures var n := |artists| - 1;
      LinksFirsts(artists, links + [ArtistLink(artists[n].artist, artists[n].creditedName, n)])
  {
    var n := |artists| - 1;
    var more := links + [ArtistLink(artists[n].artist, artists[n].creditedName, n)];
    forall i: nat | i < n ensures FirstArtist(artists, i) <==> FirstArtist(artists[..n], i) {}
    forall i: nat | PositionIn(links, i) ensures PositionIn(more, i) {
      var a :| 0 <= a < |links| && links[a].position == i;
      assert more[a].position == i;
    }
    assert PositionIn(more, n) by { assert more[|links|].position == n; }
    hide FirstArtist, PositionIn;
  }

  // ----- credits -----

  ghost predicate FirstCredit(credits: seq<Credit>, i: nat)
    requires i < |credits|
  {
    forall j | 0 <= j < i :: credits[j].artist != credits[i].artist || credits[j].role != credits[i].role
  }

  /** The first credit of each artist in each role, in order. */
  ghost predicate KeepsFirsts(credits: seq<Credit>, kept: seq<Credit>) {
    exists at :: KeepsAt(credits, kept, at)
  }

  ghost predicate KeepsAt(credits: seq<Credit>, kept: seq<Credit>, at: seq<nat>) {
    && |at| == |kept| && (forall a, b | 0 <= a < b < |at| :: at[a] < at[b])
    && (forall a | 0 <= a < |at| ::
          at[a] < |credits| && FirstCredit(credits, at[a]) && kept[a] == credits[at[a]])
    && (forall i: nat | i < |credits| && FirstCredit(credits, i) :: i in at)
  }

  lemma {:induction false} FirstOfCredit(credits: seq<Credit>, i: nat) returns (j: nat)
    requires i < |credits|
    ensures j <= i && credits[j].artist == credits[i].artist && credits[j].role == credits[i].role
    ensures FirstCredit(credits, j)
    decreases i
  {
    j := i;
    if k :| 0 <= k < i && credits[k].artist == credits[i].artist && credits[k].role == credits[i].role {
      j := FirstOfCredit(credits, k);
    }
  }

  lemma {:induction false} LinkCreditsFields(credits: seq<Credit>)
    ensures KeepsFirsts(credits, LinkCredits(credits))
    decreases |credits|
  {
    if credits == [] {
      assert KeepsAt(credits, [], []);
    } else {
      var n := |credits| - 1;
      LinkCreditsFields(credits[..n]);
      var at :| KeepsAt(credits[..n], LinkCredits(credits[..n]), at);
      NextCredit(credits, LinkCredits(credits[..n]), at);
    }
  }

  lemma NextCredit(credits: seq<Credit>, kept: seq<Credit>, at: seq<nat>)
    requires credits != [] && KeepsAt(credits[..|credits| - 1], kept, at)
    ensures var n := |credits| - 1;
      if exists l :: l in kept && l.artist == credits[n].artist && l.role == credits[n].role
      then KeepsAt(credits, kept, at) else KeepsAt(credits, kept + [credits[n]], at + [n])
  {
    CreditKept(credits, kept, at);
    var n := |credits| - 1;
    forall i: nat | i < n ensures FirstCredit(credits, i) <==> FirstCredit(credits[..n], i) {}
    assert forall i | i in at :: i in at + [n];
    assert (at + [n])[|at|] == n;
    hide FirstCredit;
  }

  /** A credit came before if and only if it is kept. */
  lemma CreditKept(credits: seq<Credit>, kept: seq<Credit>, at: seq<nat>)
    requires credits != [] && KeepsAt(credits[..|credits| - 1], kept, at)
    ensures var n := |credits| - 1;
      (exists l :: l in kept && l.artist == credits[n].artist && l.role == credits[n].role)
      <==> !FirstCredit(credits, n)
  {
    var n := |credits| - 1;
    var before := credits[..n];
    if !FirstCredit(credits, n) {
      var k :| 0 <= k < n && credits[k].artist == credits[n].artist && credits[k].role == credits[n].role;
      var j := FirstOfCredit(before, k);
      assert j in at;
      var a :| 0 <= a < |at| && at[a] == j;
      assert kept[a] in kept;
    }
  }

  // ----- images -----

  ghost predicate FirstImage(images: seq<AlbumImage>, i: nat)
    requires i < |images|
  {
    forall j | 0 <= j < i :: images[j].image != images[i].image
  }

  ghost predicate LastImage(images: seq<AlbumImage>, i: nat)
    requires i < |images|
  {
    forall j | i < j < |images| :: images[j].image != images[i].image
  }

  ghost predicate Lists(images: seq<AlbumImage>, image: Id) {
    exists j :: 0 <= j < |images| && images[j].image == image
  }

  /** A cover of the links is among the images. */
  ghost predicate CoverListed(links: map<Id, ImageLink>, images: seq<AlbumImage>) {
    exists j :: 0 <= j < |images| && images[j].image in links && links[images[j].image].cover
  }

  /** Each image has the kind given last. */
  ghost predicate KindsGiven(images: seq<AlbumImage>, after: map<Id, ImageLink>) {
    forall j: nat | j < |images| && LastImage(images, j) ::
      images[j].image in after && after[images[j].image].kind == images[j].kind
  }

  /** A link that is new is the cover if its first mention sets it and there is no other. */
  ghost predicate CoversChosen(before: map<Id, ImageLink>, images: seq<AlbumImage>, hasCover: bool,
                               after: map<Id, ImageLink>) {
    forall j: nat | j < |images| && FirstImage(images, j) && images[j].image !in before ::
      images[j].image in after && (after[images[j].image].cover <==> images[j].setCover && !hasCover)
  }

  /** Exactly the images are linked, each under the kind given last. A known link stays a
      cover or not; a new one is the cover if the payload sets it and no old cover is
      among the images. */
  ghost predicate ImagesReplaced(before: map<Id, ImageLink>, images: seq<AlbumImage>, after: map<Id, ImageLink>) {
    && (forall i :: i in after <==> Lists(images, i))
    && KindsGiven(images, after)
    && (forall i | i in after && i in before :: after[i].cover <==> before[i].cover)
    && CoversChosen(before, images, CoverListed(before, images), after)
  }

  /** The links after some of the images, when the kept ones were `kept`. */
  ghost predicate ImagesUpserted(kept: map<Id, ImageLink>, images: seq<AlbumImage>, hasCover: bool,
                                 after: map<Id, ImageLink>) {
    && (forall i :: i in after <==> i in kept || Lists(images, i))
    && KindsGiven(images, after)
    && (forall i | i in kept :: i in after && (after[i].cover <==> kept[i].cover))
    && CoversChosen(kept, images, hasCover, after)
  }

  lemma {:induction false} UpsertImagesFields(kept: map<Id, ImageLink>, images: seq<AlbumImage>, hasCover: bool)
    ensures ImagesUpserted(kept, images, hasCover, UpsertImages(kept, images, hasCover))
    decreases |images|
  {
    if images != [] {
      var n := |images| - 1;
      UpsertImagesFields(kept, images[..n], hasCover);
      NextImage(kept, images, hasCover, UpsertImages(kept, images[..n], hasCover));
    }
  }

  lemma NextImage(kept: map<Id, ImageLink>, images: seq<AlbumImage>, hasCover: bool, before: map<Id, ImageLink>)
    requires images != [] && ImagesUpserted(kept, images[..|images| - 1], hasCover, before)
    ensures var img := images[|images| - 1];
      ImagesUpserted(kept, images, hasCover, before[img.image := ImageLink(img.kind,
        if img.image in before then before[img.image].cover else img.setCover && !hasCover)])
  {
    ListsNext(images);
    var img := images[|images| - 1];
    var link := ImageLink(img.kind, if img.image in before then before[img.image].cover else img.setCover && !hasCover);
    NextKinds(images, before, link);
    NextCovers(kept, images, hasCover, before, link);
    hide KindsGiven, CoversChosen, Lists, FirstImage;
  }

  lemma NextKinds(images: seq<AlbumImage>, before: map<Id, ImageLink>, link: ImageLink)
    requires images != [] && KindsGiven(images[..|images| - 1], before) && link.kind == images[|images| - 1].kind
    ensures KindsGiven(images, before[images[|images| - 1].image := link])
  {
    var n := |images| - 1;
    var less, after := images[..n], before[images[n].image := link];
    forall j: nat | j < |images| && LastImage(images, j)
      ensures images[j].image in after && after[images[j].image].kind == images[j].kind
    {
      if j < n {
        assert images[j].image != images[n].image;
        assert less[j] == images[j] && LastImage(less, j);
      }
    }
  }

  lemma NextCovers(kept: map<Id, ImageLink>, images: seq<AlbumImage>, hasCover: bool, before: map<Id, ImageLink>,
                   link: ImageLink)
    requires images != [] && CoversChosen(kept, images[..|images| - 1], hasCover, before)
    requires var n := |images| - 1;
      && (FirstImage(images, n) && images[n].image !in kept ==> images[n].image !in before)
      && (link.cover <==>
            if images[n].image in before then before[images[n].image].cover else images[n].setCover && !hasCover)
    ensures CoversChosen(kept, images, hasCover, before[images[|images| - 1].image := link])
  {
    var n := |images| - 1;
    var less, after := images[..n], before[images[n].image := link];
    forall j: nat | j < |images| && FirstImage(images, j) && images[j].image !in kept
      ensures images[j].image in after && (after[images[j].image].cover <==> images[j].setCover && !hasCover)
    {
      if j < n { assert less[j] == images[j] && FirstImage(less, j); }
    }
  }

  lemma ListsNext(images: seq<AlbumImage>)
    requires images != []
    ensures var n := |images| - 1;
      && (forall i :: Lists(images, i) <==> Lists(images[..n], i) || i == images[n].image)
      && (FirstImage(images, n) <==> !Lists(images[..n], images[n].image))
  {
    var n := |images| - 1;
    var less := images[..n];
    forall i ensures Lists(images, i) <==> Lists(less, i) || i == images[n].image {
      if Lists(less, i) {
        var j :| 0 <= j < n && less[j].image == i;
        assert images[j].image == i;
      }
      if i == images[n].image { assert images[n].image == i; }
    }
    if !FirstImage(images, n) {
      var j :| 0 <= j < n && images[j].image == images[n].image;
      assert less[j].image == images[n].image;
    }
  }

  lemma ReplaceImagesFields(before: map<Id, ImageLink>, images: seq<AlbumImage>)
    ensures ImagesReplaced(before, images, ReplaceImages(before, images))
  {
    var kept := KeepImages(before, images);
    UpsertImagesFields(kept, images, HasCover(kept));
    forall i ensures Lists(images, i) <==> i in ImageIds(images) {
      if Lists(images, i) {
        var j :| 0 <= j < |images| && images[j].image == i;
        assert images[j] in images;
      }
    }
    assert HasCover(kept) <==> CoverListed(before, images) by {
      if HasCover(kept) {
        var i :| i in kept && kept[i].cover;
        assert Lists(images, i);
      }
      if CoverListed(before, images) {
        var j :| 0 <= j < |images| && images[j].image in before && before[images[j].image].cover;
        assert Lists(images, images[j].image);
        assert images[j].image in kept;
      }
    }
    forall j: nat | j < |images| && images[j].image !in before ensures images[j].image !in kept {}
  }

  /** When the images are distinct and no old cover is among them, the cover is what the
      payload sets, unless that image was linked before without being the cover. */
  lemma CoverIsPayloads(before: map<Id, ImageLink>, images: seq<AlbumImage>, after: map<Id, ImageLink>, j: nat)
    requires ImagesReplaced(before, images, after) && j < |images|
    requires forall a, b | 0 <= a < b < |images| :: images[a].image != images[b].image
    requires !CoverListed(before, images)
    ensures images[j].image in after
    ensures after[images[j].image].cover <==> images[j].setCover && images[j].image !in before
  {
    assert FirstImage(images, j) && LastImage(images, j);
  }

  /** The payload sets the cover on an image that was not linked before. */
  ghost predicate SetsNewCover(before: map<Id, ImageLink>, images: seq<AlbumImage>) {
    exists j :: 0 <= j < |images| && FirstImage(images, j) && images[j].setCover && images[j].image !in before
  }

  /** So an album has a cover after the import if and only if an old one is among the
      images, or the payload sets one that was not linked before. */
  lemma HasCoverIff(before: map<Id, ImageLink>, images: seq<AlbumImage>, after: map<Id, ImageLink>)
    requires ImagesReplaced(before, images, after)
    ensures HasCover(after) <==> CoverListed(before, images) || SetsNewCover(before, images)
  {
    hide KindsGiven;
    if HasCover(after) { CoverComesFrom(before, images, after); }
    if CoverListed(before, images) {
      var j :| 0 <= j < |images| && images[j].image in before && before[images[j].image].cover;
      assert Lists(images, images[j].image);
      assert after[images[j].image].cover;
    } else if SetsNewCover(before, images) {
      var j :| 0 <= j < |images| && FirstImage(images, j) && images[j].setCover && images[j].image !in before;
      assert after[images[j].image].cover;
    }
  }

  lemma CoverComesFrom(before: map<Id, ImageLink>, images: seq<AlbumImage>, after: map<Id, ImageLink>)
    requires ImagesReplaced(before, images, after) && HasCover(after)
    ensures CoverListed(before, images) || SetsNewCover(before, images)
  {
    hide KindsGiven;
    var i :| i in after && after[i].cover;
    assert Lists(images, i);
    var k :| 0 <= k < |images| && images[k].image == i;
    if i !in before {
      var j := FirstOfImage(images, k);
      hide FirstImage;
    }
  }

  lemma {:induction false} FirstOfImage(images: seq<AlbumImage>, i: nat) returns (j: nat)
    requires i < |images|
    ensures j <= i && images[j].image == images[i].image && FirstImage(images, j)
    decreases i
  {
    j := i;
    if k :| 0 <= k < i && images[k].image == images[i].image { j := FirstOfImage(images, k); }
  }

  /** A concrete album: its cover image is gone, the importer picks the image that is
      left, and the album has no cover afterwards. */
  lemma CoverLeftUnset()
    ensures var before := map[1 := ImageLink(Cover, true), 2 := ImageLink(Cover, false)];
      var after := ReplaceImages(before, [AlbumImage(2, Cover, true)]);
      2 in after && forall i :: i in after ==> !after[i].cover
  {
    var before := map[1 := ImageLink(Cover, true), 2 := ImageLink(Cover, false)];
    var images := [AlbumImage(2, Cover, true)];
    ReplaceImagesFields(before, images);
    assert images[0].image == 2 && Lists(images, 2);
    hide ReplaceImages;
  }
}
