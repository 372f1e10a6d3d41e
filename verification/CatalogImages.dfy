/** Cover choices survive imports. */
module CatalogImages {
  import opened Basics
  import opened Catalog
  import opened CatalogFields

  /** The kind given last in the payload. */
  function LastKind(images: seq<AlbumImage>, i: Id): ImageKind
    requires i in ImageIds(images)
  {
    var n := |images| - 1;
    if images[n].image == i then images[n].kind
    else
      assert ImageIds(images) == ImageIds(images[..n]) + {images[n].image};
      LastKind(images[..n], i)
  }

  /** What upserting a payload leaves behind, link by link. */
  lemma {:induction false} UpsertImagesAt(links: map<Id, ImageLink>, images: seq<AlbumImage>, hasCover: bool)
    ensures var r := UpsertImages(links, images, hasCover);
      && r.Keys == links.Keys + ImageIds(images)
      && (forall i :: i in ImageIds(images) ==> r[i].kind == LastKind(images, i))
      && (forall i :: i in links ==> r[i].cover == links[i].cover)
      && (forall i :: i in links && i !in ImageIds(images) ==> r[i] == links[i])
      && (forall i | i in r && i !in links && r[i].cover ::
            !hasCover && exists j :: 0 <= j < |images| && images[j].image == i && images[j].setCover)
  {
    if images != [] {
      var n := |images| - 1;
      UpsertImagesAt(links, images[..n], hasCover);
      assert ImageIds(images) == ImageIds(images[..n]) + {images[n].image};
      var before := UpsertImages(links, images[..n], hasCover);
      var r := UpsertImages(links, images, hasCover);
      forall i | i in r && i !in links && r[i].cover
        ensures !hasCover && exists j :: 0 <= j < |images| && images[j].image == i && images[j].setCover
      {
        if i in before {
          var j :| 0 <= j < n && images[..n][j].image == i && images[..n][j].setCover;
          assert images[j].image == i && images[j].setCover;
        } else {
          assert images[n].image == i && images[n].setCover;
        }
      }
    }
  }

  /** After an import an album links exactly the imported images, has at most one cover,
      and a cover that survives the delete of stale links is kept; without one, the
      payload's choice among the new links is the cover. */
  lemma CoverKept(links: map<Id, ImageLink>, images: seq<AlbumImage>)
    requires AtMostOneCover(links) && CoverChoice(images)
    ensures var r := ReplaceImages(links, images);
      && r.Keys == ImageIds(images)
      && AtMostOneCover(r)
      && (forall i :: i in links && i in r && links[i].cover ==> r[i].cover)
      && (forall i :: i in links && i in r && r[i].cover ==> links[i].cover)
      && ImagesReplaced(links, images, r)
  {
    ReplaceImagesFields(links, images);
    hide ImagesReplaced;
    var kept := KeepImages(links, images);
    UpsertImagesAt(kept, images, HasCover(kept));
    var r := ReplaceImages(links, images);
    forall i, j | i in r && j in r && r[i].cover && r[j].cover ensures i == j {
      if i in kept || j in kept {
        assert HasCover(kept);
      } else {
        var a :| 0 <= a < |images| && images[a].image == i && images[a].setCover;
        var b :| 0 <= b < |images| && images[b].image == j && images[b].setCover;
        assert a == b;
      }
    }
  }

  /** Importing the same images again changes nothing. */
  lemma ReplaceImagesTwice(links: map<Id, ImageLink>, images: seq<AlbumImage>)
    ensures ReplaceImages(ReplaceImages(links, images), images) == ReplaceImages(links, images)
  {
    var kept := KeepImages(links, images);
    UpsertImagesAt(kept, images, HasCover(kept));
    var r := ReplaceImages(links, images);
    assert KeepImages(r, images) == r;
    UpsertImagesAt(r, images, HasCover(r));
    var again := ReplaceImages(r, images);
    assert again.Keys == r.Keys;
    forall i | i in r ensures again[i] == r[i] {}
  }
}
