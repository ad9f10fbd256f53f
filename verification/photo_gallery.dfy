/**
 * The photo gallery lightbox (src/components/organisms/PhotoGallery.jsx):
 * one `selectedPhoto` slot, opened on a photo, closed, and moved to the
 * next or previous photo of the list by locating the selected photo's id.
 */
module PhotoGallery {
  import opened Wrappers
  import opened JsSemantics
  import opened CyclicIndex

  type PhotoId = int

  datatype Photo = Photo(id: PhotoId, image: string, title: string, description: string)

  /** No two photos share an id. */
  predicate UniqueIds(photos: seq<Photo>)
  {
    forall i, j :: 0 <= i < j < |photos| ==> photos[i].id != photos[j].id
  }

  /**
   * `photos.findIndex(p => p.id === id)`: the first index holding `id`, or
   * -1 when no photo has it.
   */
  function IndexOfId(photos: seq<Photo>, id: PhotoId): (r: int)
    ensures -1 <= r < |photos|
    ensures r == -1 <==> forall k :: 0 <= k < |photos| ==> photos[k].id != id
    ensures r >= 0 ==> photos[r].id == id && forall k :: 0 <= k < r ==> photos[k].id != id
  {
    if photos == [] then -1
    else if photos[0].id == id then 0
    else
      var rest := IndexOfId(photos[1..], id);
      if rest == -1 then -1 else rest + 1
  }

  /** The linear scan behind `findIndex`. */
  method FindIndex(photos: seq<Photo>, id: PhotoId) returns (idx: int)
    ensures idx == IndexOfId(photos, id)
  {
    var k := 0;
    while k < |photos|
      invariant 0 <= k <= |photos|
      invariant forall j :: 0 <= j < k ==> photos[j].id != id
    {
      if photos[k].id == id {
        return k;
      }
      k := k + 1;
    }
    return -1;
  }

  /** With unique ids, a photo's id is found at that photo's own index. */
  lemma IndexOfOwnId(photos: seq<Photo>, k: int)
    requires UniqueIds(photos) && 0 <= k < |photos|
    ensures IndexOfId(photos, photos[k].id) == k
  {
  }

  /**
   * What `nextPhoto` stores: `photos[(idx + 1) % n]`. With no photos the
   * index is `NaN` and the lookup gives `undefined`, which closes the lightbox.
   */
  function NextSelection(photos: seq<Photo>, selected: Photo): (r: Option<Photo>)
    ensures r.Some? <==> |photos| > 0
    ensures r.Some? ==> r.value in photos
  {
    if |photos| == 0 then None
    else
      var i := JsRem(IndexOfId(photos, selected.id) + 1, |photos|);
      Some(photos[i])
  }

  /** What `prevPhoto` stores: `photos[(idx - 1 + n) % n]`. */
  function PrevSelection(photos: seq<Photo>, selected: Photo): (r: Option<Photo>)
    ensures r.Some? <==> |photos| > 0
    ensures r.Some? ==> r.value in photos
  {
    if |photos| == 0 then None
    else
      var i := JsRem(IndexOfId(photos, selected.id) - 1 + |photos|, |photos|);
      assert i >= 0;
      Some(photos[i])
  }

  /** For a selected photo at index `k`, the steps are the cyclic index steps. */
  lemma SelectionSteps(photos: seq<Photo>, k: int)
    requires UniqueIds(photos) && 0 <= k < |photos|
    ensures NextSelection(photos, photos[k]) == Some(photos[Next(k, |photos|)])
    ensures PrevSelection(photos, photos[k]) == Some(photos[Prev(k, |photos|)])
    ensures 0 <= Next(k, |photos|) < |photos| && 0 <= Prev(k, |photos|) < |photos|
  {
    IndexOfOwnId(photos, k);
    StepsInRange(k, |photos|);
  }

  /**
   * When the selected id is not in the list, `findIndex` gives -1: next
   * goes to the first photo, and prev to the second-to-last one (to the
   * only one when there is a single photo).
   */
  lemma SelectionNotFound(photos: seq<Photo>, selected: Photo)
    requires |photos| > 0
    requires forall k :: 0 <= k < |photos| ==> photos[k].id != selected.id
    ensures NextSelection(photos, selected) == Some(photos[0])
    ensures PrevSelection(photos, selected) == Some(photos[if |photos| == 1 then 0 else |photos| - 2])
  {
  }

  /** With unique ids, prev after next and next after prev come back to the selected photo. */
  lemma PrevNextRestore(photos: seq<Photo>, selected: Photo)
    requires UniqueIds(photos) && selected in photos
    ensures NextSelection(photos, selected).Some?
    ensures PrevSelection(photos, NextSelection(photos, selected).value) == Some(selected)
    ensures PrevSelection(photos, selected).Some?
    ensures NextSelection(photos, PrevSelection(photos, selected).value) == Some(selected)
  {
    var n := |photos|;
    var k :| 0 <= k < n && photos[k] == selected;
    SelectionSteps(photos, k);
    SelectionSteps(photos, Next(k, n));
    SelectionSteps(photos, Prev(k, n));
    PrevNextInverse(k, n);
  }

  /** The lightbox contents after `steps` presses of the next button, starting from `selected`. */
  function AfterNexts(photos: seq<Photo>, selected: Option<Photo>, steps: nat): Option<Photo>
  {
    if steps == 0 then selected
    else match AfterNexts(photos, selected, steps - 1)
      case None => None
      case Some(p) => NextSelection(photos, p)
  }

  lemma {:induction false} AfterNextsIndex(photos: seq<Photo>, k: int, steps: nat)
    requires UniqueIds(photos) && 0 <= k < |photos|
    ensures 0 <= NextN(k, |photos|, steps) < |photos|
    ensures AfterNexts(photos, Some(photos[k]), steps) == Some(photos[NextN(k, |photos|, steps)])
  {
    if steps > 0 {
      AfterNextsIndex(photos, k, steps - 1);
      SelectionSteps(photos, NextN(k, |photos|, steps - 1));
    }
  }

  /** With unique ids, as many next presses as there are photos come back to the selected photo. */
  lemma NextsCycle(photos: seq<Photo>, selected: Photo)
    requires UniqueIds(photos) && selected in photos
    ensures AfterNexts(photos, Some(selected), |photos|) == Some(selected)
  {
    var k :| 0 <= k < |photos| && photos[k] == selected;
    AfterNextsIndex(photos, k, |photos|);
    FullCycle(k, |photos|);
  }

  class GalleryState {
    /** The `photos` prop. */
    const photos: seq<Photo>
    /** `selectedPhoto`: `None` is `null`, the closed lightbox. */
    var selectedPhoto: Option<Photo>

    /** `useState(null)`. */
    constructor(photos: seq<Photo>)
      ensures this.photos == photos && selectedPhoto == None
    {
      this.photos := photos;
      selectedPhoto := None;
    }

    /** The lightbox is drawn while a photo is selected. */
    predicate LightboxOpen()
      reads this
    {
      selectedPhoto.Some?
    }

    /** `openLightbox(photo)`. */
    method OpenLightbox(photo: Photo)
      modifies this
      ensures selectedPhoto == Some(photo)
    {
      selectedPhoto := Some(photo);
    }

    /** `closeLightbox()`. */
    method CloseLightbox()
      modifies this
      ensures selectedPhoto == None
    {
      selectedPhoto := None;
    }

    /** `nextPhoto()`; its button exists only inside the open lightbox. */
    method NextPhoto()
      requires selectedPhoto.Some?
      modifies this
      ensures selectedPhoto == NextSelection(photos, old(selectedPhoto).value)
      ensures |photos| > 0 ==> LightboxOpen()
    {
      var currentIndex := FindIndex(photos, selectedPhoto.value.id);
      if |photos| == 0 {
        selectedPhoto := None;
      } else {
        var nextIndex := JsRem(currentIndex + 1, |photos|);
        selectedPhoto := Some(photos[nextIndex]);
      }
    }

    /** `prevPhoto()`. */
    method PrevPhoto()
      requires selectedPhoto.Some?
      modifies this
      ensures selectedPhoto == PrevSelection(photos, old(selectedPhoto).value)
      ensures |photos| > 0 ==> LightboxOpen()
    {
      var currentIndex := FindIndex(photos, selectedPhoto.value.id);
      if |photos| == 0 {
        selectedPhoto := None;
      } else {
        var prevIndex := JsRem(currentIndex - 1 + |photos|, |photos|);
        selectedPhoto := Some(photos[prevIndex]);
      }
    }
  }
}
