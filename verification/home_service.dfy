/**
 * The home page data service (src/services/api/homeService.js) without its
 * artificial delays: each getter is the pure transform of its mock data.
 */
module HomeService {
  import opened Wrappers
  import opened JsSemantics
  import opened PhotoGallery

  /** One hero slide record; `ctaText` may be absent (`None`) or any string. */
  datatype Slide = Slide(id: int, image: string, title: string, subtitle: string, ctaText: Option<string>)

  const DefaultCta: string := "Learn More"

  /** JavaScript truthiness of an optional string: present and non-empty. */
  predicate TruthyText(text: Option<string>)
  {
    text.Some? && TruthyString(text.value)
  }

  /** `{...slide, ctaText: slide.ctaText || "Learn More"}`. */
  function WithDefaultCta(slide: Slide): (r: Slide)
    ensures TruthyText(r.ctaText)
    ensures TruthyText(slide.ctaText) ==> r == slide
    ensures !TruthyText(slide.ctaText) ==> r.ctaText == Some(DefaultCta)
    ensures r.(ctaText := slide.ctaText) == slide
  {
    if TruthyText(slide.ctaText) then slide else slide.(ctaText := Some(DefaultCta))
  }

  /** `getSliderImages`: one slide per source slide, in order, each with a call-to-action text. */
  function GetSliderImages(slides: seq<Slide>): (r: seq<Slide>)
    ensures |r| == |slides|
    ensures forall i :: 0 <= i < |slides| ==> r[i] == WithDefaultCta(slides[i])
  {
    if slides == [] then [] else [WithDefaultCta(slides[0])] + GetSliderImages(slides[1..])
  }

  /** Every slide handed to the slider has a truthy call-to-action, and all its other fields are the source's. */
  lemma SliderImagesHaveCta(slides: seq<Slide>)
    ensures forall i :: 0 <= i < |slides| ==>
              TruthyText(GetSliderImages(slides)[i].ctaText) &&
              GetSliderImages(slides)[i].(ctaText := slides[i].ctaText) == slides[i]
  {
  }

  /** The transform leaves the data unchanged exactly when every source slide already has a truthy call-to-action. */
  lemma SliderImagesUnchangedIff(slides: seq<Slide>)
    ensures GetSliderImages(slides) == slides <==> forall i :: 0 <= i < |slides| ==> TruthyText(slides[i].ctaText)
  {
    if GetSliderImages(slides) == slides {
      forall i | 0 <= i < |slides| ensures TruthyText(slides[i].ctaText) {
        assert GetSliderImages(slides)[i] == WithDefaultCta(slides[i]);
      }
    }
  }

  /** Applying the transform a second time changes nothing. */
  lemma SliderImagesIdempotent(slides: seq<Slide>)
    ensures GetSliderImages(GetSliderImages(slides)) == GetSliderImages(slides)
  {
    SliderImagesUnchangedIff(GetSliderImages(slides));
  }

  const HomePhotoCount: nat := 6

  /** `getHomePhotos`: `homePhotos.slice(0, 6)`. */
  function GetHomePhotos(photos: seq<Photo>): (r: seq<Photo>)
    ensures |r| == if |photos| < HomePhotoCount then |photos| else HomePhotoCount
    ensures r == photos[..|r|]
  {
    Slice(photos, 0, HomePhotoCount)
  }

  /** `getStats`: the stats data, unchanged. */
  function GetStats<T>(stats: T): (r: T)
    ensures r == stats
  {
    stats
  }
}
