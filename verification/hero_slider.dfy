/**
 * The hero slider (src/components/organisms/HeroSlider.jsx): one
 * `currentSlide` index over a fixed list of slides, moved forward and back
 * cyclically, set directly from the dot buttons, and advanced by a timer.
 */
module HeroSlider {
  import opened CyclicIndex

  /** Whether the "Welcome" fallback is drawn instead of the slides. */
  predicate ShowFallback(count: nat)
  {
    count == 0
  }

  /** The arrow buttons and the row of dots are drawn only for more than one slide. */
  predicate ShowControls(count: nat)
  {
    count > 1
  }

  /** The `isActive` flag handed to each of the `count` slides. */
  function ActiveFlags(count: nat, current: int): (r: seq<bool>)
    ensures |r| == count
    ensures forall i :: 0 <= i < count ==> (r[i] <==> i == current)
  {
    seq(count, i => i == current)
  }

  /** The number of `true` entries. */
  function CountTrue(flags: seq<bool>): (r: nat)
    ensures r <= |flags|
  {
    if flags == [] then 0 else (if flags[0] then 1 else 0) + CountTrue(flags[1..])
  }

  lemma {:induction false} CountTrueSingle(flags: seq<bool>, k: int)
    requires forall i :: 0 <= i < |flags| ==> (flags[i] <==> i == k)
    ensures CountTrue(flags) == if 0 <= k < |flags| then 1 else 0
    decreases flags
  {
    if flags != [] {
      var rest := flags[1..];
      assert forall i :: 0 <= i < |rest| ==> (rest[i] <==> i == k - 1) by {
        forall i | 0 <= i < |rest| ensures rest[i] <==> i == k - 1 {
          assert rest[i] == flags[i + 1];
        }
      }
      CountTrueSingle(rest, k - 1);
    }
  }

  /** Exactly one slide is active when the index is in range, and none otherwise. */
  lemma ExactlyOneActive(count: nat, current: int)
    ensures CountTrue(ActiveFlags(count, current)) == if 0 <= current < count then 1 else 0
  {
    CountTrueSingle(ActiveFlags(count, current), current);
  }

  /** The index each dot button passes to `goToSlide`. */
  function DotTargets(count: nat): (r: seq<int>)
    ensures |r| == count
    ensures forall i :: 0 <= i < count ==> r[i] == i
  {
    seq(count, i => i)
  }

  /** Every index a dot button can pass is a valid slide index. */
  lemma DotsTargetSlides(count: nat)
    ensures forall t :: t in DotTargets(count) ==> 0 <= t < count
  {
  }

  /**
   * What the slider draws for `count` slides: the fallback exactly when no
   * slide is drawn, and the arrows and dots only when there are at least two
   * slides to move between, never together with the fallback.
   */
  lemma FallbackSlidesControls(count: nat, current: int)
    ensures ShowFallback(count) <==> ActiveFlags(count, current) == []
    ensures ShowControls(count) <==> |DotTargets(count)| > 1
    ensures ShowControls(count) ==> !ShowFallback(count)
  {
  }

  class SliderState<S> {
    const slides: seq<S>
    /** The `autoPlay` prop (default `true`). */
    const autoPlay: bool
    var currentSlide: int

    /** The index names a slide, or is the initial 0 when there are none. */
    ghost predicate Valid()
      reads this
    {
      0 <= currentSlide && (currentSlide < |slides| || currentSlide == 0)
    }

    /** `useState(0)`. */
    constructor(slides: seq<S>, autoPlay: bool)
      ensures this.slides == slides && this.autoPlay == autoPlay
      ensures currentSlide == 0 && Valid()
    {
      this.slides := slides;
      this.autoPlay := autoPlay;
      currentSlide := 0;
    }

    /**
     * `nextSlide`: one step forward, wrapping from the last slide to the
     * first. Its callers, the right arrow and the timer, exist only with more
     * than one slide.
     */
    method NextSlide()
      requires Valid() && ShowControls(|slides|)
      modifies this
      ensures currentSlide == Next(old(currentSlide), |slides|)
      ensures currentSlide == if old(currentSlide) == |slides| - 1 then 0 else old(currentSlide) + 1
      ensures Valid()
    {
      StepsInRange(currentSlide, |slides|);
      currentSlide := Next(currentSlide, |slides|);
    }

    /** `prevSlide`: one step back, wrapping from the first slide to the last; its left arrow exists only with more than one slide. */
    method PrevSlide()
      requires Valid() && ShowControls(|slides|)
      modifies this
      ensures currentSlide == Prev(old(currentSlide), |slides|)
      ensures currentSlide == if old(currentSlide) == 0 then |slides| - 1 else old(currentSlide) - 1
      ensures Valid()
    {
      StepsInRange(currentSlide, |slides|);
      currentSlide := Prev(currentSlide, |slides|);
    }

    /** `goToSlide(index)`: the index as given, from a dot button; the dots exist only with more than one slide. */
    method GoToSlide(index: int)
      requires ShowControls(|slides|) && index in DotTargets(|slides|)
      modifies this
      ensures currentSlide == index && Valid()
    {
      currentSlide := index;
    }

    /**
     * One tick of the auto-play timer. The timer runs only when `autoPlay`
     * holds and there is more than one slide; then it takes the same step as
     * `nextSlide`.
     */
    method AutoAdvance()
      requires Valid()
      modifies this
      ensures autoPlay && ShowControls(|slides|) ==> currentSlide == Next(old(currentSlide), |slides|)
      ensures !(autoPlay && ShowControls(|slides|)) ==> currentSlide == old(currentSlide)
      ensures Valid()
    {
      if autoPlay && ShowControls(|slides|) {
        NextSlide();
      }
    }
  }
}
