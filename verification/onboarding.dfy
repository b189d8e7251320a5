/**
 * The onboarding carousel: four slides, a "next" button that advances through them and, on the
 * last one, finishes onboarding, and a row of dots that marks the slide on display.
 */
module Onboarding {

  datatype Slide = Slide(id: nat, title: string)

  /** `SLIDES`; the text, icon and colour of each slide are presentation only. */
  const SLIDES: seq<Slide> := [
    Slide(1, "Следите за переливаниями"),
    Slide(2, "Контролируйте анализы"),
    Slide(3, "Не пропускайте важное"),
    Slide(4, "Делитесь с врачом")
  ]

  /** The labels of the button: "next" before the last slide, "start" on it. */
  const NEXT_LABEL: string := "Далее"
  const START_LABEL: string := "Начать"

  /** There are four slides, numbered 1 to 4 in order. */
  lemma FourSlides()
    ensures |SLIDES| == 4 && forall i :: 0 <= i < |SLIDES| ==> SLIDES[i].id == i + 1
  {
  }

  class Carousel {
    var currentSlide: int

    predicate Valid()
      reads this
    {
      0 <= currentSlide < |SLIDES|
    }

    constructor ()
      ensures Valid() && currentSlide == 0
    {
      currentSlide := 0;
    }

    /** `isLastSlide`. */
    function IsLastSlide(): (b: bool)
      reads this
      requires Valid()
      ensures b <==> currentSlide == 3
    {
      currentSlide == |SLIDES| - 1
    }

    /** The button's label. */
    function ButtonLabel(): (l: string)
      reads this
      requires Valid()
      ensures l == START_LABEL <==> IsLastSlide()
      ensures l == NEXT_LABEL <==> !IsLastSlide()
    {
      if IsLastSlide() then START_LABEL else NEXT_LABEL
    }

    /** The progress dots: one per slide, exactly the one of the slide on display is wide. */
    function Dots(): (ds: seq<bool>)
      reads this
      requires Valid()
      ensures |ds| == |SLIDES|
      ensures forall i :: 0 <= i < |ds| ==> (ds[i] <==> i == currentSlide)
    {
      var k := currentSlide;
      seq(|SLIDES|, i => i == k)
    }

    /**
     * `handleNext`: before the last slide it moves to the next one; on the last it calls
     * `onComplete` (reported as `completed`) and stays where it is.
     */
    method HandleNext() returns (completed: bool)
      requires Valid()
      modifies this
      ensures Valid()
      ensures completed <==> old(currentSlide) == 3
      ensures currentSlide == if completed then old(currentSlide) else old(currentSlide) + 1
    {
      if currentSlide < |SLIDES| - 1 {
        currentSlide := currentSlide + 1;
        completed := false;
      } else {
        completed := true;
      }
    }
  }

  /**
   * Pressing "next" from the first slide until onboarding completes takes exactly four presses,
   * and the carousel is then on the last slide.
   */
  method PressUntilComplete() returns (presses: nat, last: int)
    ensures presses == 4 && last == 3
  {
    var c := new Carousel();
    presses := 0;
    var done := false;
    while !done
      invariant c.Valid()
      invariant !done ==> presses == c.currentSlide
      invariant done ==> presses == 4 && c.currentSlide == 3
      decreases 4 - presses
    {
      done := c.HandleNext();
      presses := presses + 1;
    }
    last := c.currentSlide;
  }
}
