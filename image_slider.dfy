/**
 * The home-page carousel (frontend/src/components/ui/ImageSlider.js): the
 * `currentIndex` and `isPaused` state and the handlers and timer that change
 * them. The timer is modelled by its callback, `AutoAdvance`, which runs
 * only while the interval is installed, i.e. while the slider is not paused.
 */
module ImageSlider {
  /** The slide images, in display order. */
  const Images: seq<string> := [
    "/ysclunchsoccer1.jpg", "/ysclunchsoccer2.jpg", "/ysclunchsoccer3.jpg",
    "/ysclunchsoccer4.jpg", "/ysclunchsoccer5.jpg"]

  /** The index after `i`: the last slide wraps to 0. */
  function Next(i: nat): (r: nat)
    ensures i < |Images| ==> r < |Images|
  {
    (i + 1) % |Images|
  }

  /** The index before `i`: 0 wraps to the last slide. */
  function Previous(i: nat): (r: nat)
    requires i < |Images|
    ensures r < |Images|
  {
    if i == 0 then |Images| - 1 else i - 1
  }

  /** The two buttons undo each other. */
  lemma NextPreviousInverse(i: nat)
    requires i < |Images|
    ensures Previous(Next(i)) == i
    ensures Next(Previous(i)) == i
  {
  }

  /** `k` steps forward. */
  function NextIter(i: nat, k: nat): (r: nat)
    requires i < |Images|
    ensures r < |Images|
  {
    if k == 0 then i else Next(NextIter(i, k - 1))
  }

  /** `k` steps forward land `k` places further round the ring. */
  lemma {:induction false} NextIterShift(i: nat, k: nat)
    requires i < |Images|
    ensures NextIter(i, k) == (i + k) % |Images|
  {
    if k > 0 {
      NextIterShift(i, k - 1);
    }
  }

  /** Going forward once per slide comes back to the same slide. */
  lemma FullCycle(i: nat)
    requires i < |Images|
    ensures NextIter(i, |Images|) == i
  {
    NextIterShift(i, |Images|);
  }

  class Slider {
    var currentIndex: nat
    var isPaused: bool

    predicate Valid()
      reads this
    {
      currentIndex < |Images|
    }

    constructor()
      ensures Valid() && currentIndex == 0 && !isPaused
    {
      currentIndex := 0;
      isPaused := false;
    }

    /** `goToNext`. */
    method GoToNext()
      requires Valid()
      modifies this
      ensures Valid() && currentIndex == Next(old(currentIndex)) && isPaused == old(isPaused)
    {
      currentIndex := (currentIndex + 1) % |Images|;
    }

    /** `goToPrevious`. */
    method GoToPrevious()
      requires Valid()
      modifies this
      ensures Valid() && currentIndex == Previous(old(currentIndex)) && isPaused == old(isPaused)
    {
      currentIndex := if currentIndex == 0 then |Images| - 1 else currentIndex - 1;
    }

    /** `goToSlide(index)` from a dot: the dots are numbered by the images. */
    method GoToSlide(index: nat)
      requires Valid() && index < |Images|
      modifies this
      ensures Valid() && currentIndex == index && isPaused == old(isPaused)
    {
      currentIndex := index;
    }

    /** One firing of the interval timer, which is not installed while paused. */
    method AutoAdvance()
      requires Valid()
      modifies this
      ensures Valid() && isPaused == old(isPaused)
      ensures currentIndex == if old(isPaused) then old(currentIndex) else Next(old(currentIndex))
    {
      if isPaused {
        return;
      }
      currentIndex := (currentIndex + 1) % |Images|;
    }

    /** `onMouseEnter` / `onMouseLeave`. */
    method SetPaused(paused: bool)
      requires Valid()
      modifies this
      ensures Valid() && isPaused == paused && currentIndex == old(currentIndex)
    {
      isPaused := paused;
    }
  }
}
