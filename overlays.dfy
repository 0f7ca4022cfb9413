/** The dismissal rule of the detail overlays that the shows page (season view) and the music page (album
    view) open over the grid. On a touch device a tap closes the overlay only when the 500 ms grace period
    after opening is over, no close is in progress, the finger did not move more than 10 px, the touch
    lasted under 300 ms and it ended outside every card; clicks are swallowed. Without touch, a click
    outside the cards closes. The two timers are abstract events; times are integer milliseconds. */
module Overlays {
  import opened Wrappers

  function Abs(x: real): (r: real)
    ensures r >= 0.0 && (r == x || r == -x)
  {
    if x < 0.0 then -x else x
  }

  /** The decision of the `touchend` handler, from the flags it reads. A touch that never started has no
      start time, and `Date.now() - undefined` is `NaN`, which is not under 300. */
  predicate TapCloses(justOpened: bool, isClosing: bool, isScrolling: bool, touchStartTime: Option<int>,
                      now: int, onCard: bool) {
    !justOpened && !isClosing && !isScrolling
    && touchStartTime.Some? && now - touchStartTime.value < 300
    && !onCard
  }

  /** The `click` handler: on a touch device every click is swallowed; otherwise a click outside the cards
      closes the overlay. */
  function ClickCloses(touchDevice: bool, onCard: bool): (closes: bool)
    ensures closes ==> !onCard
    ensures !touchDevice && !onCard ==> closes
    ensures touchDevice ==> !closes
  {
    !touchDevice && !onCard
  }

  /** The closure state of one overlay's touch handlers: `justOpened`, `isClosing`, `isScrolling`, the start
      of the current touch, and whether the overlay is still in the document. */
  class TouchDismissal {
    var justOpened: bool
    var isClosing: bool
    var isScrolling: bool
    var touchStartTime: Option<int>
    var touchStartY: Option<real>
    var open: bool

    constructor()
      ensures justOpened && !isClosing && !isScrolling && open
      ensures touchStartTime.None? && touchStartY.None?
    {
      justOpened := true;
      isClosing := false;
      isScrolling := false;
      touchStartTime := None;
      touchStartY := None;
      open := true;
    }

    /** The 500 ms timer set when the overlay opens. */
    method GraceElapsed()
      modifies this
      ensures !justOpened
      ensures isClosing == old(isClosing) && isScrolling == old(isScrolling) && open == old(open)
      ensures touchStartTime == old(touchStartTime) && touchStartY == old(touchStartY)
    {
      justOpened := false;
    }

    /** `touchstart`: records when and where the touch began and clears the scrolling flag. */
    method TouchStart(now: int, y: real)
      modifies this
      ensures touchStartTime == Some(now) && touchStartY == Some(y) && !isScrolling
      ensures justOpened == old(justOpened) && isClosing == old(isClosing) && open == old(open)
    {
      touchStartTime := Some(now);
      touchStartY := Some(y);
      isScrolling := false;
    }

    /** `touchmove`: a move of more than 10 px from the start marks the touch as scrolling. */
    method TouchMove(y: real)
      modifies this
      ensures isScrolling <==> old(isScrolling) || (touchStartY.Some? && Abs(y - touchStartY.value) > 10.0)
      ensures justOpened == old(justOpened) && isClosing == old(isClosing) && open == old(open)
      ensures touchStartTime == old(touchStartTime) && touchStartY == old(touchStartY)
    {
      if touchStartY.Some? && Abs(y - touchStartY.value) > 10.0 {
        isScrolling := true;
      }
    }

    /** `touchend` at time `now`, on a card or not: closes the overlay exactly when `TapCloses` holds; a
        scrolling touch that reaches the check only clears the scrolling flag. */
    method TouchEnd(now: int, onCard: bool) returns (closes: bool)
      modifies this
      ensures closes <==> TapCloses(old(justOpened), old(isClosing), old(isScrolling), old(touchStartTime),
                                    now, onCard)
      ensures closes ==> isClosing && !open
      ensures !closes ==> isClosing == old(isClosing) && open == old(open)
      ensures isScrolling <==> old(isScrolling) && (old(justOpened) || old(isClosing))
      ensures justOpened == old(justOpened)
      ensures touchStartTime == old(touchStartTime) && touchStartY == old(touchStartY)
    {
      closes := false;
      if justOpened || isClosing {
        return;
      }
      if isScrolling {
        isScrolling := false;
        return;
      }
      if touchStartTime.Some? && now - touchStartTime.value < 300 && !onCard {
        closes := true;
        isClosing := true;
        open := false;
      }
    }

    /** The 300 ms timer set when a tap closes the overlay. */
    method ClosingElapsed()
      modifies this
      ensures !isClosing
      ensures justOpened == old(justOpened) && isScrolling == old(isScrolling) && open == old(open)
      ensures touchStartTime == old(touchStartTime) && touchStartY == old(touchStartY)
    {
      isClosing := false;
    }
  }

  /** While a close is in progress no further tap closes: the second of two taps, with no timer in between,
      never closes. */
  method SecondTapIgnored(d: TouchDismissal, start: int, now: int, onCard: bool) returns (first: bool, second: bool)
    modifies d
    ensures first ==> !second
  {
    first := d.TouchEnd(now, onCard);
    d.TouchStart(start, 0.0);
    second := d.TouchEnd(now, onCard);
  }
}
