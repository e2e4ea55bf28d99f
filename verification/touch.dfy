/** The decision logic of the touch composables, lifted out of the DOM
    wiring: the swipe detector (a recorded start position and a classifier
    applied on touchend) and the press tracker (a boolean driven by
    touchstart, touchend and touchcancel). Coordinates are whole numbers. */
module Touch {
  import opened Wrappers

  // ---------------------------------------------------------------------------
  // Swipe detection
  // ---------------------------------------------------------------------------

  /** A touch point's client coordinates. */
  datatype Point = Point(clientX: int, clientY: int)

  /** Where the last recorded touch began. */
  datatype SwipeState = SwipeState(startX: int, startY: int)

  /** Before any touch the start position is the origin. */
  const InitialSwipe: SwipeState := SwipeState(0, 0)

  /** The minimum horizontal travel of a swipe when the caller gives none. */
  const DefaultThreshold: int := 50

  /** The threshold in force for an optional threshold argument. */
  function ThresholdOf(arg: Option<int>): (t: int)
    ensures arg.None? ==> t == 50
    ensures arg.Some? ==> t == arg.value
  {
    arg.GetOr(DefaultThreshold)
  }

  function Abs(x: int): (a: nat)
    ensures a == x || a == -x
  {
    if x < 0 then -x else x
  }

  /** What a touchend is taken to be. */
  datatype Swipe = NoSwipe | SwipeLeft | SwipeRight

  /** Classifies a finished touch by its displacement (dx, dy): no swipe when
      the horizontal travel is under the threshold or under the vertical
      travel, otherwise left for negative dx and right for the rest. */
  function Classify(dx: int, dy: int, threshold: int): Swipe {
    if Abs(dx) < threshold || Abs(dx) < Abs(dy) then NoSwipe
    else if dx < 0 then SwipeLeft
    else SwipeRight
  }

  /** Handles touchstart: the first touch point, when there is one, becomes
      the start position; otherwise nothing changes. */
  function OnTouchStart(s: SwipeState, firstTouch: Option<Point>): (s': SwipeState)
    ensures firstTouch.None? ==> s' == s
    ensures firstTouch.Some? ==> s'.startX == firstTouch.value.clientX && s'.startY == firstTouch.value.clientY
  {
    match firstTouch
    case None => s
    case Some(p) => SwipeState(p.clientX, p.clientY)
  }

  /** Handles touchend: the first changed touch, when there is one, is
      classified by its displacement from the recorded start position. */
  function OnTouchEnd(s: SwipeState, firstChanged: Option<Point>, threshold: int): (d: Swipe)
    ensures firstChanged.None? ==> d == NoSwipe
    ensures firstChanged.Some? ==>
              d == Classify(firstChanged.value.clientX - s.startX, firstChanged.value.clientY - s.startY, threshold)
  {
    match firstChanged
    case None => NoSwipe
    case Some(p) => Classify(p.clientX - s.startX, p.clientY - s.startY, threshold)
  }

  /** The optional callbacks a caller registers. */
  datatype Callbacks = Callbacks(hasSwipeLeft: bool, hasSwipeRight: bool)

  /** A callback invocation. */
  datatype Invoked = SwipeLeftInvoked | SwipeRightInvoked

  /** The callbacks invoked for a classified touchend; a missing callback is
      skipped. */
  function Dispatch(d: Swipe, cbs: Callbacks): (fired: seq<Invoked>)
    ensures |fired| <= 1
    ensures SwipeLeftInvoked in fired <==> d == SwipeLeft && cbs.hasSwipeLeft
    ensures SwipeRightInvoked in fired <==> d == SwipeRight && cbs.hasSwipeRight
  {
    match d
    case NoSwipe => []
    case SwipeLeft => if cbs.hasSwipeLeft then [SwipeLeftInvoked] else []
    case SwipeRight => if cbs.hasSwipeRight then [SwipeRightInvoked] else []
  }

  /** Nothing fires when the horizontal travel is below the threshold or
      below the vertical travel; otherwise the sign of dx picks exactly one
      direction. */
  lemma ClassifyRule(dx: int, dy: int, threshold: int)
    ensures (dx < threshold && -dx < threshold) ==> Classify(dx, dy, threshold) == NoSwipe
    ensures (dx < dy || dx < -dy) && (-dx < dy || -dx < -dy) ==> Classify(dx, dy, threshold) == NoSwipe
    ensures Classify(dx, dy, threshold) == SwipeLeft <==>
              dx < 0 && -dx >= threshold && -dx >= dy && -dx >= -dy
    ensures Classify(dx, dy, threshold) == SwipeRight <==>
              dx >= 0 && dx >= threshold && dx >= dy && dx >= -dy
  {
  }

  /** Mirroring a nonzero horizontal travel swaps left and right and keeps
      "no swipe" unchanged. */
  lemma ClassifyMirror(dx: int, dy: int, threshold: int)
    requires dx != 0
    ensures Classify(dx, dy, threshold) == NoSwipe <==> Classify(-dx, dy, threshold) == NoSwipe
    ensures Classify(dx, dy, threshold) == SwipeLeft <==> Classify(-dx, dy, threshold) == SwipeRight
  {
  }

  /** A touch event as the swipe detector sees it. */
  datatype SwipeEvent =
    | TouchStart(firstTouch: Option<Point>)
    | TouchEnd(firstChanged: Option<Point>)

  /** The detector's state after one event; touchend does not change it. */
  function SwipeStep(s: SwipeState, e: SwipeEvent): SwipeState {
    match e
    case TouchStart(t) => OnTouchStart(s, t)
    case TouchEnd(_) => s
  }

  /** The detector's state after a run of events, processed in order. */
  function SwipeRun(s: SwipeState, events: seq<SwipeEvent>): SwipeState
    decreases |events|
  {
    if |events| == 0 then s else SwipeRun(SwipeStep(s, events[0]), events[1..])
  }

  /** The point of the latest touchstart that carried a touch point, looking
      back from the end of `events`. */
  function LatestStart(events: seq<SwipeEvent>): (p: Option<Point>)
    ensures p.Some? ==> exists i :: (0 <= i < |events| && events[i] == TouchStart(p)
              && forall j :: i < j < |events| ==> !(events[j].TouchStart? && events[j].firstTouch.Some?))
    ensures p.None? <==> forall j :: 0 <= j < |events| ==> !(events[j].TouchStart? && events[j].firstTouch.Some?)
    decreases |events|
  {
    if |events| == 0 then None
    else
      var last := events[|events| - 1];
      if last.TouchStart? && last.firstTouch.Some? then last.firstTouch
      else LatestStart(events[..|events| - 1])
  }

  /** Processing one more event after a run. */
  lemma {:induction false} SwipeRunSnoc(s: SwipeState, events: seq<SwipeEvent>, e: SwipeEvent)
    ensures SwipeRun(s, events + [e]) == SwipeStep(SwipeRun(s, events), e)
    decreases |events|
  {
    if |events| > 0 {
      assert (events + [e])[1..] == events[1..] + [e];
      SwipeRunSnoc(SwipeStep(s, events[0]), events[1..], e);
    }
  }

  /** After any run from the initial state, the recorded start is the point
      of the latest touchstart that had a touch, or the origin if none had. */
  lemma {:induction false} StartIsLatestTouch(events: seq<SwipeEvent>)
    ensures var p := LatestStart(events);
            SwipeRun(InitialSwipe, events) ==
              if p.Some? then SwipeState(p.value.clientX, p.value.clientY) else InitialSwipe
    decreases |events|
  {
    if |events| > 0 {
      var init := events[..|events| - 1];
      assert events == init + [events[|events| - 1]];
      SwipeRunSnoc(InitialSwipe, init, events[|events| - 1]);
      StartIsLatestTouch(init);
    }
  }

  /** The direction a touchend fires after a run: its displacement is
      measured from the latest touchstart that had a touch. */
  lemma SwipeMeasuredFromLatestStart(events: seq<SwipeEvent>, endPoint: Point, threshold: int)
    requires LatestStart(events).Some?
    ensures var p := LatestStart(events).value;
            OnTouchEnd(SwipeRun(InitialSwipe, events), Some(endPoint), threshold)
              == Classify(endPoint.clientX - p.clientX, endPoint.clientY - p.clientY, threshold)
  {
    StartIsLatestTouch(events);
  }

  // ---------------------------------------------------------------------------
  // Press tracking
  // ---------------------------------------------------------------------------

  /** The events the press tracker listens to. */
  datatype PressEvent = PressStart | PressEnd | PressCancel

  /** `isPressed` before any event. */
  const InitiallyPressed: bool := false

  /** touchstart presses; touchend and touchcancel release. */
  function PressStep(pressed: bool, e: PressEvent): bool {
    e == PressStart
  }

  /** `isPressed` after a run of events, processed in order. */
  function PressRun(pressed: bool, events: seq<PressEvent>): bool
    decreases |events|
  {
    if |events| == 0 then pressed else PressRun(PressStep(pressed, events[0]), events[1..])
  }

  /** Each handler is idempotent and forgets the previous state. */
  lemma PressStepIdempotent(p: bool, q: bool, e: PressEvent)
    ensures PressStep(PressStep(p, e), e) == PressStep(p, e)
    ensures PressStep(p, e) == PressStep(q, e)
    ensures PressStep(p, PressStart) && !PressStep(p, PressEnd) && !PressStep(p, PressCancel)
  {
  }

  /** After any run from the initial state, the element is pressed exactly
      when the last event was a touchstart. */
  lemma {:induction false} PressedIffLastStart(pressed: bool, events: seq<PressEvent>)
    ensures PressRun(pressed, events) == if |events| == 0 then pressed else events[|events| - 1] == PressStart
    decreases |events|
  {
    if |events| > 1 {
      PressedIffLastStart(PressStep(pressed, events[0]), events[1..]);
    }
  }

  /** From the initial state: pressed exactly after a final touchstart. */
  lemma InitialPressRun(events: seq<PressEvent>)
    ensures PressRun(InitiallyPressed, events) <==> |events| > 0 && events[|events| - 1] == PressStart
  {
    PressedIffLastStart(InitiallyPressed, events);
  }
}
