/**
 The drag-follow logic of the floating action button as values: the state the list touch
 listener and the settle animator work on, one step function per event, the run of a
 trace of events, and what those steps promise.

 Y grows downwards. The button's Y and `buttonStartY`, its resting (visible) position, are
 in the parent view's coordinates. The raw Y of a touch is screen-relative, and
 `screenHeight` is the display height, used as the hidden position. Raw Y enters the
 formulas only through differences and comparisons between raw Ys.
 */
module DragFollow {

  datatype Option<T> = None | Some(value: T)

  /** The masked action of a pointer event; `Other` stands for every code that is not
      DOWN, UP, MOVE or CANCEL. */
  datatype Action = Down | Up | Move | Cancel | Other

  /** The settle animator: whether it is running and the Y it animates from and to. */
  datatype Animation = Animation(running: bool, start: real, end: real)

  /** An interpolated animation fraction, as the animator's interpolator delivers it. */
  type Fraction = f: real | 0.0 <= f <= 1.0 witness 0.0

  /**
   Everything the drag-follow logic reads or writes: the button's Y, the two geometry
   values captured once after layout, the four fields of the list touch listener and the
   current animator (None before the first settle animation).
   */
  datatype DragState = DragState(
    y: real,
    buttonStartY: real,
    screenHeight: real,
    initialY: real,
    currentY: real,
    finalY: real,
    initialButtonY: real,
    animator: Option<Animation>)

  /** Events that change the drag state: a touch on the attached list, or an animator tick. */
  datatype Event =
    | ListTouch(action: Action, rawY: real)
    | AnimatorFrame(fraction: Fraction)
    | AnimatorEnd

  function Max(a: real, b: real): (r: real)
    ensures a <= r && b <= r && (r == a || r == b)
  {
    if a >= b then a else b
  }

  function Min(a: real, b: real): (r: real)
    ensures r <= a && r <= b && (r == a || r == b)
  {
    if a <= b then a else b
  }

  predicate Running(a: Option<Animation>)
  {
    a.Some? && a.value.running
  }

  /** The state once layout has fixed the geometry: the button rests at its start Y, the
      listener's float fields hold their default 0 and no animator exists yet. */
  function Initial(buttonStartY: real, screenHeight: real): (r: DragState)
    ensures r.y == r.buttonStartY == buttonStartY && r.screenHeight == screenHeight
    ensures r.initialY == 0.0 && !Running(r.animator)
  {
    DragState(buttonStartY, buttonStartY, screenHeight, 0.0, 0.0, 0.0, 0.0, None)
  }

  /** Cancelling the current animation, if one exists and is running. */
  function Stopped(a: Option<Animation>): (r: Option<Animation>)
    ensures !Running(r)
    ensures r.Some? <==> a.Some?
    ensures r.Some? ==> r.value.start == a.value.start && r.value.end == a.value.end
  {
    if Running(a) then Some(a.value.(running := false)) else a
  }

  /**
   The button's Y during a tracking MOVE. A finger below its starting point moves the
   button up by the same distance, but never above the resting position; a finger at or
   above its starting point moves it down, but never below the screen height.
   */
  function DragY(initialY: real, rawY: real, initialButtonY: real,
                 buttonStartY: real, screenHeight: real): (r: real)
    ensures initialY < rawY ==>
              buttonStartY <= r && initialButtonY - (rawY - initialY) <= r &&
              (r == buttonStartY || r == initialButtonY - (rawY - initialY))
    ensures rawY <= initialY ==>
              r <= screenHeight && r <= initialButtonY + (initialY - rawY) &&
              (r == screenHeight || r == initialButtonY + (initialY - rawY))
  {
    if initialY < rawY then Max(buttonStartY, initialButtonY - (rawY - initialY))
    else Min(screenHeight, initialButtonY + (initialY - rawY))
  }

  /** Where the settle animation started on UP takes the button. */
  function SettleTarget(initialY: real, finalY: real, buttonStartY: real, screenHeight: real): (r: real)
    ensures r == buttonStartY || r == screenHeight
    ensures buttonStartY <= screenHeight ==> buttonStartY <= r <= screenHeight
  {
    if initialY < finalY then buttonStartY else screenHeight
  }

  /** The list touch listener's reaction to one pointer event (its result is always false). */
  function ListTouchStep(s: DragState, action: Action, rawY: real): (r: DragState)
    ensures r.buttonStartY == s.buttonStartY && r.screenHeight == s.screenHeight
    ensures r.y != s.y ==> action == Move && s.initialY != 0.0
    ensures r.animator != s.animator ==> action == Move || action == Up
    ensures Running(r.animator) && !Running(s.animator) ==> action == Up
    ensures action == Up ==> r.initialY == 0.0
  {
    match action
    case Move =>
      if s.initialY == 0.0 then
        s.(animator := Stopped(s.animator), initialY := rawY, initialButtonY := s.y)
      else
        s.(currentY := rawY,
           y := DragY(s.initialY, rawY, s.initialButtonY, s.buttonStartY, s.screenHeight))
    case Up =>
      s.(finalY := rawY,
         animator := Some(Animation(true, s.y,
                                    SettleTarget(s.initialY, rawY, s.buttonStartY, s.screenHeight))),
         initialY := 0.0)
    case _ => s
  }

  /** The Y the animator writes for an interpolated fraction. */
  function Interpolate(start: real, end: real, fraction: Fraction): (r: real)
    ensures start <= end ==> start <= r <= end
    ensures end <= start ==> end <= r <= start
    ensures fraction == 0.0 ==> r == start
    ensures fraction == 1.0 ==> r == end
  {
    var d := end - start;
    var moved := fraction * d;
    MovedBounds(fraction, d, moved);
    start + moved
  }

  /** A fraction of a distance lies between 0 and that distance. */
  lemma FractionOf(fraction: Fraction, d: real)
    ensures d >= 0.0 ==> 0.0 <= fraction * d <= d
    ensures d <= 0.0 ==> d <= fraction * d <= 0.0
    ensures fraction == 0.0 ==> fraction * d == 0.0
    ensures fraction == 1.0 ==> fraction * d == d
  {
    var rest := 1.0 - fraction;
    assert fraction * d + rest * d == (fraction + rest) * d == d;
    if d >= 0.0 {
      assert rest * d >= 0.0;
      assert fraction * d >= 0.0;
    } else {
      assert rest * (-d) >= 0.0;
      assert fraction * (-d) >= 0.0;
    }
  }

  /** The product `moved` of a fraction and a distance, with FractionOf's bounds. */
  lemma MovedBounds(fraction: Fraction, d: real, moved: real)
    requires moved == fraction * d
    ensures d >= 0.0 ==> 0.0 <= moved <= d
    ensures d <= 0.0 ==> d <= moved <= 0.0
    ensures fraction == 0.0 ==> moved == 0.0
    ensures fraction == 1.0 ==> moved == d
  {
    FractionOf(fraction, d);
  }

  /** One event: a touch on the attached list, or a tick of the current animator. Ticks
      never touch the listener's fields, and no event recomputes the geometry. */
  function Step(s: DragState, e: Event): (r: DragState)
    ensures r.buttonStartY == s.buttonStartY && r.screenHeight == s.screenHeight
    ensures !e.ListTouch? ==>
              r.initialY == s.initialY && r.currentY == s.currentY &&
              r.finalY == s.finalY && r.initialButtonY == s.initialButtonY
    ensures !e.ListTouch? && !Running(s.animator) ==> r == s
  {
    match e
    case ListTouch(action, rawY) => ListTouchStep(s, action, rawY)
    case AnimatorFrame(fraction) =>
      if Running(s.animator) then
        s.(y := Interpolate(s.animator.value.start, s.animator.value.end, fraction))
      else s
    case AnimatorEnd =>
      if Running(s.animator) then s.(y := s.animator.value.end, animator := Stopped(s.animator))
      else s
  }

  function Run(s: DragState, events: seq<Event>): (r: DragState)
    decreases |events|
  {
    if events == [] then s else Run(Step(s, events[0]), events[1..])
  }

  predicate InRange(s: DragState, v: real)
  {
    s.buttonStartY <= v <= s.screenHeight
  }

  /**
   The drag-follow invariant: the button lies between its resting position and the screen
   height; while a session is open (initialY != 0) its anchor lies there too and no
   animation is running; a running animation starts and ends there.
   */
  predicate Inv(s: DragState)
  {
    && InRange(s, s.y)
    && (s.initialY != 0.0 ==> InRange(s, s.initialButtonY) && !Running(s.animator))
    && (Running(s.animator) ==> InRange(s, s.animator.value.start) && InRange(s, s.animator.value.end))
  }

  // ----- single events -----

  /** The first MOVE of a gesture cancels the animation and anchors the session; the button
      does not move. */
  lemma FirstMoveAnchorsSession(s: DragState, rawY: real)
    requires s.initialY == 0.0
    ensures var r := ListTouchStep(s, Move, rawY);
      && !Running(r.animator)
      && r.initialY == rawY && r.initialButtonY == s.y
      && r.y == s.y && r.currentY == s.currentY && r.finalY == s.finalY
      && r.buttonStartY == s.buttonStartY && r.screenHeight == s.screenHeight
  {
  }

  /** A later MOVE follows the finger, clamped at the resting position when the finger went
      down and at the screen height otherwise; the anchors and the animator stay. */
  lemma TrackingMoveClamps(s: DragState, rawY: real)
    requires s.initialY != 0.0
    ensures var r := ListTouchStep(s, Move, rawY);
      && r.currentY == rawY
      && (s.initialY < rawY ==>
            r.y == Max(s.buttonStartY, s.initialButtonY - (rawY - s.initialY)) && s.buttonStartY <= r.y)
      && (rawY <= s.initialY ==>
            r.y == Min(s.screenHeight, s.initialButtonY + (s.initialY - rawY)) && r.y <= s.screenHeight)
      && r.initialY == s.initialY && r.initialButtonY == s.initialButtonY
      && r.animator == s.animator && r.finalY == s.finalY
  {
  }

  /** With its anchor on screen, a tracking MOVE keeps the button between rest and hiding. */
  lemma TrackingMoveStaysInRange(s: DragState, rawY: real)
    requires s.initialY != 0.0
    requires s.buttonStartY <= s.initialButtonY <= s.screenHeight
    ensures InRange(s, ListTouchStep(s, Move, rawY).y)
  {
  }

  /** UP starts a settle animation from the current Y, towards the resting position when the
      finger ended below where the session started and towards the screen height otherwise,
      and closes the session. */
  lemma UpStartsSettle(s: DragState, rawY: real)
    ensures var r := ListTouchStep(s, Up, rawY);
      && r.animator.Some? && r.animator.value.running && r.animator.value.start == s.y
      && (s.initialY < rawY ==> r.animator.value.end == s.buttonStartY)
      && (rawY <= s.initialY ==> r.animator.value.end == s.screenHeight)
      && r.initialY == 0.0 && r.finalY == rawY && r.y == s.y
      && r.initialButtonY == s.initialButtonY && r.currentY == s.currentY
  {
  }

  /** After UP, the next MOVE opens a fresh session anchored at the button's Y then. */
  lemma MoveAfterUpStartsFreshSession(s: DragState, upY: real, rawY: real)
    ensures var t := ListTouchStep(s, Up, upY);
      var r := ListTouchStep(t, Move, rawY);
      && r.initialY == rawY && r.initialButtonY == s.y && r.y == s.y && !Running(r.animator)
  {
  }

  /** DOWN, CANCEL and every other action change nothing. */
  lemma OtherActionsChangeNothing(s: DragState, action: Action, rawY: real)
    requires action != Move && action != Up
    ensures ListTouchStep(s, action, rawY) == s
  {
  }

  /** The sentinel's flaw: a first MOVE at raw Y 0 leaves the session closed, so the next
      MOVE anchors again instead of moving the button. */
  lemma ZeroRawYKeepsSessionClosed(s: DragState, nextY: real)
    requires s.initialY == 0.0
    ensures var t := ListTouchStep(s, Move, 0.0);
      && t.initialY == 0.0
      && ListTouchStep(t, Move, nextY).y == s.y
      && ListTouchStep(t, Move, nextY).initialY == nextY
  {
  }

  // ----- traces -----

  lemma {:induction false} RunAppend(s: DragState, a: seq<Event>, b: seq<Event>)
    ensures Run(s, a + b) == Run(Run(s, a), b)
    decreases |a|
  {
    if a == [] {
      assert a + b == b;
    } else {
      assert (a + b)[0] == a[0];
      assert (a + b)[1..] == a[1..] + b;
      RunAppend(Step(s, a[0]), a[1..], b);
    }
  }

  lemma StepKeepsInv(s: DragState, e: Event)
    requires Inv(s)
    ensures Inv(Step(s, e))
    ensures Step(s, e).buttonStartY == s.buttonStartY && Step(s, e).screenHeight == s.screenHeight
  {
    match e
    case ListTouch(action, rawY) =>
      if action == Move && s.initialY != 0.0 {
        TrackingMoveStaysInRange(s, rawY);
      }
    case AnimatorFrame(_) =>
    case AnimatorEnd =>
  }

  /** Whatever the events, the button stays between rest and hiding, no animation runs during
      a drag session, and the geometry is never recomputed. */
  lemma {:induction false} RunKeepsInv(s: DragState, events: seq<Event>)
    requires Inv(s)
    ensures Inv(Run(s, events))
    ensures Run(s, events).buttonStartY == s.buttonStartY
    ensures Run(s, events).screenHeight == s.screenHeight
    decreases |events|
  {
    if events != [] {
      StepKeepsInv(s, events[0]);
      RunKeepsInv(Step(s, events[0]), events[1..]);
    }
  }

  /** The state after layout satisfies the invariant exactly when the resting position is
      not below the screen height. */
  lemma InitialInv(buttonStartY: real, screenHeight: real)
    ensures Inv(Initial(buttonStartY, screenHeight)) <==> buttonStartY <= screenHeight
  {
  }

  /** From the state after layout, every trace keeps the button in [rest, hiding]. */
  lemma ButtonStaysOnScreen(buttonStartY: real, screenHeight: real, events: seq<Event>)
    requires buttonStartY <= screenHeight
    ensures buttonStartY <= Run(Initial(buttonStartY, screenHeight), events).y <= screenHeight
  {
    InitialInv(buttonStartY, screenHeight);
    RunKeepsInv(Initial(buttonStartY, screenHeight), events);
  }

  /** Events that leave a running settle animation alone: its own frames and list actions
      other than MOVE and UP. */
  predicate Quiet(e: Event)
  {
    e.AnimatorFrame? || (e.ListTouch? && e.action != Move && e.action != Up)
  }

  /** A running animation that only quiet events interrupt ends with the button at its end
      value, and then no animation runs. */
  lemma {:induction false} SettleEndsAtTarget(s: DragState, events: seq<Event>)
    requires Running(s.animator)
    requires forall i :: 0 <= i < |events| ==> Quiet(events[i])
    ensures Run(s, events + [AnimatorEnd]).y == s.animator.value.end
    ensures !Running(Run(s, events + [AnimatorEnd]).animator)
    decreases |events|
  {
    if events == [] {
      assert events + [AnimatorEnd] == [AnimatorEnd];
    } else {
      var t := Step(s, events[0]);
      assert t.animator == s.animator;
      assert (events + [AnimatorEnd])[1..] == events[1..] + [AnimatorEnd];
      SettleEndsAtTarget(t, events[1..]);
    }
  }

  /** The latest UP decides where the button comes to rest: whatever animator was current
      before is replaced, and once the new one ends the button is at the new target. */
  lemma LatestSettleWins(s: DragState, rawY: real, events: seq<Event>)
    requires forall i :: 0 <= i < |events| ==> Quiet(events[i])
    ensures Run(s, [ListTouch(Up, rawY)] + events + [AnimatorEnd]).y
            == SettleTarget(s.initialY, rawY, s.buttonStartY, s.screenHeight)
  {
    var t := ListTouchStep(s, Up, rawY);
    assert [ListTouch(Up, rawY)] + events + [AnimatorEnd]
           == [ListTouch(Up, rawY)] + (events + [AnimatorEnd]);
    RunAppend(s, [ListTouch(Up, rawY)], events + [AnimatorEnd]);
    assert Run(s, [ListTouch(Up, rawY)]) == Run(t, []);
    SettleEndsAtTarget(t, events);
  }
}
