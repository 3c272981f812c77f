/**
 The floating action button as an object: its position, the geometry captured after
 layout, the list touch listener's tracking fields, the current animator, the registered
 press listeners and the centre icon. The handlers update these fields in place; the list
 touch handler and the two animator handlers are proved to do what the matching step of
 `DragFollow` describes.
 */
module Fab {
  import opened DragFollow

  /** Identity of a registered press listener. */
  type ListenerId = nat

  /** Opaque handle of a decoded bitmap. */
  type BitmapId = nat

  /** The icon the button keeps: the given bitmap scaled to the default centre size. */
  datatype Icon = ScaledIcon(source: BitmapId)

  class FloatingActionButton {
    var y: real
    var buttonStartY: real
    var screenHeight: real

    // The fields of the touch listener installed on the attached list.
    var initialY: real
    var currentY: real
    var finalY: real
    var initialButtonY: real

    var animator: Option<Animation>
    var listeners: seq<ListenerId>
    var centerIcon: Option<Icon>

    /** Every animator that a newer one replaced, as it was left when replaced. */
    ghost var retired: seq<Animation>
    /** Every press notification delivered so far, in delivery order. */
    ghost var notified: seq<ListenerId>
    /** How many redraws have been requested. */
    ghost var redraws: nat

    function Drag(): (r: DragState)
      reads this
    {
      DragState(y, buttonStartY, screenHeight, initialY, currentY, finalY, initialButtonY, animator)
    }

    /** No replaced animator is still running: at most the current one drives the Y. */
    ghost predicate OnlyCurrentRuns()
      reads this
    {
      forall a <- retired :: !a.running
    }

    /** The button once layout is done: it rests at `startY`, the screen is `height` tall. */
    constructor (startY: real, height: real)
      ensures Drag() == Initial(startY, height)
      ensures retired == [] && OnlyCurrentRuns()
      ensures listeners == [] && centerIcon == None
      ensures notified == [] && redraws == 0
    {
      y := startY;
      buttonStartY, screenHeight := startY, height;
      initialY, currentY, finalY, initialButtonY := 0.0, 0.0, 0.0, 0.0;
      animator := None;
      retired := [];
      listeners := [];
      centerIcon := None;
      notified := [];
      redraws := 0;
    }

    method AddOnPressedListener(listener: ListenerId)
      modifies this`listeners
      ensures listeners == old(listeners) + [listener]
    {
      listeners := listeners + [listener];
    }

    /** The button's own touch handler: on UP every listener is notified once, in
        registration order; it always reports the event as handled. */
    method OnButtonTouch(action: Action) returns (handled: bool)
      modifies this`notified
      ensures notified == old(notified) + (if action == Up then listeners else [])
      ensures handled
    {
      if action == Up {
        for i := 0 to |listeners|
          invariant notified == old(notified) + listeners[..i]
        {
          notified := notified + [listeners[i]];
        }
        assert listeners[..|listeners|] == listeners;
      }
      handled := true;
    }

    /** A missing bitmap keeps the current icon; a redraw is requested either way. */
    method SetCenterIconBitmap(bitmap: Option<BitmapId>)
      modifies this`centerIcon, this`redraws
      ensures centerIcon == if bitmap.Some? then Some(ScaledIcon(bitmap.value)) else old(centerIcon)
      ensures redraws == old(redraws) + 1
    {
      if bitmap.Some? {
        centerIcon := Some(ScaledIcon(bitmap.value));
      }
      redraws := redraws + 1;
    }

    method StopCurrentAnimation()
      modifies this`animator
      ensures animator == Stopped(old(animator))
    {
      if animator.Some? && animator.value.running {
        animator := Some(animator.value.(running := false));
      }
    }

    /** Cancels the current animator, retires it and installs a running one from `start` to
        `end`. */
    method AnimateButton(start: real, end: real)
      modifies this`animator, this`retired
      ensures animator == Some(Animation(true, start, end))
      ensures retired == old(retired) + if old(animator).Some? then [Stopped(old(animator)).value] else []
      ensures old(OnlyCurrentRuns()) ==> OnlyCurrentRuns()
    {
      StopCurrentAnimation();
      if animator.Some? {
        retired := retired + [animator.value];
      }
      animator := Some(Animation(true, start, end));
    }

    /** The touch listener on the attached list. It never consumes the event, so the list
        still scrolls. */
    method OnListTouch(action: Action, rawY: real) returns (handled: bool)
      modifies this`y, this`initialY, this`currentY, this`finalY, this`initialButtonY, this`animator
      modifies this`retired
      ensures Drag() == ListTouchStep(old(Drag()), action, rawY)
      ensures Inv(old(Drag())) ==> Inv(Drag())
      ensures old(OnlyCurrentRuns()) ==> OnlyCurrentRuns()
      ensures !handled
    {
      match action {
        case Move =>
          if initialY == 0.0 {
            StopCurrentAnimation();
            initialY := rawY;
            initialButtonY := y;
          } else {
            currentY := rawY;
            if initialY < currentY {
              y := Max(buttonStartY, initialButtonY - (currentY - initialY));
            } else {
              y := Min(screenHeight, initialButtonY + (initialY - currentY));
            }
          }
        case Up =>
          finalY := rawY;
          if initialY < finalY {
            AnimateButton(y, buttonStartY);
          } else {
            AnimateButton(y, screenHeight);
          }
          initialY := 0.0;
        case _ =>
      }
      handled := false;
      if Inv(old(Drag())) {
        StepKeepsInv(old(Drag()), ListTouch(action, rawY));
      }
    }

    /** The animator writes an interpolated Y; a cancelled or finished animator writes none. */
    method OnAnimationFrame(fraction: Fraction)
      modifies this`y
      ensures Drag() == Step(old(Drag()), AnimatorFrame(fraction))
      ensures Inv(old(Drag())) ==> Inv(Drag())
    {
      if animator.Some? && animator.value.running {
        y := Interpolate(animator.value.start, animator.value.end, fraction);
      }
      if Inv(old(Drag())) {
        StepKeepsInv(old(Drag()), AnimatorFrame(fraction));
      }
    }

    /** The running animation finishes: the button is at its end value. */
    method OnAnimationEnd()
      modifies this`y, this`animator
      ensures Drag() == Step(old(Drag()), AnimatorEnd)
      ensures Inv(old(Drag())) ==> Inv(Drag())
    {
      if animator.Some? && animator.value.running {
        y := animator.value.end;
        animator := Some(animator.value.(running := false));
      }
      if Inv(old(Drag())) {
        StepKeepsInv(old(Drag()), AnimatorEnd);
      }
    }
  }

  /** A drag downwards hides the button: rest 800, screen 1600, the finger goes from 500 to
      450 and is released at 400. Returns the Y after the second MOVE and the settle target. */
  method HideScenario() returns (draggedY: real, target: real)
    ensures draggedY == 850.0 && target == 1600.0
  {
    var fab := new FloatingActionButton(800.0, 1600.0);
    var handled := fab.OnListTouch(Down, 500.0);
    handled := fab.OnListTouch(Move, 500.0);
    assert fab.initialButtonY == 800.0;
    handled := fab.OnListTouch(Move, 450.0);
    draggedY := fab.y;
    handled := fab.OnListTouch(Up, 400.0);
    assert fab.animator.value.start == 850.0;
    target := fab.animator.value.end;
  }

  /** A drag upwards clamps the button at rest and settles it there: the finger goes from 500
      to 600 and is released at 650. */
  method RevealScenario() returns (draggedY: real, target: real)
    ensures draggedY == 800.0 && target == 800.0
  {
    var fab := new FloatingActionButton(800.0, 1600.0);
    var handled := fab.OnListTouch(Down, 500.0);
    handled := fab.OnListTouch(Move, 500.0);
    handled := fab.OnListTouch(Move, 600.0);
    draggedY := fab.y;
    handled := fab.OnListTouch(Up, 650.0);
    target := fab.animator.value.end;
  }

  /** Two registrations of one listener and one of another: a press notifies in registration
      order, duplicates included, and a DOWN notifies nobody. */
  method PressScenario() returns (ghost afterDown: seq<ListenerId>, ghost afterUp: seq<ListenerId>,
                                  handled: bool)
    ensures afterDown == [] && afterUp == [7, 3, 7] && handled
  {
    var fab := new FloatingActionButton(800.0, 1600.0);
    fab.AddOnPressedListener(7);
    fab.AddOnPressedListener(3);
    fab.AddOnPressedListener(7);
    handled := fab.OnButtonTouch(Down);
    afterDown := fab.notified;
    handled := fab.OnButtonTouch(Up);
    afterUp := fab.notified;
  }
}
