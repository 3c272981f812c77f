# Floating action button: drag-follow and press logic

This project models the behaviour of `FloatingActionButton`, an Android widget. It is a round
button that notifies its press listeners when tapped. When it is attached to a list view, it
also follows the user's vertical drags on that list. During a drag it moves between its
resting position (`buttonStartY`, captured once after layout) and the bottom of the screen
(`screenHeight`). On release it starts a settle animation, either back to rest or down to
the hidden position.

Two modules:

- `DragFollow` (`DragFollow.dfy`) describes the drag-follow logic as values. `DragState`
  holds the button's Y, the two geometry values, the list touch listener's four float fields
  (`initialY`, `currentY`, `finalY`, `initialButtonY`) and the current animator, which is
  `None` or an `Animation(running, start, end)`. `ListTouchStep` is the list touch listener.
  `Step` adds the animator's ticks. `Run` runs a whole trace of events. Lemmas state what
  single events do and what holds over every trace. Session start is detected the way the
  source detects it, with the sentinel `initialY == 0`, and no separate flag.
- `Fab` (`FloatingActionButton.dfy`) holds the class `FloatingActionButton`, whose fields the
  handlers update in place. The contracts of `OnListTouch`, `OnAnimationFrame` and
  `OnAnimationEnd` tie the new state to the matching `DragFollow` step. The other
  handlers state their new state directly. Press notifications go to a ghost log
  `notified`, in delivery order. Redraw requests (`invalidate()`) are counted in a ghost
  field `redraws`. Replaced animators are kept, as they were left, in a ghost history
  `retired`. Three client methods replay concrete drag and press scenarios against the class
  contracts.

Coordinates are `real`. The source's `float` arithmetic here is only subtraction, addition,
comparison, `Math.max` and `Math.min`, so the model ignores rounding.

## Model

| member | source | states |
|---|---|---|
| `DragFollow.Stopped` | app/src/main/java/se/kmdev/android_fab/fab/FloatingActionButton.java:199-203 | after cancelling, no animation is running; an animator exists afterwards iff it existed before, with the same start and end |
| `DragFollow.DragY` | app/src/main/java/se/kmdev/android_fab/fab/FloatingActionButton.java:105-110 | finger below its start: Y is the larger of the resting Y and the anchor moved up by the finger's distance, so it is never above rest; otherwise Y is the smaller of the screen height and the anchor moved down by that distance, so it is never below the screen height |
| `DragFollow.Interpolate` | app/src/main/java/se/kmdev/android_fab/fab/FloatingActionButton.java:205-210 | a Y the animator writes lies between the animation's start and end; fraction 0 gives the start, 1 the end |
| `DragFollow.Initial` | app/src/main/java/se/kmdev/android_fab/fab/FloatingActionButton.java:188-197 | right after layout the button rests at `buttonStartY`, the screen height is recorded, no session is open (`initialY == 0`) and no animation runs |
| `DragFollow.SettleTarget` | app/src/main/java/se/kmdev/android_fab/fab/FloatingActionButton.java:115-119 | the settle target is always one of the two resting positions, `buttonStartY` or `screenHeight`, and lies between them when rest is not below the screen height |
| `DragFollow.ListTouchStep` | app/src/main/java/se/kmdev/android_fab/fab/FloatingActionButton.java:95-125 | the list listener's reaction to one event never changes the geometry. Only a MOVE during an open session moves the button. Only MOVE and UP touch the animator, and only UP starts one. After UP no session is open |
| `DragFollow.Step` | app/src/main/java/se/kmdev/android_fab/fab/FloatingActionButton.java:205-210 | no event changes the geometry. Animator ticks never touch the listener's fields, and a tick with no running animation changes nothing |
| `DragFollow.FirstMoveAnchorsSession` | app/src/main/java/se/kmdev/android_fab/fab/FloatingActionButton.java:99-103 | a MOVE while `initialY == 0` cancels any running animation, sets `initialY` to the raw Y and `initialButtonY` to the button's Y, and leaves the button, `currentY`, `finalY` and the geometry unchanged |
| `DragFollow.TrackingMoveClamps` | app/src/main/java/se/kmdev/android_fab/fab/FloatingActionButton.java:104-110 | a MOVE while `initialY != 0` records `currentY`; if `initialY < rawY` the new Y is `max(buttonStartY, initialButtonY - (rawY - initialY))`, otherwise `min(screenHeight, initialButtonY + (initialY - rawY))`; the anchors, `finalY` and the animator are unchanged |
| `DragFollow.TrackingMoveStaysInRange` | app/src/main/java/se/kmdev/android_fab/fab/FloatingActionButton.java:106-110 | if the anchor lies in `[buttonStartY, screenHeight]`, a tracking MOVE leaves the button in that range |
| `DragFollow.UpStartsSettle` | app/src/main/java/se/kmdev/android_fab/fab/FloatingActionButton.java:113-120 | UP records `finalY` and starts a running animation from the current Y. Its end is `buttonStartY` if `initialY < finalY`, else `screenHeight`. UP sets `initialY` to 0 and does not move the button |
| `DragFollow.MoveAfterUpStartsFreshSession` | app/src/main/java/se/kmdev/android_fab/fab/FloatingActionButton.java:99-120 | a MOVE that comes right after an UP sets `initialY` to its raw Y, which opens a session unless that Y is 0. It anchors at the Y the UP left and stops the settle animation the UP started |
| `DragFollow.OtherActionsChangeNothing` | app/src/main/java/se/kmdev/android_fab/fab/FloatingActionButton.java:98-122 | DOWN, CANCEL and every action other than MOVE and UP leave the whole drag state unchanged |
| `DragFollow.ZeroRawYKeepsSessionClosed` | app/src/main/java/se/kmdev/android_fab/fab/FloatingActionButton.java:100-103 | a first MOVE at raw Y 0 leaves `initialY == 0`, so the next MOVE anchors again instead of moving the button |
| `DragFollow.StepKeepsInv` | app/src/main/java/se/kmdev/android_fab/fab/FloatingActionButton.java:95-125 | every list event and animator tick preserves the invariant `Inv` (see `RunKeepsInv`) and never changes the geometry |
| `DragFollow.RunKeepsInv` | app/src/main/java/se/kmdev/android_fab/fab/FloatingActionButton.java:92-125 | over any trace, the button stays in `[buttonStartY, screenHeight]`. While a session is open its anchor lies there and no animation runs. A running animation starts and ends in that range. The geometry never changes |
| `DragFollow.InitialInv` | app/src/main/java/se/kmdev/android_fab/fab/FloatingActionButton.java:188-197 | the state right after layout satisfies the invariant iff the resting Y is not below the screen height |
| `DragFollow.ButtonStaysOnScreen` | app/src/main/java/se/kmdev/android_fab/fab/FloatingActionButton.java:92-125 | from the state after layout, every trace of list events and animator ticks keeps the button in `[buttonStartY, screenHeight]` |
| `DragFollow.SettleEndsAtTarget` | app/src/main/java/se/kmdev/android_fab/fab/FloatingActionButton.java:205-210 | suppose an animation is running and only its own ticks and inert list actions come before it ends. Then the button ends at the animation's end value and nothing is running afterwards |
| `DragFollow.LatestSettleWins` | app/src/main/java/se/kmdev/android_fab/fab/FloatingActionButton.java:113-120 | after an UP, whatever animation ran before, the button comes to rest at that UP's target once the new animation ends |
| `Fab.FloatingActionButton.constructor` | app/src/main/java/se/kmdev/android_fab/fab/FloatingActionButton.java:58-69 | after layout the button rests at `buttonStartY`; the listener fields are 0, there is no animator, no listener and no icon |
| `Fab.FloatingActionButton.AddOnPressedListener` | app/src/main/java/se/kmdev/android_fab/fab/FloatingActionButton.java:85-88 | the listener is appended to the list; duplicates are kept |
| `Fab.FloatingActionButton.OnButtonTouch` | app/src/main/java/se/kmdev/android_fab/fab/FloatingActionButton.java:72-79 | on UP every registered listener is notified exactly once, in registration order. No other action notifies anyone. The handler always returns true |
| `Fab.FloatingActionButton.SetCenterIconBitmap` | app/src/main/java/se/kmdev/android_fab/fab/FloatingActionButton.java:133-141 | a present bitmap replaces the icon by its scaled copy; a missing one leaves the icon unchanged; one redraw is requested in both cases |
| `Fab.FloatingActionButton.StopCurrentAnimation` | app/src/main/java/se/kmdev/android_fab/fab/FloatingActionButton.java:199-203 | the animator becomes `Stopped` of the old one (see `DragFollow.Stopped`); nothing else changes |
| `Fab.FloatingActionButton.AnimateButton` | app/src/main/java/se/kmdev/android_fab/fab/FloatingActionButton.java:205-210 | the previous animator, if any, is appended to the ghost history `retired` in its cancelled form (not running, same start and end). The new animator runs from `start` to `end`. If no retired animator was running before, none is afterwards, so only the current one can drive Y |
| `Fab.FloatingActionButton.OnListTouch` | app/src/main/java/se/kmdev/android_fab/fab/FloatingActionButton.java:95-125 | the new drag state is `ListTouchStep` of the old one. The handler never touches geometry, listeners or icon. It preserves `Inv` and the fact that no retired animator runs, and always returns false |
| `Fab.FloatingActionButton.OnAnimationFrame` | app/src/main/java/se/kmdev/android_fab/fab/FloatingActionButton.java:205-210 | a running animator writes an interpolated Y between its start and end; otherwise nothing changes; `Inv` is preserved |
| `Fab.FloatingActionButton.OnAnimationEnd` | app/src/main/java/se/kmdev/android_fab/fab/FloatingActionButton.java:205-210 | a running animator finishes with the button at its end value and stops; `Inv` is preserved |
| `Fab.HideScenario` | app/src/main/java/se/kmdev/android_fab/fab/FloatingActionButton.java:95-125 | rest 800, screen 1600, MOVE 500, MOVE 450, UP 400: the button is dragged to 850 and settles towards 1600 |
| `Fab.RevealScenario` | app/src/main/java/se/kmdev/android_fab/fab/FloatingActionButton.java:95-125 | rest 800, screen 1600, MOVE 500, MOVE 600, UP 650: the button is clamped at 800 and settles towards 800 |
| `Fab.PressScenario` | app/src/main/java/se/kmdev/android_fab/fab/FloatingActionButton.java:72-87 | listeners 7, 3, 7 registered: the notification log is empty after a DOWN and holds 7, 3, 7 in that order after the following UP; the handler returns true |

## Left out

- Rendering (`onDraw`, `drawBaseCircle`, `drawCenterIcon`, layer type, paint and shadow settings): canvas calls only.
- Bitmap decoding and scaling (`setCenterIconResource`, `scaleBitmapToDefaultSize`): platform library calls. A decoded bitmap is an opaque `BitmapId`, a failed decode is `None`, and the stored icon is `ScaledIcon(source)`.
- Releasing the icon in `onDetachedFromWindow`: the model has no bitmap memory to release.
- `pxFromDp`, the button size and `calculateScreenHeight`: density and window-manager queries. The two geometry values are constructor parameters instead.
- The `post` block that defers geometry capture and installs the button's touch listener until after layout: the constructor models the state after that block has run. Before it runs, the source's button ignores touches and has `buttonStartY == screenHeight == 0`.
- Animator timing, duration (300 ms) and interpolation curve. Ticks are events that carry an interpolated fraction in `[0, 1]`, and the animation's end is an event too. Their scheduling is the platform's.
- `Fab.FloatingActionButton.OnButtonTouch`: the source compares the unmasked `getAction()` with `ACTION_UP`. The model takes an already decoded `Action`, so pointer-index bits of multi-touch events are not modelled. Each `onPress` call is modelled as one entry in the notification log. It has no other effect on the button. Three things the Java loop can do are not modelled: a `null` listener throwing NullPointerException after only the listeners before it were notified, an `onPress` that registers a listener causing ConcurrentModificationException, and an `onPress` that runs arbitrary code on the button. A listener here is a plain identifier that cannot be null.
- `attachToListView` itself: one attached list is modelled, so the listener's fields live in the button object. Attaching a second list, which would create a second listener with its own fields, is not modelled.
- `MainActivity.java`: activity, menu, adapter and toast glue with no logic of its own.
- Float rounding, NaN and infinities: coordinates are exact reals.
- `Fab.FloatingActionButton.AnimateButton`: `DragFollow` keeps only the current animator. There, a replaced animator is simply gone, so the cancel at the start of `animateButton` has no visible effect and "at most one animation runs" holds by construction. The class keeps the replaced animators in the ghost history `retired`, which is where the cancel is proved. Ticks of a replaced animator that kept running are not modelled.
- `Fab.FloatingActionButton.SetCenterIconBitmap`: the warning logged for a missing bitmap is not modelled, and neither is any other diagnostic logging.

Source behaviour worth noting:
- A session starts when `initialY == 0`, with no separate flag, and the model keeps that sentinel. `ZeroRawYKeepsSessionClosed` shows the consequence.
- CANCEL does not close a session: only UP sets `initialY` back to 0. After a cancelled gesture, the next MOVE goes on tracking with the old anchors.
- An UP with no open session still starts a settle animation. Its target is then decided by comparing the raw Y with 0.
- The invariant "rest ≤ Y ≤ screen height" holds only when the captured resting Y is not below the screen height (`InitialInv`). The code does not check this.
