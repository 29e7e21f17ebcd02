# Abbey exploration scene: controller and interaction state machine

This project is a Dafny model of the per-frame player controller of a small
Three.js exploration game. An avatar (a monk) walks through two rooms, the
main hall and an altar room. A door joins the two rooms and can be opened and
closed. Two non-player monks start scripted dialogues when the player comes
close and presses E. All of this lives in `main.js` as module-level variables
that event handlers and the `animate` loop update in place.

The model has five modules:

- `Geometry` (geometry.dfy): positions, the two room boxes, the doorway test,
  the avatar's wall clamp, and the camera's soft wall pull and height clamp.
- `Door` (door.dfy): the door's exponential approach to its target angle,
  with convergence and range lemmas.
- `Controls` (controls.dfy): the key flags, the saturating zoom distance, and
  the manual-camera mode with its cancellable release timer. The timer is an
  explicit expiry event that carries the timer's handle.
- `Quest` (quest.dfy): `checkNPCInteraction` as a total function. It covers
  zone priority, the edge-triggered door toggle, the level-triggered one-shot
  dialogues and the quest panel `(title, status, description)`. Lemmas about
  sequences of frames sit beside it.
- `Abbey` (abbey.dfy): class `Game`, whose fields are the program's
  module-level variables. The seven key flags are held as one `Keys` record.
  The six variables `checkNPCInteraction` reads and writes (`isDoorOpen`,
  `doorTargetRotation`, the two dialogue flags, `interactKeyWasPressed` and
  the quest panel text) are held as one `Interaction` record. It has one
  method per handler and per frame step. Each method's postcondition ties the new field values to the matching
  function above. Every method also preserves the object invariant `Valid()`.

Reals are exact. The constants 0.1, 0.2 and 0.05 are exact rationals.
`Math.PI / 2` is taken as 1.5707963267948966, the decimal rendering of the double.

Consequences of the code worth knowing:

- The room box is chosen from the avatar's x after the move (main.js:566). So
  with the door closed, an avatar standing just past the wall in the altar
  room (x = 10.05) that steps 0.1 west ends up inside the main room at
  x = 9.5. `Geometry.ClosedDoorAltarWallCrossing` shows this.
- At 5% per frame the door's gap shrinks by a factor 0.95 per frame
  (main.js:868). After 60 frames about 4.6% of the swing is left
  (0.95^60 ≈ 0.046, a gap of about 0.072 rad on π/2).
  `Door.SettlesWithin128Frames` proves that 128 frames bring the door within
  0.01 of its target.
- The quest panel is written on every frame in the door zone, and on every
  frame in an NPC's range while that NPC has not been talked to (main.js:657,
  main.js:675), not only when something changes. The door prompt is written
  before the toggle, so it is one frame stale (`Quest.DoorPanelLagsToggle`).
- Timer handles start at 1, as a browser's do, so the stored handle is always
  truthy and `if (mouseControlTimer)` holds exactly when a handle is stored.

## Model

| member | source | states |
|---|---|---|
| Geometry.Clamp | main.js:563-575 | `Math.max(lo, Math.min(hi, v))` lands in [lo, hi], leaves values inside unchanged, and saturates at the violated bound |
| Geometry.RoomAt | main.js:566-574 | the altar box is used exactly when x > 10, and the main box when x <= 10 |
| Geometry.InDoorway | main.js:558 | the doorway test holds exactly for 9 < x < 11 and -1 < z < 1 |
| Geometry.ClampAvatar | main.js:557-576 | y is clamped to [0, 4] on its own; in the doorway with the door open, x and z are untouched; otherwise x and z are each clamped on their own to the box chosen by the post-move x, so they stay beyond the wall for x > 10 and are unchanged if already inside; the result is always a resting position |
| Geometry.ClampKeepsRest | main.js:557-576 | a position already at rest for the current door state is left exactly where it is (with no key held the avatar does not move) |
| Geometry.ClampIdempotent | main.js:557-576 | clamping a clamped position changes nothing |
| Geometry.ClosedDoorKeepsMainRoom | main.js:564-575 | with the door closed, a step of at most 0.5 along x cannot take an avatar out of the main room |
| Geometry.ClosedDoorAltarWallCrossing | main.js:564-575 | because the post-move x picks the box, a step from x = 10.05 to 9.95 with the door closed lands at x = 9.5 in the main room |
| Geometry.Excess | main.js:604-612 | the signed distance to an interval is zero exactly inside it, positive above it, negative below it |
| Geometry.SoftClamp | main.js:603-616 | one frame keeps the same in-box target, moves the coordinate toward it without passing it, shrinks the distance outside the box to exactly 90%, and leaves an inside coordinate unchanged |
| Geometry.ClampCamera | main.js:600-618 | camera y is hard-clamped to [0.5, 3.5]; x and z each take one `SoftClamp` frame toward the box of the avatar's room, so each loses 10% of its own excess and a coordinate inside its range is kept whatever the other does |
| Geometry.Lerp | main.js:592 | `lerp(goal, t)` leaves a (1 - t) fraction of the gap to the goal on each axis |
| Door.TargetFor | main.js:653-654 | the target angle is 0 when the door is closed and exactly π/2 when it is open |
| Door.Step | main.js:868 | one frame leaves 95% of the gap to the target and never passes the target |
| Door.SettleGap | main.js:868 | after n frames with a fixed target, the gap is 0.95^n times the initial gap |
| Door.SettleNoOvershoot | main.js:868 | with a fixed target, the angle stays between its start and the target for any number of frames |
| Door.PowNonneg | main.js:868 | the remaining fraction of the gap is never negative |
| Door.PowShrinks | main.js:868 | further frames only shrink the remaining fraction of the gap |
| Door.SettlesWithin128Frames | main.js:866-868 | starting anywhere in [0, π/2] and aiming at either end, the door is within 0.01 of its target after 128 or more frames |
| Door.FollowStaysInRange | main.js:866-868 | whatever sequence of closed/open targets the toggles choose, the angle never leaves [0, π/2] |
| Controls.LowerChar | main.js:489 | upper-case ASCII letters map to their lower-case letter; every other character is kept |
| Controls.Lower | main.js:489 | the ASCII lowering keeps the length and lowers each character |
| Controls.ActionOf | main.js:489-498 | only a one-character key value can be bound to an action |
| Controls.ActionOfLowered | main.js:489-498 | the per-character binding agrees, for every key value, with the switch over the whole lower-cased value (`Binding`: z, s, q, d, a, e, anything else unbound) |
| Controls.CaseInsensitive | main.js:489 | an upper-case key selects the same action as its lower-case form |
| Controls.KeyDown | main.js:483-499 | the bound action becomes held; every other flag, and `rotateRight`, is unchanged |
| Controls.KeyUp | main.js:501-512 | the bound action is released; every other flag is unchanged |
| Controls.SetThenClear | main.js:489-510 | setting a clear flag and clearing it again gives back the same flags |
| Controls.KeyUpUndoesKeyDown | main.js:483-512 | releasing a key that was not held restores the flags exactly |
| Controls.Binding | main.js:489-498 | the switch binds only single lower-case letters (z, s, q, d, a, e) |
| Controls.Zoom | main.js:514-521 | a negative deltaY lowers the distance by 0.2 or saturates at 2; any other deltaY raises it by 0.2 or saturates at 6; a distance in [2, 6] stays in [2, 6] |
| Controls.ZoomAllInRange | main.js:514-521 | from any distance in [2, 6], including the start value 4, no sequence of wheel events leaves [2, 6] |
| Controls.ZoomInThenOut | main.js:514-521 | away from the lower bound, a zoom-in step followed by a zoom-out step returns the original distance |
| Controls.OnMouse | main.js:120-134 | a right press sets manual control and cancels the pending timer, keeping the stored handle and the handle counter; the handle counter never decreases and a right release advances it by one; a right release keeps the mode and starts a fresh timer in place of any pending one; the expiry of the pending timer clears manual control and that timer's pending state, and no other event clears it; the expiry of any other handle changes nothing; only a right press sets manual control; other buttons change nothing |
| Controls.NoReleaseWithoutMouseUp | main.js:120-134 | after a right press, no timer expiry, cancelled or otherwise, ends manual control until the button is released again |
| Controls.StaleTimerIgnored | main.js:120-134 | press, release and then the expiry of the timer cancelled by that press: the camera stays in manual mode and the new timer is still pending |
| Controls.PressReleaseExpire | main.js:120-134 | press, release and the expiry of the timer that release started bring the camera back to follow mode |
| Quest.DoorPanel | main.js:646-650 | the door prompt is titled "Door" and names the door state it was given |
| Quest.ZoneOf | main.js:641-692 | strict priority: the doorway test on the position, then a distance below 2 to the primary NPC, then a distance below 2 to the altar NPC, then elsewhere |
| Quest.Check | main.js:640-702 | the edge latch equals the key after the call; the door flips exactly on a rising edge in the door zone and then aims at π/2 if open, 0 if closed; the dialogue flags only go false to true, each change comes with its signal, and a signal fires exactly when in that NPC's zone, not yet talked and the key held (level-triggered); the panel is the door prompt, the in-range or talked panel, untouched after talking, or (elsewhere) reset to "Not started" only when the monk was not talked to and the status shows the in-range prompt |
| Quest.EdgeOnlyOnFirstFrame | main.js:652-701 | the rising edge (E pressed now, not pressed at the previous check) fires only on the first frame of a press: a frame with E held latches it, and a frame with E released re-arms it |
| Quest.DoorPanelLagsToggle | main.js:645-655 | on the toggling frame the panel still names the previous door state; the next frame in the doorway shows the new one |
| Quest.AltarPromptFallsBackToMonkQuest | main.js:674-697 | leaving the altar keeper's range before talking to the monk replaces the altar prompt with the monk's "Not started" panel |
| Quest.HeldKeyTogglesAtMostOnce | main.js:652-701 | holding E over any number of frames toggles the door at most once, and never if E was already held the frame before |
| Quest.DialoguesAtMostOnce | main.js:657-690 | over any sequence of frames each dialogue signal fires at most once, and never once its flag is set |
| Quest.FinalKeepsFlags | main.js:640-702 | over any sequence of frames the dialogue flags are never reset and the door target keeps matching the door flag |
| Abbey.Game.constructor | main.js:5-52 | a session starts with no key held, zoom 4, follow mode with no timer, closed door at angle 0, no dialogue shown and the "Not started" panel |
| Abbey.Game.OnKeyDown | main.js:483-499 | the key flags become `KeyDown` of the old flags; nothing else changes and the invariant holds |
| Abbey.Game.OnKeyUp | main.js:501-512 | the key flags become `KeyUp` of the old flags; nothing else changes and the invariant holds |
| Abbey.Game.OnMouseWheel | main.js:514-521 | the distance becomes `Zoom` of the old one and stays in [2, 6] |
| Abbey.Game.OnMouseDown | main.js:120-125 | the mouse mode becomes `OnMouse` of a press |
| Abbey.Game.OnMouseUp | main.js:127-134 | the mouse mode becomes `OnMouse` of a release, with a fresh timer handle |
| Abbey.Game.OnTimerExpired | main.js:130-132 | the mouse mode becomes `OnMouse` of that handle's expiry |
| Abbey.Game.MoveMonk | main.js:523-583 | the avatar moves by the step only while a movement key is held, then is clamped for the current door state and ends at rest; with no key held a resting avatar stays put; the orbit target is one unit above the avatar |
| Abbey.Game.PlaceCamera | main.js:585-618 | the camera is placed by the follow lerp (follow mode) or at the orbit goal (manual mode), then pulled by the wall clamp of the avatar's room; its height stays in [0.5, 3.5] |
| Abbey.Game.UpdateMonkPosition | main.js:523-621 | the avatar moves by the step only while a movement key is held, then is clamped and ends at rest; with no key held a resting avatar stays put; the orbit target is one unit above the avatar; the camera is placed by the follow lerp or the orbit placement, then pulled by the wall clamp |
| Abbey.Game.StepDoor | main.js:866-872 | the door angle takes one `Door.Step` toward its target and stays in [0, π/2] |
| Abbey.Game.CheckNPCInteraction | main.js:640-702 | the door, dialogue, latch and panel state becomes `Quest.Check` of the old state at the avatar's position and the two given NPC distances, and the returned signal is its dialogue |
| Abbey.Game.Animate | main.js:860-900 | one frame: the door takes one step toward the target of the previous frame; the avatar, orbit target and camera become those of `UpdateMonkPosition` with the door flag from before the check; the interaction state and signal are `Quest.Check` at the new position; the invariant holds after it |

## Left out

- Scene construction (lights, geometry, materials, textures, walls, roof,
  candles, NPC meshes), the renderer, `requestAnimationFrame` and window
  resizing. These are library and rendering calls.
- `OrbitControls` and its `controls.update()` (main.js:620, main.js:898). That
  call rewrites `camera.position` after the wall clamp: damping, a polar angle
  limited to [π/6, π/2] and a distance limited to [2, 6] from the target. The
  modelled `cameraPosition` is the camera position before that call, so the
  height bound in `Abbey.Game.Valid` describes that position, not the rendered
  one.
- The candle flicker in `animate` (main.js:875-895). It depends on sine and
  cosine of the clock and is decorative.
- Building the movement vector (main.js:525-555). It uses the camera's world
  direction, a cross product, normalisation, and an `atan2` for the avatar's
  facing. The normalised, speed-scaled step is an input to
  `Abbey.Game.UpdateMonkPosition`, and the facing angle is not modelled.
- The follow offset (sine and cosine of the facing) and the orbit placement
  (a normalised direction times the zoom distance), main.js:585-598. These
  arrive as the two camera goals of `Abbey.Game.UpdateMonkPosition`.
- `Abbey.Game.UpdateMonkPosition`: with `step` abstract, the model does not
  check that the step has length 0.1.
- `setTimeout` and `clearTimeout` as a clock, and the 2000 ms delay
  (`mouseControlTimeout`). The timer's expiry is the event `TimerExpired(handle)`, and whoever drives
  the model decides when it happens.
- The DOM side of `updateQuestPanel`, `showDialog` and `showAltarDialog`:
  element lookups, the `data-status` attribute, `innerHTML`, and the
  close-button listener. Only the panel triple and a dialogue signal remain.
  `preventDefault` on the bound keys is also left out.
- `Controls.LowerChar`: lower-cases ASCII letters only. Unicode case mapping
  is not modelled. No non-ASCII key value lowers to one of the six bound
  letters, so this does not change which keys act.
- Floating-point rounding. All arithmetic is exact over the reals.
- The NPC meshes and `distanceTo` (a square root of the squared Euclidean
  distance). The avatar's distances to the two NPCs are inputs of
  `Abbey.Game.CheckNPCInteraction` and `Abbey.Game.Animate`, and `Quest.ZoneOf`
  compares them with 2 as the program does.
- game.js and gui.js: an unfinished class whose methods are empty, and a
  wrapper that writes three text nodes. They have no behaviour beyond what is
  modelled here.
- The initial text of the quest panel comes from the page's HTML, which is not
  part of this model. It is taken to be the `missionPanel` record
  (main.js:23-27), the same text the default branch restores.
