/** The module-level state of main.js and the handlers and per-frame steps
    that update it in place. Each method is tied to the function of the
    Geometry, Door, Controls or Quest module that says what it computes. */
module Abbey {
  import opened Geometry
  import Door
  import opened Controls
  import opened Quest

  class Game {
    // the held-key flags (moveForward ... interactKeyPressed)
    var keys: Keys

    // camera zoom and manual-camera mode
    var currentCameraDistance: real
    var isMouseControlling: bool
    var mouseControlTimer: Option<nat>
    var timerPending: bool
    var timersIssued: nat

    // poses: the avatar, the camera and the orbit target it looks at
    var monkPosition: Vec3
    var cameraPosition: Vec3
    var orbitTarget: Vec3

    // the door's current angle
    var doorRotation: real

    // what checkNPCInteraction reads and writes: isDoorOpen,
    // doorTargetRotation, hasTalkedToMonk, hasTalkedToAltarNPC,
    // interactKeyWasPressed and the quest panel
    var interaction: Interaction

    function MouseState(): MouseMode
      reads this`isMouseControlling, this`mouseControlTimer, this`timerPending, this`timersIssued
    {
      MouseMode(isMouseControlling, mouseControlTimer, timerPending, timersIssued)
    }

    /** What every handler and frame step keeps: the zoom within its bounds,
        the door aimed where its flag says and swung no further than open,
        the avatar inside a room or the doorway (the door may have closed
        since it entered), the camera between its heights. */
    ghost predicate Valid()
      reads this`isMouseControlling, this`mouseControlTimer, this`timerPending, this`timersIssued,
            this`currentCameraDistance, this`interaction,
            this`doorRotation, this`monkPosition, this`cameraPosition
    {
      MouseState().Valid() &&
      MinCameraDistance <= currentCameraDistance <= MaxCameraDistance &&
      interaction.DoorConsistent() &&
      0.0 <= doorRotation <= Door.MaxRotation &&
      AtRest(monkPosition, true) &&
      MinCameraHeight <= cameraPosition.y <= MaxCameraHeight
    }

    /** The start of a session: avatar at the origin, camera at (0, 2, 5),
        zoom 4, door closed, nothing held, no dialogue shown. */
    constructor ()
      ensures Valid()
      ensures keys == NoKeys && MouseState() == StartMouseMode
      ensures interaction == StartInteraction
      ensures currentCameraDistance == StartCameraDistance && doorRotation == 0.0
      ensures monkPosition == Vec3(0.0, 0.0, 0.0) && cameraPosition == Vec3(0.0, 2.0, 5.0)
    {
      keys := NoKeys;
      currentCameraDistance := StartCameraDistance;
      isMouseControlling, mouseControlTimer, timerPending, timersIssued := false, None, false, 1;
      monkPosition := Vec3(0.0, 0.0, 0.0);
      cameraPosition := Vec3(0.0, 2.0, 5.0);
      orbitTarget := Vec3(0.0, 0.0, 0.0);
      doorRotation := 0.0;
      interaction := StartInteraction;
    }

    /** onKeyDown */
    method OnKeyDown(key: string)
      requires Valid()
      modifies this`keys
      ensures Valid()
      ensures keys == KeyDown(old(keys), key)
    {
      var action := ActionOf(key);
      if action.Some? {
        keys := keys.Set(action.value, true);
      }
    }

    /** onKeyUp */
    method OnKeyUp(key: string)
      requires Valid()
      modifies this`keys
      ensures Valid()
      ensures keys == KeyUp(old(keys), key)
    {
      var action := ActionOf(key);
      if action.Some? {
        keys := keys.Set(action.value, false);
      }
    }

    /** onMouseWheel */
    method OnMouseWheel(deltaY: real)
      requires Valid()
      modifies this`currentCameraDistance
      ensures Valid()
      ensures currentCameraDistance == Zoom(old(currentCameraDistance), deltaY)
    {
      if deltaY < 0.0 {
        currentCameraDistance := if currentCameraDistance - ZoomStep < MinCameraDistance
                                 then MinCameraDistance else currentCameraDistance - ZoomStep;
      } else {
        currentCameraDistance := if currentCameraDistance + ZoomStep > MaxCameraDistance
                                 then MaxCameraDistance else currentCameraDistance + ZoomStep;
      }
    }

    /** The mousedown listener: a right press takes manual control and
        clears the pending release timer. */
    method OnMouseDown(button: int)
      requires Valid()
      modifies this`isMouseControlling, this`timerPending
      ensures Valid()
      ensures MouseState() == OnMouse(old(MouseState()), MouseDown(button))
    {
      if button == RightButton {
        isMouseControlling := true;
        if mouseControlTimer.Some? {
          timerPending := false;
        }
      }
    }

    /** The mouseup listener: a right release clears the pending timer and
        starts a new one, whose handle is stored. */
    method OnMouseUp(button: int)
      requires Valid()
      modifies this`mouseControlTimer, this`timerPending, this`timersIssued
      ensures Valid()
      ensures MouseState() == OnMouse(old(MouseState()), MouseUp(button))
    {
      if button == RightButton {
        if mouseControlTimer.Some? {
          timerPending := false;
        }
        mouseControlTimer := Some(timersIssued);
        timersIssued := timersIssued + 1;
        timerPending := true;
      }
    }

    /** The expiry of the timer with the given handle; a cleared timer never
        runs its callback. */
    method OnTimerExpired(handle: nat)
      requires Valid()
      modifies this`isMouseControlling, this`timerPending
      ensures Valid()
      ensures MouseState() == OnMouse(old(MouseState()), TimerExpired(handle))
    {
      if timerPending && mouseControlTimer == Some(handle) {
        timerPending := false;
        isMouseControlling := false;
      }
    }

    /** The avatar half of updateMonkPosition: `step` is the normalised move
        vector scaled by the speed, applied only while a movement key is held;
        the walls are then applied and the orbit target follows the avatar. */
    method MoveMonk(step: Vec3)
      requires Valid()
      modifies this`monkPosition, this`orbitTarget
      ensures Valid()
      ensures var moving := keys.Moving();
              var moved := if moving then old(monkPosition).Plus(step) else old(monkPosition);
              monkPosition == ClampAvatar(moved, interaction.doorOpen)
      ensures AtRest(monkPosition, interaction.doorOpen)
      ensures old(AtRest(monkPosition, interaction.doorOpen)) && !keys.Moving()
              ==> monkPosition == old(monkPosition)
      ensures orbitTarget == Vec3(monkPosition.x, monkPosition.y + 1.0, monkPosition.z)
    {
      var moved := monkPosition;
      if keys.Moving() {
        moved := moved.Plus(step);
      } else if AtRest(moved, interaction.doorOpen) {
        ClampKeepsRest(moved, interaction.doorOpen);
      }
      var rest := ClampAvatar(moved, interaction.doorOpen);
      assert AtRest(rest, true);
      monkPosition := rest;
      orbitTarget := Vec3(rest.x, rest.y + 1.0, rest.z);
    }

    /** The camera half of updateMonkPosition: `followGoal` is the position
        behind the avatar the follow camera aims for, `orbitGoal` the position
        at the zoom distance along the current viewing direction; the camera
        is then pulled toward the avatar's room. */
    method PlaceCamera(followGoal: Vec3, orbitGoal: Vec3)
      requires Valid()
      modifies this`cameraPosition
      ensures Valid()
      ensures var placed := if isMouseControlling then orbitGoal
                            else Lerp(old(cameraPosition), followGoal);
              cameraPosition == ClampCamera(placed, monkPosition.x)
    {
      var placed := orbitGoal;
      if !isMouseControlling {
        placed := Lerp(cameraPosition, followGoal);
      }
      cameraPosition := ClampCamera(placed, monkPosition.x);
    }

    /** updateMonkPosition: the avatar moves, then the camera follows it. */
    method UpdateMonkPosition(step: Vec3, followGoal: Vec3, orbitGoal: Vec3)
      requires Valid()
      modifies this`monkPosition, this`cameraPosition, this`orbitTarget
      ensures Valid()
      ensures var moving := keys.Moving();
              var moved := if moving then old(monkPosition).Plus(step) else old(monkPosition);
              monkPosition == ClampAvatar(moved, interaction.doorOpen)
      ensures AtRest(monkPosition, interaction.doorOpen)
      ensures old(AtRest(monkPosition, interaction.doorOpen)) && !keys.Moving()
              ==> monkPosition == old(monkPosition)
      ensures orbitTarget == Vec3(monkPosition.x, monkPosition.y + 1.0, monkPosition.z)
      ensures var placed := if isMouseControlling then orbitGoal
                            else Lerp(old(cameraPosition), followGoal);
              cameraPosition == ClampCamera(placed, monkPosition.x)
    {
      MoveMonk(step);
      PlaceCamera(followGoal, orbitGoal);
    }

    /** The door step of animate. */
    method StepDoor()
      requires Valid()
      modifies this`doorRotation
      ensures Valid()
      ensures doorRotation == Door.Step(old(doorRotation), interaction.doorTarget)
    {
      doorRotation := doorRotation + (interaction.doorTarget - doorRotation) * Door.RotationSpeed;
    }

    /** checkNPCInteraction, given the avatar's distances to the two NPCs;
        returns the dialogue it opens, if any. */
    method CheckNPCInteraction(distanceToNPC: real, distanceToAltarNPC: real) returns (dialog: Dialog)
      requires Valid()
      modifies this`interaction
      ensures Valid()
      ensures var o := Check(old(interaction), Place(monkPosition, distanceToNPC, distanceToAltarNPC),
                             keys.interact);
              interaction == o.state && dialog == o.dialog
    {
      var o := Check(interaction, Place(monkPosition, distanceToNPC, distanceToAltarNPC), keys.interact);
      interaction := o.state;
      dialog := o.dialog;
    }

    /** One frame of animate: door, avatar and camera, then the interaction
        check. Input, zoom and mouse state are outside its frame. */
    method Animate(step: Vec3, followGoal: Vec3, orbitGoal: Vec3,
                   distanceToNPC: real, distanceToAltarNPC: real) returns (dialog: Dialog)
      requires Valid()
      modifies this`doorRotation, this`monkPosition, this`cameraPosition, this`orbitTarget,
               this`interaction
      ensures Valid()
      ensures doorRotation == Door.Step(old(doorRotation), old(interaction.doorTarget))
      ensures var moved := if keys.Moving() then old(monkPosition).Plus(step) else old(monkPosition);
              monkPosition == ClampAvatar(moved, old(interaction.doorOpen))
      ensures orbitTarget == Vec3(monkPosition.x, monkPosition.y + 1.0, monkPosition.z)
      ensures var placed := if isMouseControlling then orbitGoal
                            else Lerp(old(cameraPosition), followGoal);
              cameraPosition == ClampCamera(placed, monkPosition.x)
      ensures var o := Check(old(interaction), Place(monkPosition, distanceToNPC, distanceToAltarNPC),
                             keys.interact);
              interaction == o.state && dialog == o.dialog
    {
      StepDoor();
      UpdateMonkPosition(step, followGoal, orbitGoal);
      dialog := CheckNPCInteraction(distanceToNPC, distanceToAltarNPC);
    }
  }
}
