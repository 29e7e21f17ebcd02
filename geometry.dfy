/** Positions, room boxes and the clamping rules of the avatar controller
    (updateMonkPosition in main.js). Coordinates are exact reals. */
module Geometry {

  datatype Vec3 = Vec3(x: real, y: real, z: real)
  {
    function Plus(d: Vec3): Vec3 { Vec3(x + d.x, y + d.y, z + d.z) }
  }

  /** An axis-aligned room box on the floor plane (x and z only). */
  datatype Box = Box(minX: real, maxX: real, minZ: real, maxZ: real)
  {
    ghost predicate WellFormed() { minX <= maxX && minZ <= maxZ }
    predicate Holds(p: Vec3) { minX <= p.x <= maxX && minZ <= p.z <= maxZ }
  }

  /** Half extent of the main room minus the wall thickness (WALL_SIZE). */
  const WallSize: real := 9.5
  const MainRoom: Box := Box(-WallSize, WallSize, -WallSize, WallSize)
  const AltarRoom: Box := Box(10.0, 20.0, -5.0, 5.0)
  /** x of the wall between the rooms; x > DoorX selects the altar room. */
  const DoorX: real := 10.0
  const MinAvatarY: real := 0.0
  const MaxAvatarY: real := 4.0
  const MinCameraHeight: real := 0.5
  const MaxCameraHeight: real := 3.5
  /** Fraction of the way the camera moves per frame (lerp factor and soft clamp). */
  const CameraSmoothing: real := 0.1

  function Abs(v: real): real { if v < 0.0 then -v else v }

  /** Math.max(lo, Math.min(hi, v)). */
  function Clamp(v: real, lo: real, hi: real): (r: real)
    requires lo <= hi
    ensures lo <= r <= hi
    ensures lo <= v <= hi ==> r == v
    ensures v < lo ==> r == lo
    ensures hi < v ==> r == hi
  {
    if v < lo then lo else if hi < v then hi else v
  }

  /** The doorway test shared by the clamp and the interaction check. */
  function InDoorway(p: Vec3): (b: bool)
    ensures b <==> DoorX - 1.0 < p.x < DoorX + 1.0 && -1.0 < p.z < 1.0
  {
    Abs(p.z) < 1.0 && Abs(p.x - DoorX) < 1.0
  }

  /** The room whose walls apply at x: the altar room strictly beyond the door wall. */
  function RoomAt(x: real): (b: Box)
    ensures b.WellFormed()
    ensures b == AltarRoom <==> x > DoorX
    ensures x <= DoorX ==> b == MainRoom
  {
    if x > DoorX then AltarRoom else MainRoom
  }

  /** Where an avatar may stand after a clamp, given the door state: inside the
      main room, inside the altar room strictly past the wall, or (door open) in
      the doorway; and always at a height within [0, 4]. */
  predicate AtRest(p: Vec3, doorOpen: bool)
  {
    MinAvatarY <= p.y <= MaxAvatarY &&
    (MainRoom.Holds(p) || (AltarRoom.Holds(p) && p.x > DoorX) || (doorOpen && InDoorway(p)))
  }

  /** Wall constraint applied after a move (the tail of updateMonkPosition). */
  function ClampAvatar(p: Vec3, doorOpen: bool): (r: Vec3)
    ensures MinAvatarY <= r.y <= MaxAvatarY
    ensures MinAvatarY <= p.y <= MaxAvatarY ==> r.y == p.y
    ensures r.y == Clamp(p.y, MinAvatarY, MaxAvatarY)
    ensures !(InDoorway(p) && doorOpen) ==>
              var b := RoomAt(p.x);
              r.x == Clamp(p.x, b.minX, b.maxX) && r.z == Clamp(p.z, b.minZ, b.maxZ)
    ensures InDoorway(p) && doorOpen ==> r.x == p.x && r.z == p.z
    ensures !(InDoorway(p) && doorOpen) ==> RoomAt(p.x).Holds(r)
    ensures !(InDoorway(p) && doorOpen) && p.x > DoorX ==> r.x > DoorX
    ensures !(InDoorway(p) && doorOpen) && RoomAt(p.x).Holds(p) ==> r.x == p.x && r.z == p.z
    ensures AtRest(r, doorOpen)
  {
    var y := Clamp(p.y, MinAvatarY, MaxAvatarY);
    if InDoorway(p) && doorOpen then
      Vec3(p.x, y, p.z)
    else
      var b := RoomAt(p.x);
      Vec3(Clamp(p.x, b.minX, b.maxX), y, Clamp(p.z, b.minZ, b.maxZ))
  }

  /** An avatar already at rest is not moved by the clamp. */
  lemma ClampKeepsRest(p: Vec3, doorOpen: bool)
    requires AtRest(p, doorOpen)
    ensures ClampAvatar(p, doorOpen) == p
  {
  }

  /** Clamping twice is the same as clamping once. */
  lemma ClampIdempotent(p: Vec3, doorOpen: bool)
    ensures ClampAvatar(ClampAvatar(p, doorOpen), doorOpen) == ClampAvatar(p, doorOpen)
  {
  }

  /** With the door closed, an avatar in the main room that takes a step of at
      most 0.5 along x stays in the main room. */
  lemma ClosedDoorKeepsMainRoom(p: Vec3, d: Vec3)
    requires MainRoom.Holds(p) && Abs(d.x) <= 0.5
    ensures MainRoom.Holds(ClampAvatar(p.Plus(d), false))
  {
  }

  /** The room is chosen from the position AFTER the move: with the door
      closed, an avatar just past the wall in the altar room that steps 0.1
      back toward the main room is put inside the main room. */
  lemma ClosedDoorAltarWallCrossing()
    ensures var p := Vec3(10.05, 0.0, 3.0);
            AltarRoom.Holds(p) && p.x > DoorX && !InDoorway(p) &&
            ClampAvatar(p.Plus(Vec3(-0.1, 0.0, 0.0)), false) == Vec3(WallSize, 0.0, 3.0)
  {
  }

  /** Signed distance from v to the interval [lo, hi]: zero inside it. */
  function Excess(v: real, lo: real, hi: real): (e: real)
    requires lo <= hi
    ensures (e == 0.0) == (lo <= v <= hi)
    ensures e > 0.0 <==> v > hi
    ensures e < 0.0 <==> v < lo
  {
    v - Clamp(v, lo, hi)
  }

  /** One frame of the soft wall pull on one camera coordinate. */
  function SoftClamp(v: real, lo: real, hi: real): (r: real)
    requires lo <= hi
    ensures Excess(r, lo, hi) == (1.0 - CameraSmoothing) * Excess(v, lo, hi)
    ensures Clamp(v, lo, hi) <= v ==> Clamp(v, lo, hi) <= r <= v
    ensures v <= Clamp(v, lo, hi) ==> v <= r <= Clamp(v, lo, hi)
    ensures lo <= v <= hi ==> r == v
  {
    v + (Clamp(v, lo, hi) - v) * CameraSmoothing
  }

  /** Camera wall constraint (end of updateMonkPosition): x and z are pulled
      10% toward the box of the room the avatar is in, y is hard-clamped. */
  function ClampCamera(cam: Vec3, avatarX: real): (r: Vec3)
    ensures MinCameraHeight <= r.y <= MaxCameraHeight
    ensures MinCameraHeight <= cam.y <= MaxCameraHeight ==> r.y == cam.y
    ensures r.y == Clamp(cam.y, MinCameraHeight, MaxCameraHeight)
    ensures var b := RoomAt(avatarX);
            r.x == SoftClamp(cam.x, b.minX, b.maxX) && r.z == SoftClamp(cam.z, b.minZ, b.maxZ)
    ensures var b := RoomAt(avatarX);
            Excess(r.x, b.minX, b.maxX) == (1.0 - CameraSmoothing) * Excess(cam.x, b.minX, b.maxX) &&
            Excess(r.z, b.minZ, b.maxZ) == (1.0 - CameraSmoothing) * Excess(cam.z, b.minZ, b.maxZ)
    ensures var b := RoomAt(avatarX); b.minX <= cam.x <= b.maxX ==> r.x == cam.x
    ensures var b := RoomAt(avatarX); b.minZ <= cam.z <= b.maxZ ==> r.z == cam.z
  {
    var b := RoomAt(avatarX);
    Vec3(SoftClamp(cam.x, b.minX, b.maxX),
         Clamp(cam.y, MinCameraHeight, MaxCameraHeight),
         SoftClamp(cam.z, b.minZ, b.maxZ))
  }

  /** Vector3.lerp(goal, 0.1), the follow camera's per-frame move: from p,
      10% of the way to goal. */
  function Lerp(p: Vec3, goal: Vec3): (r: Vec3)
    ensures goal.x - r.x == (1.0 - CameraSmoothing) * (goal.x - p.x)
    ensures goal.y - r.y == (1.0 - CameraSmoothing) * (goal.y - p.y)
    ensures goal.z - r.z == (1.0 - CameraSmoothing) * (goal.z - p.z)
  {
    var t := CameraSmoothing;
    Vec3(p.x + (goal.x - p.x) * t, p.y + (goal.y - p.y) * t, p.z + (goal.z - p.z) * t)
  }
}
