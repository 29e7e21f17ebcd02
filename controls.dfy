/** Input state of the controller: held keys (onKeyDown / onKeyUp), the
    camera zoom distance (onMouseWheel) and the manual-camera mode with its
    release timer (the mousedown / mouseup listeners in main.js). */
module Controls {

  // ---------------------------------------------------------------- keys

  /** The logical actions bound to the keys z, s, q, d, a and e. */
  datatype Action = Forward | Backward | Left | Right | RotateLeft | Interact

  /** The key flags. rotateRight is declared by the program but no key sets it. */
  datatype Keys = Keys(moveForward: bool, moveBackward: bool, moveLeft: bool,
                       moveRight: bool, rotateLeft: bool, rotateRight: bool,
                       interact: bool)
  {
    function Held(a: Action): bool
    {
      match a
      case Forward => moveForward
      case Backward => moveBackward
      case Left => moveLeft
      case Right => moveRight
      case RotateLeft => rotateLeft
      case Interact => interact
    }

    /** Whether a movement key is held (the guard of the avatar step). */
    predicate Moving() { moveForward || moveBackward || moveLeft || moveRight }

    function Set(a: Action, v: bool): (k: Keys)
      ensures k.Held(a) == v
      ensures forall b :: b != a ==> k.Held(b) == Held(b)
      ensures k.rotateRight == rotateRight
    {
      match a
      case Forward => this.(moveForward := v)
      case Backward => this.(moveBackward := v)
      case Left => this.(moveLeft := v)
      case Right => this.(moveRight := v)
      case RotateLeft => this.(rotateLeft := v)
      case Interact => this.(interact := v)
    }
  }

  const NoKeys: Keys := Keys(false, false, false, false, false, false, false)

  datatype Option<T> = None | Some(value: T)

  /** String.prototype.toLowerCase restricted to ASCII letters. */
  function LowerChar(c: char): (l: char)
    ensures 'A' <= c <= 'Z' ==> 'a' <= l <= 'z' && l as int - c as int == 32
    ensures !('A' <= c <= 'Z') ==> l == c
  {
    if 'A' <= c <= 'Z' then (c as int + 32) as char else c
  }

  function Lower(s: string): (l: string)
    ensures |l| == |s|
    ensures forall i :: 0 <= i < |s| ==> l[i] == LowerChar(s[i])
  {
    seq(|s|, i requires 0 <= i < |s| => LowerChar(s[i]))
  }

  /** The switch on the lower-cased key value: only single lower-case
      letters are bound. */
  function Binding(l: string): (b: Option<Action>)
    ensures b.Some? ==> |l| == 1 && 'a' <= l[0] <= 'z'
  {
    if l == "z" then Some(Forward)
    else if l == "s" then Some(Backward)
    else if l == "q" then Some(Left)
    else if l == "d" then Some(Right)
    else if l == "a" then Some(RotateLeft)
    else if l == "e" then Some(Interact)
    else None
  }

  /** The action a lower-case character is bound to. */
  function CharAction(c: char): Option<Action>
  {
    match c
    case 'z' => Some(Forward)
    case 's' => Some(Backward)
    case 'q' => Some(Left)
    case 'd' => Some(Right)
    case 'a' => Some(RotateLeft)
    case 'e' => Some(Interact)
    case _ => None
  }

  /** The action a key value is bound to, in either case (the switch on
      event.key.toLowerCase()). Only one-character keys can match. */
  function ActionOf(key: string): (a: Option<Action>)
    ensures a.Some? ==> |key| == 1
  {
    if |key| != 1 then None else CharAction(LowerChar(key[0]))
  }

  /** ActionOf is the switch on the whole lower-cased key value. */
  lemma ActionOfLowered(key: string)
    ensures ActionOf(key) == Binding(Lower(key))
  {
  }

  /** onKeyDown: the bound action becomes held; every other flag is unchanged. */
  function KeyDown(k: Keys, key: string): (r: Keys)
    ensures forall a :: r.Held(a) == (k.Held(a) || ActionOf(key) == Some(a))
    ensures r.rotateRight == k.rotateRight
  {
    match ActionOf(key)
    case Some(a) => k.Set(a, true)
    case None => k
  }

  /** onKeyUp: the bound action is released; every other flag is unchanged. */
  function KeyUp(k: Keys, key: string): (r: Keys)
    ensures forall a :: r.Held(a) == (k.Held(a) && ActionOf(key) != Some(a))
    ensures r.rotateRight == k.rotateRight
  {
    match ActionOf(key)
    case Some(a) => k.Set(a, false)
    case None => k
  }

  /** The upper-case key selects the same action as the lower-case one. */
  lemma CaseInsensitive(c: char)
    requires 'a' <= c <= 'z'
    ensures ActionOf([(c as int - 32) as char]) == ActionOf([c])
  {
  }

  /** Setting a flag that was clear and clearing it again restores the keys. */
  lemma SetThenClear(k: Keys, a: Action)
    requires !k.Held(a)
    ensures k.Set(a, true).Set(a, false) == k
  {
  }

  /** Releasing a key undoes pressing it, for a key that was not held before. */
  lemma KeyUpUndoesKeyDown(k: Keys, key: string)
    requires forall a :: ActionOf(key) == Some(a) ==> !k.Held(a)
    ensures KeyUp(KeyDown(k, key), key) == k
  {
    var action := ActionOf(key);
    if action.Some? {
      SetThenClear(k, action.value);
    }
  }

  // ---------------------------------------------------------------- zoom

  const MinCameraDistance: real := 2.0
  const MaxCameraDistance: real := 6.0
  const StartCameraDistance: real := 4.0
  const ZoomStep: real := 0.2

  /** onMouseWheel: a negative deltaY zooms in one step, anything else zooms
      out one step, saturating at the distance bounds. */
  function Zoom(distance: real, deltaY: real): (r: real)
    ensures deltaY < 0.0 ==> r == distance - ZoomStep || (r == MinCameraDistance && distance - ZoomStep < MinCameraDistance)
    ensures deltaY >= 0.0 ==> r == distance + ZoomStep || (r == MaxCameraDistance && distance + ZoomStep > MaxCameraDistance)
    ensures deltaY < 0.0 ==> MinCameraDistance <= r
    ensures deltaY >= 0.0 ==> r <= MaxCameraDistance
    ensures MinCameraDistance <= distance <= MaxCameraDistance ==> MinCameraDistance <= r <= MaxCameraDistance
  {
    if deltaY < 0.0 then
      (if distance - ZoomStep < MinCameraDistance then MinCameraDistance else distance - ZoomStep)
    else
      (if distance + ZoomStep > MaxCameraDistance then MaxCameraDistance else distance + ZoomStep)
  }

  /** The distance after a sequence of wheel events. */
  function ZoomAll(distance: real, deltas: seq<real>): real
    decreases deltas
  {
    if deltas == [] then distance else ZoomAll(Zoom(distance, deltas[0]), deltas[1..])
  }

  /** From the start distance, no sequence of wheel events leaves [2, 6]. */
  lemma {:induction false} ZoomAllInRange(distance: real, deltas: seq<real>)
    requires MinCameraDistance <= distance <= MaxCameraDistance
    ensures MinCameraDistance <= ZoomAll(distance, deltas) <= MaxCameraDistance
    decreases deltas
  {
    if deltas != [] {
      ZoomAllInRange(Zoom(distance, deltas[0]), deltas[1..]);
    }
  }

  /** Away from the lower bound, a step in and a step out cancel. */
  lemma ZoomInThenOut(distance: real, deltaIn: real, deltaOut: real)
    requires MinCameraDistance + ZoomStep <= distance <= MaxCameraDistance
    requires deltaIn < 0.0 <= deltaOut
    ensures Zoom(Zoom(distance, deltaIn), deltaOut) == distance
  {
  }

  // ---------------------------------------------------------------- manual camera

  const RightButton: int := 2
  /** Mouse events reaching the canvas, plus the expiry of a timer by handle. */
  datatype MouseEvent = MouseDown(button: int) | MouseUp(button: int) | TimerExpired(handle: nat)

  /** isMouseControlling, the stored timer handle (mouseControlTimer; kept
      after clearTimeout, as in the program), whether the browser still has
      that timer pending, and the handle setTimeout issues next. Handles are
      positive, as a browser's are, so a stored handle is always truthy and
      `timer.Some?` is the program's `if (mouseControlTimer)`. */
  datatype MouseMode = MouseMode(controlling: bool, timer: Option<nat>, pending: bool, issued: nat)
  {
    ghost predicate Valid()
    {
      0 < issued && (timer.Some? ==> 0 < timer.value < issued) && (pending ==> timer.Some?)
    }
  }

  const StartMouseMode: MouseMode := MouseMode(false, None, false, 1)

  /** One mouse event. A right-button press takes manual control and cancels
      the pending timer; a right-button release starts a fresh timer in place
      of any pending one; only the expiry of the pending timer gives control
      back to the follow camera. */
  function OnMouse(m: MouseMode, e: MouseEvent): (r: MouseMode)
    requires m.Valid()
    ensures r.Valid()
    ensures e == MouseDown(RightButton) ==> r.controlling && !r.pending
    ensures e == MouseDown(RightButton) ==> r.timer == m.timer && r.issued == m.issued
    ensures e == MouseUp(RightButton) ==> r.issued == m.issued + 1
    ensures m.issued <= r.issued
    ensures e == MouseUp(RightButton) ==>
              r.controlling == m.controlling && r.pending && r.timer == Some(m.issued)
    ensures r.timer.Some? && r.timer != m.timer ==> e == MouseUp(RightButton)
    ensures m.controlling && !r.controlling ==>
              m.pending && m.timer.Some? && e == TimerExpired(m.timer.value)
    ensures !m.controlling && r.controlling ==> e == MouseDown(RightButton)
    ensures (e.MouseDown? || e.MouseUp?) && e.button != RightButton ==> r == m
    ensures e.TimerExpired? ==>
              r.timer == m.timer && r.issued == m.issued &&
              r.controlling == (m.controlling && !(m.pending && m.timer == Some(e.handle))) &&
              r.pending == (m.pending && m.timer != Some(e.handle))
  {
    match e
    case MouseDown(b) =>
      if b == RightButton then m.(controlling := true, pending := false) else m
    case MouseUp(b) =>
      if b == RightButton then m.(timer := Some(m.issued), pending := true, issued := m.issued + 1) else m
    case TimerExpired(h) =>
      if m.pending && m.timer == Some(h) then m.(controlling := false, pending := false) else m
  }

  function OnMouseAll(m: MouseMode, events: seq<MouseEvent>): (r: MouseMode)
    requires m.Valid()
    ensures r.Valid()
    decreases events
  {
    if events == [] then m else OnMouseAll(OnMouse(m, events[0]), events[1..])
  }

  /** Until the right button is released again, no timer expiry (of a
      cancelled timer or any other handle) ends manual control. */
  lemma {:induction false} NoReleaseWithoutMouseUp(m: MouseMode, events: seq<MouseEvent>)
    requires m.Valid() && m.controlling && !m.pending
    requires forall i :: 0 <= i < |events| ==> events[i] != MouseUp(RightButton)
    ensures OnMouseAll(m, events).controlling
    decreases events
  {
    if events != [] {
      NoReleaseWithoutMouseUp(OnMouse(m, events[0]), events[1..]);
    }
  }

  /** A timer cancelled by a later right-button press never fires: after a
      press, an old handle expiring does not release the camera even once a
      new timer has been started. */
  lemma StaleTimerIgnored(m: MouseMode)
    requires m.Valid() && m.timer.Some?
    ensures var r := OnMouseAll(m, [MouseDown(RightButton), MouseUp(RightButton), TimerExpired(m.timer.value)]);
            r.controlling && r.pending
  {
    var a := OnMouse(m, MouseDown(RightButton));
    var b := OnMouse(a, MouseUp(RightButton));
    assert b.timer == Some(m.issued) && m.timer.value < m.issued;
    var c := OnMouse(b, TimerExpired(m.timer.value));
    assert c == b;
    var evs := [MouseDown(RightButton), MouseUp(RightButton), TimerExpired(m.timer.value)];
    assert evs[1..][1..][1..] == [];
    assert OnMouseAll(m, evs) == OnMouseAll(a, evs[1..]) == OnMouseAll(b, evs[1..][1..])
        == OnMouseAll(c, evs[1..][1..][1..]);
  }

  /** Press, release, and the expiry of the timer the release started return
      the camera to follow mode. */
  lemma PressReleaseExpire(m: MouseMode)
    requires m.Valid()
    ensures !OnMouseAll(m, [MouseDown(RightButton), MouseUp(RightButton), TimerExpired(m.issued)]).controlling
  {
    var a := OnMouse(m, MouseDown(RightButton));
    var b := OnMouse(a, MouseUp(RightButton));
    var c := OnMouse(b, TimerExpired(m.issued));
    assert !c.controlling;
    var evs := [MouseDown(RightButton), MouseUp(RightButton), TimerExpired(m.issued)];
    assert evs[1..][1..][1..] == [];
    assert OnMouseAll(m, evs) == OnMouseAll(a, evs[1..]) == OnMouseAll(b, evs[1..][1..])
        == OnMouseAll(c, evs[1..][1..][1..]);
  }
}
