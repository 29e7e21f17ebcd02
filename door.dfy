/** The connecting door: its per-frame exponential approach toward the target
    angle (the door step of animate in main.js). */
module Door {

  /** Fraction of the remaining angle covered per frame (DOOR_ROTATION_SPEED). */
  const RotationSpeed: real := 0.05
  /** Math.PI / 2, the angle of the open door (MAX_DOOR_ROTATION), written as
      the decimal rendering of the double the browser computes. */
  const MaxRotation: real := 1.5707963267948966

  /** The two angles a toggle can aim at: 0 when closed, MaxRotation when open. */
  function TargetFor(open: bool): (t: real)
    ensures open <==> t > 0.0
    ensures t == 0.0 || t == MaxRotation
    ensures 0.0 <= t <= MaxRotation
  {
    if open then MaxRotation else 0.0
  }

  /** One animation frame: the rotation covers 5% of the remaining gap. */
  function Step(rotation: real, target: real): (r: real)
    ensures target - r == (1.0 - RotationSpeed) * (target - rotation)
    ensures rotation <= target ==> rotation <= r <= target
    ensures target <= rotation ==> target <= r <= rotation
  {
    rotation + (target - rotation) * RotationSpeed
  }

  /** The rotation after n frames with an unchanged target. */
  function Settle(rotation: real, target: real, n: nat): real
    decreases n
  {
    if n == 0 then rotation else Settle(Step(rotation, target), target, n - 1)
  }

  function Pow(b: real, n: nat): real
  {
    if n == 0 then 1.0 else b * Pow(b, n - 1)
  }

  /** After n frames the remaining gap is 0.95^n times the initial one. */
  lemma {:induction false} SettleGap(rotation: real, target: real, n: nat)
    ensures target - Settle(rotation, target, n) == Pow(1.0 - RotationSpeed, n) * (target - rotation)
    decreases n
  {
    if n > 0 {
      var b := 1.0 - RotationSpeed;
      var s := Step(rotation, target);
      SettleGap(s, target, n - 1);
      var x, g := Pow(b, n - 1), target - rotation;
      assert Settle(rotation, target, n) == Settle(s, target, n - 1);
      assert target - s == b * g;
      assert target - Settle(rotation, target, n) == x * (b * g);
      assert x * (b * g) == (b * x) * g;
      assert Pow(b, n) == b * x;
    }
  }

  /** With an unchanged target the door never passes it. */
  lemma {:induction false} SettleNoOvershoot(rotation: real, target: real, n: nat)
    ensures rotation <= target ==> rotation <= Settle(rotation, target, n) <= target
    ensures target <= rotation ==> target <= Settle(rotation, target, n) <= rotation
    decreases n
  {
    if n > 0 {
      SettleNoOvershoot(Step(rotation, target), target, n - 1);
    }
  }

  lemma {:induction false} PowAdd(b: real, m: nat, n: nat)
    ensures Pow(b, m + n) == Pow(b, m) * Pow(b, n)
  {
    if m > 0 {
      PowAdd(b, m - 1, n);
    }
  }

  /** Squaring keeps a bound on a non-negative factor squared. */
  lemma SquareBound(x: real, c: real)
    requires 0.0 <= x <= c
    ensures 0.0 <= x * x <= c * c
  {
  }

  /** Twice as many frames square the factor: a bound c on n frames gives c * c on 2n. */
  lemma {:induction false} PowDouble(b: real, n: nat, c: real)
    requires 0.0 <= Pow(b, n) <= c
    ensures 0.0 <= Pow(b, n + n) <= c * c
  {
    PowAdd(b, n, n);
    SquareBound(Pow(b, n), c);
  }

  /** Sixteen frames at least halve the gap. */
  lemma SixteenFramesHalve()
    ensures 0.0 <= Pow(1.0 - RotationSpeed, 16) <= 0.5
  {
    var b := 1.0 - RotationSpeed;
    assert Pow(b, 2) == 0.9025 by {
      assert Pow(b, 1) == b;
    }
    PowAdd(b, 2, 2);
    PowAdd(b, 4, 4);
    PowAdd(b, 8, 8);
    assert Pow(b, 4) == 0.81450625;
    assert Pow(b, 8) == 0.6634204312890625;
  }

  /** 128 frames shrink the gap to at most 1/256 of what it was. */
  lemma Pow128Bound()
    ensures 0.0 <= Pow(1.0 - RotationSpeed, 128) <= 0.00390625
  {
    var b := 1.0 - RotationSpeed;
    SixteenFramesHalve();
    PowDouble(b, 16, 0.5);
    PowDouble(b, 32, 0.25);
    PowDouble(b, 64, 0.0625);
  }

  lemma ScaleDown(b: real, x: real)
    requires 0.0 <= b <= 1.0 && 0.0 <= x
    ensures 0.0 <= b * x <= x
  {
  }

  lemma {:induction false} PowNonneg(b: real, n: nat)
    requires 0.0 <= b
    ensures 0.0 <= Pow(b, n)
  {
    if n > 0 {
      PowNonneg(b, n - 1);
      var x := Pow(b, n - 1);
      assert 0.0 <= b * x;
    }
  }

  /** Each further frame can only shrink the factor. */
  lemma {:induction false} PowShrinks(b: real, m: nat, n: nat)
    requires 0.0 <= b <= 1.0 && m <= n
    ensures 0.0 <= Pow(b, n) <= Pow(b, m)
    decreases n
  {
    PowNonneg(b, n);
    if n > m {
      PowShrinks(b, m, n - 1);
      var x := Pow(b, n - 1);
      ScaleDown(b, x);
      assert Pow(b, n) == b * x;
    }
  }

  /** A door starting anywhere between closed and open, aimed at either end,
      is within 0.01 of its target once 128 frames have passed. */
  lemma SettlesWithin128Frames(rotation: real, open: bool, n: nat)
    requires 0.0 <= rotation <= MaxRotation && n >= 128
    ensures var gap := TargetFor(open) - Settle(rotation, TargetFor(open), n);
            -0.01 < gap < 0.01
  {
    var t := TargetFor(open);
    SettleGap(rotation, t, n);
    Pow128Bound();
    PowShrinks(1.0 - RotationSpeed, 128, n);
    var p := Pow(1.0 - RotationSpeed, n);
    assert 0.0 <= p <= 0.00390625;
    var g := t - rotation;
    assert t - Settle(rotation, t, n) == p * g;
    if g >= 0.0 {
      assert p * g <= 0.00390625 * g <= 0.00390625 * MaxRotation;
    } else {
      assert p * -g <= 0.00390625 * -g <= 0.00390625 * MaxRotation;
      assert p * g == -(p * -g);
    }
  }

  /** The angle reached after following a sequence of targets, one per frame. */
  function Follow(rotation: real, targets: seq<real>): real
    decreases targets
  {
    if targets == [] then rotation else Follow(Step(rotation, targets[0]), targets[1..])
  }

  /** As long as every target is closed or open, the door stays between the
      two: whatever the toggles, it never swings past either end. */
  lemma {:induction false} FollowStaysInRange(rotation: real, targets: seq<real>)
    requires 0.0 <= rotation <= MaxRotation
    requires forall i :: 0 <= i < |targets| ==> targets[i] == 0.0 || targets[i] == MaxRotation
    ensures 0.0 <= Follow(rotation, targets) <= MaxRotation
    decreases targets
  {
    if targets != [] {
      FollowStaysInRange(Step(rotation, targets[0]), targets[1..]);
    }
  }
}
