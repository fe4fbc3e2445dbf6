/**
 * The arithmetic of Ev3::MovementController: a relative power becomes a
 * speed in tacho counts per second, a direction splits it between the two
 * wheels, and a distance becomes relative tacho counts. All of it is exact
 * rational arithmetic, rounded once at the end (halves away from zero).
 */
module Kinematics {
  import opened Numbers

  /** `power_to_speed(power)`: Rational(power * max_speed, 100). */
  function PowerToSpeed(power: int, maxSpeed: int): (f: real)
    ensures f * 100.0 == (power * maxSpeed) as real
  {
    (power * maxSpeed) as real / 100.0
  }

  /** `left_speed_for(full_speed, direction)`: a left turn (negative direction) slows the left wheel. */
  function LeftSpeed(full: real, direction: int): int {
    Round(if direction < 0 then full - (direction as real * -2.0 * full) / 100.0 else full)
  }

  /** `right_speed_for(full_speed, direction)`: a right turn (positive direction) slows the right wheel. */
  function RightSpeed(full: real, direction: int): int {
    Round(if direction > 0 then full - (direction as real * 2.0 * full) / 100.0 else full)
  }

  /** The factor the inner wheel's speed is scaled by in a turn of direction d < 0: 1 + 2d/100. */
  function InnerFactor(d: int): real {
    1.0 + (2 * d) as real / 100.0
  }

  /** x scaled by k (a name for the product keeps the solver away from nonlinear search). */
  function Scale(x: real, k: real): real {
    x * k
  }

  lemma InnerIdentity(full: real, d: int)
    ensures full - (d as real * -2.0 * full) / 100.0 == Scale(full, InnerFactor(d))
    ensures full - (d as real * 2.0 * full) / 100.0 == Scale(full, InnerFactor(-d))
  {
    var dr := d as real;
    assert (2 * d) as real == 2.0 * dr;
    assert (2 * -d) as real == -2.0 * dr;
    assert full * InnerFactor(d) == full + full * (2.0 * dr) / 100.0;
    assert full * InnerFactor(-d) == full - full * (2.0 * dr) / 100.0;
    assert dr * -2.0 * full == -(full * (2.0 * dr));
    assert dr * 2.0 * full == full * (2.0 * dr);
  }

  /** The two wheel speeds in closed form: the inner wheel of a turn runs at F*(1 - 2|d|/100), the outer at F. */
  lemma WheelSpeeds(full: real, d: int)
    ensures LeftSpeed(full, d) == if d < 0 then Round(Scale(full, InnerFactor(d))) else Round(full)
    ensures RightSpeed(full, d) == if d > 0 then Round(Scale(full, InnerFactor(-d))) else Round(full)
  {
    InnerIdentity(full, d);
  }

  /** Turning left by d mirrors turning right by d: the wheels swap speeds. */
  lemma TurnMirror(full: real, d: int)
    ensures LeftSpeed(full, -d) == RightSpeed(full, d)
    ensures RightSpeed(full, -d) == LeftSpeed(full, d)
  {
    WheelSpeeds(full, d);
    WheelSpeeds(full, -d);
    assert -(-d) == d;
  }

  /** Straight ahead both wheels get the rounded full speed. */
  lemma StraightSpeeds(full: real)
    ensures LeftSpeed(full, 0) == RightSpeed(full, 0) == Round(full)
  {
  }

  /** At the extreme directions the robot turns on the spot: the wheels run at opposite speeds. */
  lemma SpinOnTheSpot(full: real)
    ensures LeftSpeed(full, -100) == -RightSpeed(full, -100)
    ensures RightSpeed(full, 100) == -LeftSpeed(full, 100)
  {
    WheelSpeeds(full, -100);
    WheelSpeeds(full, 100);
    assert InnerFactor(-100) == -1.0;
    assert Scale(full, -1.0) == -full;
    RoundNegate(full);
  }

  lemma MulNonNegative(a: real, b: real)
    requires a >= 0.0 && b >= 0.0
    ensures a * b >= 0.0
  {
  }

  /** A value scaled by a factor within -1..1 stays within the bound of the value. */
  lemma ScaledWithin(x: real, k: real, bound: real)
    requires -bound <= x <= bound && -1.0 <= k <= 1.0
    ensures -bound <= Scale(x, k) <= bound
  {
    if x >= 0.0 {
      MulNonNegative(x, 1.0 - k);
      MulNonNegative(x, k + 1.0);
      assert x * (1.0 - k) == x - x * k;
      assert x * (k + 1.0) == x * k + x;
    } else {
      MulNonNegative(-x, k + 1.0);
      MulNonNegative(-x, 1.0 - k);
      assert (-x) * (k + 1.0) == -(x * k) - x;
      assert (-x) * (1.0 - k) == x * k - x;
    }
  }

  /** The full speed of a power within -100..100 lies within -max..max. */
  lemma PowerToSpeedWithin(power: int, maxSpeed: int)
    requires -100 <= power <= 100 && maxSpeed >= 0
    ensures -(maxSpeed as real) <= PowerToSpeed(power, maxSpeed) <= maxSpeed as real
  {
    var k := power as real / 100.0;
    var m := maxSpeed as real;
    assert (power * maxSpeed) as real == power as real * m;
    assert PowerToSpeed(power, maxSpeed) == Scale(m, k);
    ScaledWithin(m, k, m);
  }

  /** Every wheel speed of a power and direction within -100..100 lies within -max..max. */
  lemma WheelSpeedsWithin(power: int, d: int, maxSpeed: int)
    requires -100 <= power <= 100 && -100 <= d <= 100 && maxSpeed >= 0
    ensures -maxSpeed <= LeftSpeed(PowerToSpeed(power, maxSpeed), d) <= maxSpeed
    ensures -maxSpeed <= RightSpeed(PowerToSpeed(power, maxSpeed), d) <= maxSpeed
  {
    var f := PowerToSpeed(power, maxSpeed);
    var m := maxSpeed as real;
    PowerToSpeedWithin(power, maxSpeed);
    WheelSpeeds(f, d);
    if d < 0 {
      ScaledWithin(f, InnerFactor(d), m);
    }
    if d > 0 {
      ScaledWithin(f, InnerFactor(-d), m);
    }
    RoundBetween(f, -maxSpeed, maxSpeed);
    if d < 0 {
      RoundBetween(Scale(f, InnerFactor(d)), -maxSpeed, maxSpeed);
    }
    if d > 0 {
      RoundBetween(Scale(f, InnerFactor(-d)), -maxSpeed, maxSpeed);
    }
  }

  /** `forward_by`'s speed: power_to_speed(power).round. */
  function ForwardSpeed(power: int, maxSpeed: int): int {
    Round(PowerToSpeed(power, maxSpeed))
  }

  /** `distance_per_count`: Rational(distance_per_rotation, counts_per_rotation); a zero count divides by zero. */
  function DistancePerCount(distancePerRotation: int, countsPerRotation: int): real
    requires countsPerRotation != 0
  {
    distancePerRotation as real / countsPerRotation as real
  }

  /** `(distance / distance_per_count).round`. */
  function Counts(distance: int, distancePerCount: real): int
    requires distancePerCount != 0.0
  {
    Round(distance as real / distancePerCount)
  }

  /** The counts are distance * counts_per_rotation / distance_per_rotation, rounded once. */
  lemma CountsClosedForm(distance: int, dpr: int, cpr: int)
    requires dpr != 0 && cpr != 0
    ensures DistancePerCount(dpr, cpr) != 0.0
    ensures Counts(distance, DistancePerCount(dpr, cpr)) == Round((distance * cpr) as real / dpr as real)
  {
    var a, p, c := distance as real, dpr as real, cpr as real;
    assert (distance * cpr) as real == a * c;
    QuotientOfQuotient(a, p, c);
  }

  lemma QuotientOfQuotient(a: real, p: real, c: real)
    requires p != 0.0 && c != 0.0
    ensures p / c != 0.0
    ensures a / (p / c) == (a * c) / p
  {
    var q := p / c;
    assert q * c == p;
    var x := (a * c) / p;
    assert x * p == a * c;
    assert x * q * c == a * c;
    assert x * q == a;
  }

  /** Dividing a number by a quotient of it gives back the divisor: p / (p / c) == c. */
  lemma QuotientInverse(p: real, c: real)
    requires p != 0.0 && c != 0.0
    ensures p / c != 0.0
    ensures p / (p / c) == c
  {
    var q := p / c;
    assert q * c == p;
    assert q != 0.0;
    var x := p / q;
    assert x * q == p;
    assert (x - c) * q == 0.0;
  }

  /** One full rotation's distance drives exactly one rotation's counts. */
  lemma CountsOfOneRotation(dpr: int, cpr: int)
    requires dpr != 0 && cpr != 0
    ensures DistancePerCount(dpr, cpr) != 0.0
    ensures Counts(dpr, DistancePerCount(dpr, cpr)) == cpr
  {
    QuotientInverse(dpr as real, cpr as real);
    RoundOfInteger(cpr);
  }

  /** A robot with 176 mm per rotation, max speed 1000 and 360 counts: forward_by(176, 50) sets speed 500 and runs 360 counts. */
  lemma ForwardByExample()
    ensures ForwardSpeed(50, 1000) == 500
    ensures DistancePerCount(176, 360) != 0.0 && Counts(176, DistancePerCount(176, 360)) == 360
  {
    assert PowerToSpeed(50, 1000) == 500.0;
    RoundOfInteger(500);
    CountsOfOneRotation(176, 360);
  }
}
