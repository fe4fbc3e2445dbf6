/**
 * What Ev3::MovementController's operations do to the two motors, as effects:
 * the requests `go`, `forward_by` and `stop` make, in order, and the
 * gyro-polled state machine of `turn_by` over a finite sequence of gyro
 * readings.
 */
module Drives {
  import opened Wrappers
  import opened Text
  import opened Numbers
  import opened Sysfs
  import opened Devices
  import opened Motors
  import opened Sensors
  import opened Kinematics

  /** The two motors as their validations see them, and the controller's max speed. */
  datatype Rig = Rig(left: MotorView, right: MotorView, maxSpeed: int)

  /** The controller's max speed is the smaller of the two motors' max speeds. */
  predicate RigValid(rig: Rig) {
    rig.maxSpeed == Min(rig.left.maxSpeed, rig.right.maxSpeed)
  }

  /** DIRECTION_RANGE and POWER_RANGE. */
  predicate InRange(x: int) { -100 <= x <= 100 }

  /** `stop`: `stop!` on the left motor, then on the right one. */
  function StopRequests(rig: Rig): seq<Req> {
    [Req(rig.left, WriteCommand("stop")), Req(rig.right, WriteCommand("stop"))]
  }

  function StopEffect(rig: Rig): Effect {
    Perform(StopRequests(rig))
  }

  /** The wheel speeds `go(power, direction)` sets. */
  function LeftSpeedFor(rig: Rig, power: int, direction: int): int {
    LeftSpeed(PowerToSpeed(power, rig.maxSpeed), direction)
  }

  function RightSpeedFor(rig: Rig, power: int, direction: int): int {
    RightSpeed(PowerToSpeed(power, rig.maxSpeed), direction)
  }

  /** The speed setpoints `go` writes: left, then right. */
  function SpeedRequests(rig: Rig, power: int, direction: int): seq<Req> {
    [Req(rig.left, WriteSpeedSp(LeftSpeedFor(rig, power, direction))),
     Req(rig.right, WriteSpeedSp(RightSpeedFor(rig, power, direction)))]
  }

  /** The run commands `go` sends: `run_for!(duration)` on both motors when a duration is given, `run!` on both otherwise. */
  function RunCommandRequests(rig: Rig, duration: Option<int>): seq<Req> {
    if duration.Some? then
      SetThenCommand(rig.left, WriteTimeSp(duration.value), "run-timed") + SetThenCommand(rig.right, WriteTimeSp(duration.value), "run-timed")
    else
      RunRequests(rig.left, None) + RunRequests(rig.right, None)
  }

  /** `go(power, direction, duration:)`. */
  function GoEffect(rig: Rig, power: int, direction: int, duration: Option<int>): Effect {
    if !InRange(power) || !InRange(direction) then Effect([], Fail(ArgumentError))
    else if power == 0 then StopEffect(rig)
    else Perform(SpeedRequests(rig, power, direction) + RunCommandRequests(rig, duration))
  }

  /** `go` with a power or direction outside -100..100 raises an ArgumentError before any write. */
  lemma GoOutOfRange(rig: Rig, power: int, direction: int, duration: Option<int>)
    requires !InRange(power) || !InRange(direction)
    ensures GoEffect(rig, power, direction, duration) == Effect([], Fail(ArgumentError))
  {
  }

  /** `go(0, d)` is exactly `stop`. */
  lemma GoZeroIsStop(rig: Rig, direction: int, duration: Option<int>)
    requires InRange(direction)
    ensures GoEffect(rig, 0, direction, duration) == StopEffect(rig)
  {
  }

  /**
   * With the max speed the smaller of the motors', every speed `go` computes
   * is accepted: `go` writes both speed setpoints, left then right, before any
   * run command, and then performs the run commands.
   */
  lemma GoWritesSpeedsFirst(rig: Rig, power: int, direction: int, duration: Option<int>)
    requires RigValid(rig) && rig.maxSpeed >= 0
    requires InRange(power) && InRange(direction) && power != 0
    ensures var e := GoEffect(rig, power, direction, duration);
      && e.writes == [Write(Path(rig.left.node, "speed_sp"), IntToString(LeftSpeedFor(rig, power, direction))),
                      Write(Path(rig.right.node, "speed_sp"), IntToString(RightSpeedFor(rig, power, direction)))]
                     + Perform(RunCommandRequests(rig, duration)).writes
      && e.outcome == Perform(RunCommandRequests(rig, duration)).outcome
  {
    WheelSpeedsWithin(power, direction, rig.maxSpeed);
    TwoSpeeds(rig.left, rig.right, LeftSpeedFor(rig, power, direction), RightSpeedFor(rig, power, direction));
    PerformAppend(SpeedRequests(rig, power, direction), RunCommandRequests(rig, duration));
  }

  lemma TwoSpeeds(lv: MotorView, rv: MotorView, l: int, r: int)
    requires -lv.maxSpeed <= l <= lv.maxSpeed && -rv.maxSpeed <= r <= rv.maxSpeed
    ensures Perform([Req(lv, WriteSpeedSp(l)), Req(rv, WriteSpeedSp(r))]) ==
      Effect([Write(Path(lv.node, "speed_sp"), IntToString(l)), Write(Path(rv.node, "speed_sp"), IntToString(r))], Pass)
  {
    PerformTwo(Req(lv, WriteSpeedSp(l)), Req(rv, WriteSpeedSp(r)));
    SpeedSetpointAccepts(lv, l);
    SpeedSetpointAccepts(rv, r);
  }

  /** Performing a concatenation performs the first part and then, if it passed, the second. */
  lemma PerformThen(a: seq<Req>, b: seq<Req>)
    ensures Perform(a + b) == Then(Perform(a), Perform(b))
  {
    PerformAppend(a, b);
  }

  /** Without a duration, `go` runs `run-forever` on the left motor, then the right one. */
  lemma GoRunsForever(rig: Rig)
    requires rig.left.commands.Success? && "run-forever" in rig.left.commands.value
    requires rig.right.commands.Success? && "run-forever" in rig.right.commands.value
    ensures Perform(RunCommandRequests(rig, None)) ==
      Effect([Write(Path(rig.left.node, "command"), "run-forever"), Write(Path(rig.right.node, "command"), "run-forever")], Pass)
  {
    var a, b := Req(rig.left, WriteCommand("run-forever")), Req(rig.right, WriteCommand("run-forever"));
    assert RunCommandRequests(rig, None) == [a, b];
    PerformTwo(a, b);
    PerformOne(a.motor, a.op);
    PerformOne(b.motor, b.op);
  }

  /** `stop` writes `stop` to the left motor, then the right one; a motor without the command raises, after the left motor's write if it is the right one. */
  lemma StopWrites(rig: Rig)
    ensures rig.left.commands.Success? && "stop" in rig.left.commands.value &&
            rig.right.commands.Success? && "stop" in rig.right.commands.value ==>
      StopEffect(rig) == Effect([Write(Path(rig.left.node, "command"), "stop"), Write(Path(rig.right.node, "command"), "stop")], Pass)
    ensures Check(rig.left, WriteCommand("stop")).Fail? ==> StopEffect(rig) == Effect([], Check(rig.left, WriteCommand("stop")))
    ensures Check(rig.left, WriteCommand("stop")).Pass? && Check(rig.right, WriteCommand("stop")).Fail? ==>
      StopEffect(rig) == Effect([Write(Path(rig.left.node, "command"), "stop")], Check(rig.right, WriteCommand("stop")))
  {
    var a, b := Req(rig.left, WriteCommand("stop")), Req(rig.right, WriteCommand("stop"));
    PerformTwo(a, b);
    PerformOne(a.motor, a.op);
    PerformOne(b.motor, b.op);
  }

  // ---------------------------------------------------------------------------
  // forward_by

  /** `forward_by(distance, power)`'s speed setpoints: right, then left (the chained assignment evaluates right to left). */
  function ForwardSpeedRequests(rig: Rig, power: int): seq<Req> {
    [Req(rig.right, WriteSpeedSp(ForwardSpeed(power, rig.maxSpeed))), Req(rig.left, WriteSpeedSp(ForwardSpeed(power, rig.maxSpeed)))]
  }

  /** `run_by!(counts)` on the left motor, then the right one. */
  function RunByRequests(rig: Rig, counts: int): seq<Req> {
    SetThenCommand(rig.left, WritePositionSp(counts), "run-to-rel-pos") + SetThenCommand(rig.right, WritePositionSp(counts), "run-to-rel-pos")
  }

  /** `distance_per_count`: remembered, or Rational(distance_per_rotation, counts_per_rotation). */
  function DistancePerCountFor(distancePerRotation: int, countsPerRotation: int, cache: Option<real>): (r: Result<real>)
    ensures cache.Some? ==> r == Success(cache.value)
    ensures cache.None? ==> (r.Failure? <==> countsPerRotation == 0)
    ensures cache.None? && r.Success? ==> r.value * countsPerRotation as real == distancePerRotation as real
    ensures r.Failure? ==> r.error == ZeroDivisionError
  {
    if cache.Some? then Success(cache.value)
    else if countsPerRotation == 0 then Failure(ZeroDivisionError)
    else Success(DistancePerCount(distancePerRotation, countsPerRotation))
  }

  /** The part of `forward_by` after the speed setpoints: the counts, and `run_by!` on both motors. */
  function RunByEffect(rig: Rig, distancePerCount: Result<real>, distance: int): Effect {
    match distancePerCount
    case Failure(err) => Effect([], Fail(err))
    case Success(q) =>
      if q == 0.0 then Effect([], Fail(ZeroDivisionError))
      else Perform(RunByRequests(rig, Counts(distance, q)))
  }

  /**
   * `forward_by(distance, power)` with the given distance per rotation, the
   * controller's counts per rotation and the remembered distance per count.
   */
  function ForwardEffect(rig: Rig, distancePerRotation: Option<int>, countsPerRotation: int, cache: Option<real>,
                         distance: int, power: int): Effect {
    if distancePerRotation.None? then Effect([], Fail(ArgumentError))
    else if power == 0 then StopEffect(rig)
    else
      Then(Perform(ForwardSpeedRequests(rig, power)),
           RunByEffect(rig, DistancePerCountFor(distancePerRotation.value, countsPerRotation, cache), distance))
  }

  /** `forward_by` raises before any write without a distance per rotation, and is `stop` for power 0. */
  lemma ForwardGuards(rig: Rig, cpr: int, cache: Option<real>, distance: int, dpr: int, power: int)
    ensures ForwardEffect(rig, None, cpr, cache, distance, power) == Effect([], Fail(ArgumentError))
    ensures ForwardEffect(rig, Some(dpr), cpr, cache, distance, 0) == StopEffect(rig)
  {
  }

  /** A power of 150 or more asks for a speed above the controller's max speed. */
  lemma ForwardSpeedPastMax(power: int, m: int)
    requires m > 0 && power >= 150
    ensures ForwardSpeed(power, m) > m
  {
    var x := PowerToSpeed(power, m);
    assert (power * m) as real >= (150 * m) as real by {
      assert power * m - 150 * m == (power - 150) * m;
    }
    assert x >= m as real + 0.5;
  }

  /**
   * `forward_by` does not range-check the power: a power of 150 or more asks
   * the right motor, whose max speed is the controller's, for more than its
   * max speed, and its validation raises before any write.
   */
  lemma ForwardPowerUnchecked(rig: Rig, dpr: int, cpr: int, cache: Option<real>, distance: int, power: int)
    requires rig.maxSpeed == rig.right.maxSpeed && rig.maxSpeed > 0 && power >= 150
    ensures ForwardEffect(rig, Some(dpr), cpr, cache, distance, power) == Effect([], Fail(ArgumentError))
  {
    ForwardSpeedPastMax(power, rig.maxSpeed);
    var reqs := ForwardSpeedRequests(rig, power);
    assert Check(reqs[0].motor, reqs[0].op) == Fail(ArgumentError);
    assert reqs[..0] == [];
    PerformFirstFailure(reqs, 0);
  }

  /**
   * When the left motor is the slower one and sets the controller's max
   * speed, a power of 150 or more can still be within the right motor's max
   * speed: the right speed setpoint is written, and the left motor's
   * validation raises after it.
   */
  lemma ForwardPowerPastLeft(rig: Rig, dpr: int, cpr: int, cache: Option<real>, distance: int, power: int)
    requires rig.maxSpeed == rig.left.maxSpeed && rig.maxSpeed > 0 && power >= 150
    requires ForwardSpeed(power, rig.maxSpeed) <= rig.right.maxSpeed
    ensures ForwardEffect(rig, Some(dpr), cpr, cache, distance, power) ==
      Effect([Write(Path(rig.right.node, "speed_sp"), IntToString(ForwardSpeed(power, rig.maxSpeed)))], Fail(ArgumentError))
  {
    var speed := ForwardSpeed(power, rig.maxSpeed);
    ForwardSpeedPastMax(power, rig.maxSpeed);
    PerformTwo(Req(rig.right, WriteSpeedSp(speed)), Req(rig.left, WriteSpeedSp(speed)));
    SpeedSetpointAccepts(rig.right, speed);
    SpeedSetpointAccepts(rig.left, speed);
  }

  /**
   * A `forward_by` whose validations all pass writes both speeds, then runs
   * both motors by the same counts, left then right; with nothing
   * remembered the counts are distance * counts_per_rotation /
   * distance_per_rotation, rounded once.
   */
  lemma ForwardWrites(rig: Rig, dpr: int, cpr: int, distance: int, power: int)
    requires dpr != 0 && cpr != 0 && power != 0
    requires AllPass(ForwardSpeedRequests(rig, power) + RunByRequests(rig, Round((distance * cpr) as real / dpr as real)))
    ensures ForwardEffect(rig, Some(dpr), cpr, None, distance, power) ==
      Effect(WritesOf(ForwardSpeedRequests(rig, power) + RunByRequests(rig, Round((distance * cpr) as real / dpr as real))), Pass)
  {
    CountsClosedForm(distance, dpr, cpr);
    var a, b := ForwardSpeedRequests(rig, power), RunByRequests(rig, Round((distance * cpr) as real / dpr as real));
    assert AllPass(a) by {
      forall i | 0 <= i < |a| ensures Check(a[i].motor, a[i].op) == Pass { assert (a + b)[i] == a[i]; }
    }
    assert AllPass(b) by {
      forall i | 0 <= i < |b| ensures Check(b[i].motor, b[i].op) == Pass { assert (a + b)[|a| + i] == b[i]; }
    }
    PerformAllPass(a);
    PerformAllPass(b);
    PerformAllPass(a + b);
    PerformAppend(a, b);
  }

  /** Without a count per rotation, or with a zero distance per rotation, `forward_by` divides by zero, but only after both speed setpoints were written. */
  lemma ForwardDividesByZeroAfterSpeeds(rig: Rig, dpr: int, cpr: int, distance: int, power: int)
    requires power != 0 && AllPass(ForwardSpeedRequests(rig, power))
    requires cpr == 0 || dpr == 0
    ensures ForwardEffect(rig, Some(dpr), cpr, None, distance, power) ==
      Effect(WritesOf(ForwardSpeedRequests(rig, power)), Fail(ZeroDivisionError))
  {
    PerformAllPass(ForwardSpeedRequests(rig, power));
    if cpr != 0 {
      assert DistancePerCount(dpr, cpr) == 0.0;
    }
  }

  // ---------------------------------------------------------------------------
  // turn_by

  datatype TurnOutcome = Turned | Raised(error: Error) | Unfinished

  /** The writes a turn made, and how it ended (`Unfinished`: the readings ran out first). */
  datatype TurnRun = TurnRun(writes: seq<Write>, outcome: TurnOutcome)

  /** Where the turn is: the wait loop, the approach loop, the re-check after it, or the correction loop. */
  datatype Phase = Waiting | Approaching | Checking | Correcting

  /**
   * What stays fixed during a turn: the gyro angles the successive
   * `gyro.value(0)` calls see, the target, and the effects of the three
   * motor commands a turn can give after its start (creep, correct, stop).
   */
  datatype TurnCtx = TurnCtx(rig: Rig, power: int, direction: int, target: real, antiClockwise: bool, angles: seq<real>,
                             creep: Effect, correction: Effect, stop: Effect)

  /** `remaining_angle_distance_for(target_angle, anti_clockwise)` at reading i. */
  function Remaining(ctx: TurnCtx, i: int): real
    requires 0 <= i < |ctx.angles|
  {
    if ctx.antiClockwise then ctx.angles[i] - ctx.target else ctx.target - ctx.angles[i]
  }

  /** The condition of the wait loop at reading i. */
  predicate KeepWaiting(ctx: TurnCtx, i: int)
    requires 0 <= i < |ctx.angles|
  {
    if ctx.direction < 0 then ctx.target <= ctx.angles[i] else ctx.target >= ctx.angles[i]
  }

  function Prepend(ws: seq<Write>, run: TurnRun): TurnRun {
    TurnRun(ws + run.writes, run.outcome)
  }

  /** An effect, then the rest of the turn unless it raised. */
  function Continue(e: Effect, rest: TurnRun): TurnRun {
    if e.outcome.Fail? then TurnRun(e.writes, Raised(e.outcome.error)) else Prepend(e.writes, rest)
  }

  /** An effect that ends the turn. */
  function Finish(e: Effect): TurnRun {
    if e.outcome.Fail? then TurnRun(e.writes, Raised(e.outcome.error)) else TurnRun(e.writes, Turned)
  }

  /** The power `turn_by` creeps with near the target: 1 in the direction of travel. */
  function CreepPower(power: int): int { if power < 0 then -1 else 1 }

  /** The power of the correction after an overshoot: 1 against the direction of travel. */
  function CorrectionPower(power: int): int { if power < 0 then 1 else -1 }

  /** The turn from reading i on, in the given phase; every step consumes one reading. */
  function Turn(ctx: TurnCtx, phase: Phase, i: nat): TurnRun
    decreases |ctx.angles| - i
  {
    if i >= |ctx.angles| then TurnRun([], Unfinished)
    else match phase
      case Waiting =>
        if KeepWaiting(ctx, i) then Turn(ctx, Waiting, i + 1) else Turn(ctx, Approaching, i + 1)
      case Approaching =>
        var rem := Remaining(ctx, i);
        if rem <= 5.0 && rem > 0.0 then
          Continue(ctx.creep, Turn(ctx, Approaching, i + 1))
        else if rem <= 0.0 then
          Continue(ctx.stop, Turn(ctx, Checking, i + 1))
        else Turn(ctx, Approaching, i + 1)
      case Checking =>
        if Remaining(ctx, i) < 0.0 then
          Continue(ctx.correction, Turn(ctx, Correcting, i + 1))
        else TurnRun([], Turned)
      case Correcting =>
        if Remaining(ctx, i) >= 0.0 then Finish(ctx.stop) else Turn(ctx, Correcting, i + 1)
  }

  /** A turn whose readings ran out is unfinished, in every phase. */
  lemma TurnOutOfReadings(ctx: TurnCtx, phase: Phase, i: nat)
    requires i >= |ctx.angles|
    ensures Turn(ctx, phase, i) == TurnRun([], Unfinished)
  {
  }

  /** One step of the wait loop. */
  lemma WaitStep(ctx: TurnCtx, i: nat)
    requires i < |ctx.angles|
    ensures Turn(ctx, Waiting, i) == if KeepWaiting(ctx, i) then Turn(ctx, Waiting, i + 1) else Turn(ctx, Approaching, i + 1)
  {
  }

  /** One step of the approach loop. */
  lemma ApproachStep(ctx: TurnCtx, i: nat)
    requires i < |ctx.angles|
    ensures Turn(ctx, Approaching, i) ==
      if Remaining(ctx, i) <= 5.0 && Remaining(ctx, i) > 0.0 then Continue(ctx.creep, Turn(ctx, Approaching, i + 1))
      else if Remaining(ctx, i) <= 0.0 then Continue(ctx.stop, Turn(ctx, Checking, i + 1))
      else Turn(ctx, Approaching, i + 1)
  {
  }

  /** The re-check after the approach loop. */
  lemma CheckStep(ctx: TurnCtx, i: nat)
    requires i < |ctx.angles|
    ensures Turn(ctx, Checking, i) ==
      if Remaining(ctx, i) < 0.0 then Continue(ctx.correction, Turn(ctx, Correcting, i + 1)) else TurnRun([], Turned)
  {
  }

  /**
   * What a turn consults of the gyro sensor: its directory, its modes, and the
   * number of values and decimals the driver publishes in GYRO-ANG mode.
   */
  datatype GyroView = GyroView(node: string, modes: Result<seq<string>>, numValues: int, decimals: int)

  /** The guards of `turn_by`: a zero direction, a missing gyro, or angle and direction of different signs. */
  predicate TurnArgumentsValid(hasGyro: bool, angle: int, direction: int) {
    direction != 0 && hasGyro && ((angle < 0 && direction < 0) || (angle > 0 && direction > 0))
  }

  /** The target angle: the second assignment, keyed on the power's sign, is the one that holds. */
  function TargetAngle(initial: real, angle: int, power: int): real {
    if power < 0 then initial - angle as real else initial + angle as real
  }

  /** The angles the successive `gyro.value(0)` calls return for the given raw readings. */
  function Angles(readings: seq<int>, decimals: int): (angles: seq<real>)
    ensures |angles| == |readings|
    ensures forall j :: 0 <= j < |readings| ==> angles[j] == AsReal(Scaled(readings[j], decimals))
  {
    seq(|readings|, j requires 0 <= j < |readings| => AsReal(Scaled(readings[j], decimals)))
  }

  /** What a turn fixes after its first reading: the target angle and the sense of the remaining distance. */
  function TurnContext(rig: Rig, decimals: int, angle: int, power: int, direction: int, readings: seq<int>): (ctx: TurnCtx)
    requires readings != []
    ensures ctx.angles == Angles(readings, decimals)
    ensures ctx.target == TargetAngle(AsReal(Scaled(readings[0], decimals)), angle, power)
    ensures ctx.antiClockwise <==> direction < 0 || power < 0
    ensures ctx.creep == GoEffect(rig, CreepPower(power), direction, None)
    ensures ctx.correction == GoEffect(rig, CorrectionPower(power), direction, None)
    ensures ctx.stop == StopEffect(rig)
  {
    var angles := Angles(readings, decimals);
    TurnCtx(rig, power, direction, TargetAngle(angles[0], angle, power), direction < 0 || power < 0, angles,
            GoEffect(rig, CreepPower(power), direction, None), GoEffect(rig, CorrectionPower(power), direction, None), StopEffect(rig))
  }

  /** `turn_by(angle, power, direction)` for the given gyro readings (raw values of `value0`, one per read). */
  function TurnSpec(rig: Rig, gyro: Option<GyroView>, angle: int, power: int, direction: int, readings: seq<int>): TurnRun {
    if !TurnArgumentsValid(gyro.Some?, angle, direction) then TurnRun([], Raised(ArgumentError))
    else
      var g := gyro.value;
      match MemberCheck(g.modes, "GYRO-ANG")
      case Fail(err) => TurnRun([], Raised(err))
      case Pass =>
        Prepend([Write(Path(g.node, "mode"), "GYRO-ANG")],
          if 0 >= g.numValues then TurnRun([], Raised(ArgumentError))
          else if readings == [] then TurnRun([], Unfinished)
          else Continue(GoEffect(rig, power, direction, None), Turn(TurnContext(rig, g.decimals, angle, power, direction, readings), Waiting, 1)))
  }

  /** `turn_by` raises an ArgumentError before writing the gyro mode when its arguments are invalid. */
  lemma TurnGuards(rig: Rig, gyro: Option<GyroView>, angle: int, power: int, direction: int, readings: seq<int>)
    requires !TurnArgumentsValid(gyro.Some?, angle, direction)
    ensures TurnSpec(rig, gyro, angle, power, direction, readings) == TurnRun([], Raised(ArgumentError))
  {
  }

  function EndsWith(ws: seq<Write>, tail: seq<Write>): bool {
    |tail| <= |ws| && ws[|ws| - |tail|..] == tail
  }

  lemma EndsWithAppend(a: seq<Write>, ws: seq<Write>, tail: seq<Write>)
    requires EndsWith(ws, tail)
    ensures EndsWith(a + ws, tail)
  {
    assert (a + ws)[|a + ws| - |tail|..] == ws[|ws| - |tail|..];
  }

  /**
   * Once the motors are running, a turn only ends as `Turned` by a `stop`:
   * from the wait, approach or correction loop, every completed turn's writes
   * end with the stop writes of both motors.
   */
  lemma {:induction false} TurnedEndsWithStop(ctx: TurnCtx, phase: Phase, i: nat)
    requires phase != Checking
    requires Turn(ctx, phase, i).outcome == Turned
    ensures ctx.stop.outcome == Pass
    ensures EndsWith(Turn(ctx, phase, i).writes, ctx.stop.writes)
    decreases |ctx.angles| - i, if phase == Waiting then 1 else 0
  {
    var run := Turn(ctx, phase, i);
    var stop := ctx.stop;
    match phase
    case Waiting =>
      if KeepWaiting(ctx, i) { TurnedEndsWithStop(ctx, Waiting, i + 1); } else { TurnedEndsWithStop(ctx, Approaching, i + 1); }
    case Approaching =>
      var rem := Remaining(ctx, i);
      if rem <= 5.0 && rem > 0.0 {
        var go := ctx.creep;
        TurnedEndsWithStop(ctx, Approaching, i + 1);
        EndsWithAppend(go.writes, Turn(ctx, Approaching, i + 1).writes, stop.writes);
      } else if rem <= 0.0 {
        var checked := Turn(ctx, Checking, i + 1);
        if i + 1 >= |ctx.angles| {
          assert false;
        } else if Remaining(ctx, i + 1) < 0.0 {
          var go := ctx.correction;
          TurnedEndsWithStop(ctx, Correcting, i + 2);
          EndsWithAppend(go.writes, Turn(ctx, Correcting, i + 2).writes, stop.writes);
          EndsWithAppend(stop.writes, checked.writes, stop.writes);
        } else {
          assert run.writes == stop.writes + [];
        }
      } else {
        TurnedEndsWithStop(ctx, Approaching, i + 1);
      }
    case Correcting =>
      if Remaining(ctx, i) >= 0.0 {
        assert run.writes == stop.writes;
      } else {
        TurnedEndsWithStop(ctx, Correcting, i + 1);
      }
  }

  /** The correction pass runs only after an overshoot: a non-negative re-read remaining distance ends the turn with no further write. */
  lemma NoCorrectionWithoutOvershoot(ctx: TurnCtx, i: nat)
    requires i < |ctx.angles| && Remaining(ctx, i) >= 0.0
    ensures Turn(ctx, Checking, i) == TurnRun([], Turned)
  {
  }

  /** The correction loop stops the motors as soon as the remaining distance is no longer negative, and not before. */
  lemma CorrectionStops(ctx: TurnCtx, i: nat)
    requires i < |ctx.angles|
    ensures Remaining(ctx, i) >= 0.0 ==> Turn(ctx, Correcting, i) == Finish(ctx.stop)
    ensures Remaining(ctx, i) < 0.0 ==> Turn(ctx, Correcting, i) == Turn(ctx, Correcting, i + 1)
  {
  }

  /**
   * A backward turn to the left (negative power, direction and angle) sets
   * the target beyond the start on the far side and counts the remaining
   * distance anticlockwise, so with a gyro that has not moved the wait loop
   * ends at its first reading and the motors are stopped at the next one.
   */
  lemma BackwardLeftStopsAtOnce(rig: Rig, g: GyroView, angle: int, power: int, direction: int, raw: int)
    requires angle < 0 && power < 0 && direction < 0
    requires g.modes.Success? && "GYRO-ANG" in g.modes.value && g.numValues > 0
    requires GoEffect(rig, power, direction, None).outcome == Pass && StopEffect(rig).outcome == Pass
    ensures TurnSpec(rig, Some(g), angle, power, direction, [raw, raw, raw]) ==
      TurnRun([Write(Path(g.node, "mode"), "GYRO-ANG")] + GoEffect(rig, power, direction, None).writes + StopEffect(rig).writes, Unfinished)
  {
    var readings := [raw, raw, raw];
    var ctx := TurnContext(rig, g.decimals, angle, power, direction, readings);
    var angles := ctx.angles;
    assert angles[1] == angles[0] && angles[2] == angles[0];
    assert !KeepWaiting(ctx, 1);
    assert Remaining(ctx, 2) == angle as real;
    assert Turn(ctx, Checking, 3) == TurnRun([], Unfinished);
    assert Turn(ctx, Approaching, 2) == Prepend(StopEffect(rig).writes, TurnRun([], Unfinished));
  }

  /**
   * A forward right turn that overshoots: the wait loop ends past the target,
   * the approach loop stops at once, and one correction at power -1 brings
   * the robot back, ended by a second stop.
   */
  lemma RightTurnWithCorrection(rig: Rig, g: GyroView, power: int, direction: int)
    requires power > 0 && direction > 0
    requires g.modes.Success? && "GYRO-ANG" in g.modes.value && g.numValues > 0 && g.decimals == 0
    requires GoEffect(rig, power, direction, None).outcome == Pass && StopEffect(rig).outcome == Pass
    requires GoEffect(rig, -1, direction, None).outcome == Pass
    ensures TurnSpec(rig, Some(g), 90, power, direction, [0, 0, 95, 91, 91, 89]) ==
      TurnRun([Write(Path(g.node, "mode"), "GYRO-ANG")] + GoEffect(rig, power, direction, None).writes + StopEffect(rig).writes
              + GoEffect(rig, -1, direction, None).writes + StopEffect(rig).writes, Turned)
  {
    var readings := [0, 0, 95, 91, 91, 89];
    var ctx := TurnContext(rig, g.decimals, 90, power, direction, readings);
    TurnSpecStarted(rig, g, 90, power, direction, readings);
    ExampleContext(rig, power, direction);
    OvershootCorrected(ctx);
    var go, stop, back := GoEffect(rig, power, direction, None), StopEffect(rig), GoEffect(rig, -1, direction, None);
    AssembleRun([Write(Path(g.node, "mode"), "GYRO-ANG")], go, stop.writes, back.writes);
  }

  /** The context of the example turn: the readings scaled, the target at 90, clockwise, correcting at power -1. */
  lemma ExampleContext(rig: Rig, power: int, direction: int)
    requires power > 0 && direction > 0
    ensures var ctx := TurnContext(rig, 0, 90, power, direction, [0, 0, 95, 91, 91, 89]);
      && ctx.angles == [0.0, 0.0, 95.0, 91.0, 91.0, 89.0] && ctx.target == 90.0 && !ctx.antiClockwise
      && ctx.direction == direction && ctx.stop == StopEffect(rig) && ctx.correction == GoEffect(rig, -1, direction, None)
  {
    ExampleAngles();
  }

  /** The writes of a turn that goes, then runs the rest: the mode write, the go, then the rest, in order. */
  lemma AssembleRun(mode: seq<Write>, go: Effect, stop: seq<Write>, back: seq<Write>)
    requires go.outcome == Pass
    ensures Prepend(mode, Continue(go, TurnRun(stop + (back + stop), Turned))) ==
      TurnRun(mode + go.writes + stop + back + stop, Turned)
  {
    assert mode + (go.writes + (stop + (back + stop))) == mode + go.writes + stop + back + stop;
  }

  lemma ExampleAngles()
    ensures Angles([0, 0, 95, 91, 91, 89], 0) == [0.0, 0.0, 95.0, 91.0, 91.0, 89.0]
  {
  }

  /** With valid arguments, a gyro in GYRO-ANG mode and a first reading, the turn starts by going and then waits. */
  lemma TurnSpecStarted(rig: Rig, g: GyroView, angle: int, power: int, direction: int, readings: seq<int>)
    requires TurnArgumentsValid(true, angle, direction)
    requires g.modes.Success? && "GYRO-ANG" in g.modes.value && g.numValues > 0 && readings != []
    ensures TurnSpec(rig, Some(g), angle, power, direction, readings) ==
      Prepend([Write(Path(g.node, "mode"), "GYRO-ANG")],
              Continue(GoEffect(rig, power, direction, None), Turn(TurnContext(rig, g.decimals, angle, power, direction, readings), Waiting, 1)))
  {
  }

  /** The readings of the example turn, once scaled: one overshoot past 90 and one correction back. */
  lemma OvershootCorrected(ctx: TurnCtx)
    requires ctx.angles == [0.0, 0.0, 95.0, 91.0, 91.0, 89.0] && ctx.target == 90.0 && !ctx.antiClockwise && ctx.direction > 0
    requires ctx.stop.outcome == Pass && ctx.correction.outcome == Pass
    ensures Turn(ctx, Waiting, 1) == TurnRun(ctx.stop.writes + (ctx.correction.writes + ctx.stop.writes), Turned)
  {
    var stop, back := ctx.stop, ctx.correction;
    assert Turn(ctx, Waiting, 1) == Turn(ctx, Approaching, 3);
    assert Turn(ctx, Correcting, 5) == TurnRun(stop.writes, Turned);
    assert Turn(ctx, Checking, 4) == TurnRun(back.writes + stop.writes, Turned);
    assert Turn(ctx, Approaching, 3) == TurnRun(stop.writes + (back.writes + stop.writes), Turned);
  }

  lemma PrependPrepend(a: seq<Write>, b: seq<Write>, run: TurnRun)
    ensures Prepend(a, Prepend(b, run)) == Prepend(a + b, run)
  {
    assert a + (b + run.writes) == (a + b) + run.writes;
  }

  /**
   * `turn_by(angle, power, direction)` with its guards, its loops and their
   * exits. The motors are driven by the effects of `go` and `stop` on `rig`;
   * the successive `gyro.value(0)` reads return the scaled `readings`.
   */
  method TurnBy(rig: Rig, gyro: Option<GyroView>, angle: int, power: int, direction: int, readings: seq<int>)
    returns (run: TurnRun)
    ensures run == TurnSpec(rig, gyro, angle, power, direction, readings)
  {
    if direction == 0 {
      return TurnRun([], Raised(ArgumentError));
    }
    if gyro.None? {
      return TurnRun([], Raised(ArgumentError));
    }
    if !((angle < 0 && direction < 0) || (angle > 0 && direction > 0)) {
      return TurnRun([], Raised(ArgumentError));
    }
    var g := gyro.value;
    var mode := MemberCheck(g.modes, "GYRO-ANG");
    if mode.Fail? {
      return TurnRun([], Raised(mode.error));
    }
    var writes := [Write(Path(g.node, "mode"), "GYRO-ANG")];
    if 0 >= g.numValues {
      return TurnRun(writes, Raised(ArgumentError));
    }
    if readings == [] {
      return TurnRun(writes, Unfinished);
    }
    var initialAngle := AsReal(Scaled(readings[0], g.decimals));
    var targetAngle := if direction < 0 then initialAngle - angle as real else initialAngle + angle as real;
    targetAngle := if power < 0 then initialAngle - angle as real else initialAngle + angle as real;
    var antiClockwise := direction < 0 || power < 0;
    var ctx := TurnContext(rig, g.decimals, angle, power, direction, readings);
    assert ctx.target == targetAngle && ctx.antiClockwise == antiClockwise;
    ghost var spec := TurnSpec(rig, gyro, angle, power, direction, readings);
    var started := GoEffect(rig, power, direction, None);
    if started.outcome.Fail? {
      return TurnRun(writes + started.writes, Raised(started.outcome.error));
    }
    PrependPrepend(writes, started.writes, Turn(ctx, Waiting, 1));
    writes := writes + started.writes;
    assert spec == Prepend(writes, Turn(ctx, Waiting, 1));
    var i := 1;
    while true
      invariant 1 <= i <= |readings|
      invariant spec == Prepend(writes, Turn(ctx, Waiting, i))
      decreases |readings| - i
    {
      if i == |readings| {
        return TurnRun(writes, Unfinished);
      }
      var currentAngle := ctx.angles[i];
      WaitStep(ctx, i);
      i := i + 1;
      if !(if direction < 0 then targetAngle <= currentAngle else targetAngle >= currentAngle) {
        break;
      }
    }
    var rest := Approach(ctx, i);
    run := Prepend(writes, rest);
  }

  /** The approach loop: creep at power 1 while within 5 degrees of the target, stop once it is reached. */
  method Approach(ctx: TurnCtx, i0: nat) returns (run: TurnRun)
    requires i0 <= |ctx.angles|
    ensures run == Turn(ctx, Approaching, i0)
  {
    var writes: seq<Write> := [];
    var i := i0;
    assert Turn(ctx, Approaching, i0) == Prepend(writes, Turn(ctx, Approaching, i));
    while true
      invariant i0 <= i <= |ctx.angles|
      invariant Turn(ctx, Approaching, i0) == Prepend(writes, Turn(ctx, Approaching, i))
      decreases |ctx.angles| - i
    {
      if i == |ctx.angles| {
        return TurnRun(writes, Unfinished);
      }
      var remainingDistance := if ctx.antiClockwise then ctx.angles[i] - ctx.target else ctx.target - ctx.angles[i];
      ApproachStep(ctx, i);
      i := i + 1;
      if remainingDistance <= 5.0 && remainingDistance > 0.0 {
        if ctx.creep.outcome.Fail? {
          return TurnRun(writes + ctx.creep.writes, Raised(ctx.creep.outcome.error));
        }
        PrependPrepend(writes, ctx.creep.writes, Turn(ctx, Approaching, i));
        writes := writes + ctx.creep.writes;
      } else if remainingDistance <= 0.0 {
        if ctx.stop.outcome.Fail? {
          return TurnRun(writes + ctx.stop.writes, Raised(ctx.stop.outcome.error));
        }
        PrependPrepend(writes, ctx.stop.writes, Turn(ctx, Checking, i));
        writes := writes + ctx.stop.writes;
        break;
      }
    }
    var rest := Recheck(ctx, i);
    run := Prepend(writes, rest);
  }

  /** After the approach: an overshoot starts the correction at power 1 the other way; otherwise the turn is done. */
  method Recheck(ctx: TurnCtx, i0: nat) returns (run: TurnRun)
    requires i0 <= |ctx.angles|
    ensures run == Turn(ctx, Checking, i0)
  {
    if i0 == |ctx.angles| {
      return TurnRun([], Unfinished);
    }
    var remaining := if ctx.antiClockwise then ctx.angles[i0] - ctx.target else ctx.target - ctx.angles[i0];
    CheckStep(ctx, i0);
    if remaining < 0.0 {
      if ctx.correction.outcome.Fail? {
        return TurnRun(ctx.correction.writes, Raised(ctx.correction.outcome.error));
      }
      var rest := Correct(ctx, i0 + 1);
      run := Prepend(ctx.correction.writes, rest);
    } else {
      run := TurnRun([], Turned);
    }
  }

  /** The correction loop: stop as soon as the target is reached again. */
  method Correct(ctx: TurnCtx, i0: nat) returns (run: TurnRun)
    requires i0 <= |ctx.angles|
    ensures run == Turn(ctx, Correcting, i0)
  {
    var i := i0;
    while true
      invariant i0 <= i <= |ctx.angles|
      invariant Turn(ctx, Correcting, i0) == Turn(ctx, Correcting, i)
      decreases |ctx.angles| - i
    {
      if i == |ctx.angles| {
        return TurnRun([], Unfinished);
      }
      var remaining := if ctx.antiClockwise then ctx.angles[i] - ctx.target else ctx.target - ctx.angles[i];
      CorrectionStops(ctx, i);
      i := i + 1;
      if remaining >= 0.0 {
        if ctx.stop.outcome.Fail? {
          return TurnRun(ctx.stop.writes, Raised(ctx.stop.outcome.error));
        }
        return TurnRun(ctx.stop.writes, Turned);
      }
    }
  }

  // ---------------------------------------------------------------------------
  // wait_for_stop

  /** The `running?` of a motor whose `state` file holds the given text. */
  function RunningIn(state: string): bool {
    HasFlag(Some(Strip(state)), "running").value
  }

  /** `motors.any?(&:running?)` for the two state files of one poll. */
  predicate AnyRunning(poll: (string, string)) {
    RunningIn(poll.0) || RunningIn(poll.1)
  }

  datatype WaitOutcome = AllStopped | StillRunning

  /** Whether some motor runs, poll by poll. */
  function RunningByPoll(polls: seq<(string, string)>): (flags: seq<bool>)
    ensures |flags| == |polls|
    ensures forall j :: 0 <= j < |polls| ==> flags[j] == AnyRunning(polls[j])
  {
    seq(|polls|, j requires 0 <= j < |polls| => AnyRunning(polls[j]))
  }

  /** The loop of `wait_for_stop` from poll i on: it returns at the first poll where no motor runs. */
  function WaitFrom(running: seq<bool>, i: nat): WaitOutcome
    decreases |running| - i
  {
    if i >= |running| then StillRunning
    else if running[i] then WaitFrom(running, i + 1)
    else AllStopped
  }

  /** `wait_for_stop` over the successive polls of the two motors' state files. */
  function WaitSpec(polls: seq<(string, string)>): WaitOutcome {
    WaitFrom(RunningByPoll(polls), 0)
  }

  lemma {:induction false} WaitFromReturns(running: seq<bool>, i: nat)
    ensures WaitFrom(running, i) == AllStopped <==> exists j :: i <= j < |running| && !running[j]
    decreases |running| - i
  {
    if i < |running| {
      WaitFromReturns(running, i + 1);
      if !running[i] {
        assert i <= i < |running| && !running[i];
      }
    }
  }

  /** `wait_for_stop` returns exactly when some poll shows both motors not running. */
  lemma WaitSpecReturns(polls: seq<(string, string)>)
    ensures WaitSpec(polls) == AllStopped <==> exists j :: 0 <= j < |polls| && !AnyRunning(polls[j])
  {
    var flags := RunningByPoll(polls);
    WaitFromReturns(flags, 0);
    if exists j :: 0 <= j < |polls| && !AnyRunning(polls[j]) {
      var j :| 0 <= j < |polls| && !AnyRunning(polls[j]);
      assert !flags[j];
    }
  }
}
