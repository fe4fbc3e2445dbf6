/**
 * Ev3::MovementController: drives a robot with two motors, optionally
 * turning by a gyro sensor's angle and driving distances by the motors'
 * counts per rotation. Every operation is proved to do, on the shared file
 * system, exactly what its effect in module Drives describes.
 */
module MovementControllers {
  import opened Wrappers
  import opened Text
  import opened Numbers
  import opened Sysfs
  import opened Devices
  import opened Motors
  import opened Sensors
  import opened Kinematics
  import opened Drives

  /** The polarity a motor is given: `:inversed` when asked for, `:normal` otherwise. */
  function PolarityFor(inverse: bool): string {
    if inverse then "inversed" else "normal"
  }

  /** A motor's view depends on the read-only files and its remembered values only. */
  lemma ViewKept(m: Motor, f: map<Path, string>)
    requires SameReadOnly(f, m.device.fs.files)
    ensures m.View() == ViewOf(f, m.device.node, m.maxSpeedCache, m.device.commandsCache, m.stopActionsCache)
  {
    ViewOfSameReadOnly(f, m.device.fs.files, m.device.node, m.maxSpeedCache, m.device.commandsCache, m.stopActionsCache);
  }

  lemma ApplyOne(files: map<Path, string>, w: Write)
    ensures ApplyWrites(files, [w]) == files[w.path := w.value]
  {
    assert [w][..0] == [];
  }

  class MovementController {
    const left: Motor
    const right: Motor
    const inverseLeft: bool
    const inverseRight: bool
    var gyro: Option<Sensor>
    var distancePerRotation: Option<int>
    const maxSpeed: int
    const countsPerRotation: int
    /** `@distance_per_count`, remembered once computed. */
    var distancePerCountCache: Option<real>

    /** Two distinct motors, and a gyro, on one file system. */
    ghost predicate Valid()
      reads this
    {
      && left != right && left.device != right.device && left.device.node != right.device.node
      && left.device.fs == right.device.fs
      && (gyro.Some? ==> gyro.value.device.fs == left.device.fs)
    }

    /** The motors as the operations' validations see them. */
    function Rig(): Rig
      reads this, left, right, left.device, right.device, left.device.fs, right.device.fs
    {
      Drives.Rig(left.View(), right.View(), maxSpeed)
    }

    constructor Init(left: Motor, right: Motor, inverseLeft: bool, inverseRight: bool, gyro: Option<Sensor>,
                     distancePerRotation: Option<int>, maxSpeed: int, countsPerRotation: int)
      ensures this.left == left && this.right == right
      ensures this.inverseLeft == inverseLeft && this.inverseRight == inverseRight
      ensures this.gyro == gyro && this.distancePerRotation == distancePerRotation
      ensures this.maxSpeed == maxSpeed && this.countsPerRotation == countsPerRotation
      ensures distancePerCountCache == None
    {
      this.left := left;
      this.right := right;
      this.inverseLeft := inverseLeft;
      this.inverseRight := inverseRight;
      this.gyro := gyro;
      this.distancePerRotation := distancePerRotation;
      this.maxSpeed := maxSpeed;
      this.countsPerRotation := countsPerRotation;
      distancePerCountCache := None;
    }

    /** `left.polarity = ...; right.polarity = ...`: two accepted writes that change no view and no remembered count. */
    static method SetPolarities(left: Motor, right: Motor, inverseLeft: bool, inverseRight: bool)
      requires left != right && left.device != right.device && left.device.node != right.device.node
      requires left.device.fs == right.device.fs
      modifies left, right, left.device, right.device, left.device.fs
      ensures left.device.fs.log == old(left.device.fs.log) +
        [Write(Path(left.device.node, "polarity"), PolarityFor(inverseLeft)), Write(Path(right.device.node, "polarity"), PolarityFor(inverseRight))]
      ensures left.device.fs.files == old(left.device.fs.files)[Path(left.device.node, "polarity") := PolarityFor(inverseLeft)]
                                                              [Path(right.device.node, "polarity") := PolarityFor(inverseRight)]
      ensures SameReadOnly(old(left.device.fs.files), left.device.fs.files)
      ensures left.View() == old(left.View()) && right.View() == old(right.View())
      ensures left.countsCache == old(left.countsCache) && right.countsCache == old(right.countsCache)
    {
      ghost var files0 := left.device.fs.files;
      ghost var lv, rv := left.View(), right.View();
      var o := left.SetPolarity(PolarityFor(inverseLeft));
      PolarityAccepts(lv, PolarityFor(inverseLeft));
      ApplyOne(files0, Write(Path(left.device.node, "polarity"), PolarityFor(inverseLeft)));
      ghost var files1 := left.device.fs.files;
      ViewKept(right, files0);
      o := right.SetPolarity(PolarityFor(inverseRight));
      PolarityAccepts(rv, PolarityFor(inverseRight));
      ApplyOne(files1, Write(Path(right.device.node, "polarity"), PolarityFor(inverseRight)));
      ViewKept(left, files1);
      SameReadOnlyTransitive(files0, files1, left.device.fs.files);
    }

    /**
     * `MovementController.new`: sets both polarities, remembers the smaller
     * max speed and the left motor's counts per rotation, and raises an
     * ArgumentError, after the polarity writes, when the right motor's
     * counts per rotation differ.
     */
    static method Create(left: Motor, right: Motor, inverseLeft: bool, inverseRight: bool, gyro: Option<Sensor>,
                         distancePerRotation: Option<int>) returns (r: Result<MovementController>)
      requires left != right && left.device != right.device && left.device.node != right.device.node
      requires left.device.fs == right.device.fs
      requires gyro.Some? ==> gyro.value.device.fs == left.device.fs
      modifies left, right, left.device, right.device, left.device.fs
      ensures left.device.fs.log == old(left.device.fs.log) +
        [Write(Path(left.device.node, "polarity"), PolarityFor(inverseLeft)), Write(Path(right.device.node, "polarity"), PolarityFor(inverseRight))]
      ensures left.device.fs.files == old(left.device.fs.files)[Path(left.device.node, "polarity") := PolarityFor(inverseLeft)]
                                                              [Path(right.device.node, "polarity") := PolarityFor(inverseRight)]
      ensures left.View() == old(left.View()) && right.View() == old(right.View())
      ensures left.countsCache == Some(old(left.CountsPerRotationValue())) && right.countsCache == Some(old(right.CountsPerRotationValue()))
      ensures r.Success? <==> old(left.CountsPerRotationValue()) == old(right.CountsPerRotationValue())
      ensures r.Failure? ==> r.error == ArgumentError
      ensures r.Success? ==> var c := r.value;
        && fresh(c) && c.Valid() && RigValid(c.Rig())
        && c.left == left && c.right == right && c.inverseLeft == inverseLeft && c.inverseRight == inverseRight
        && c.gyro == gyro && c.distancePerRotation == distancePerRotation && c.distancePerCountCache == None
        && c.maxSpeed == Min(old(left.View()).maxSpeed, old(right.View()).maxSpeed)
        && c.countsPerRotation == old(left.CountsPerRotationValue())
    {
      ghost var files0 := left.device.fs.files;
      SetPolarities(left, right, inverseLeft, inverseRight);
      ghost var lc, rc := CachedInt(files0, left.device.node, "count_per_rot", left.countsCache),
                          CachedInt(files0, right.device.node, "count_per_rot", right.countsCache);
      CachedIntSameReadOnly(files0, left.device.fs.files, left.device.node, "count_per_rot", left.countsCache);
      CachedIntSameReadOnly(files0, left.device.fs.files, right.device.node, "count_per_rot", right.countsCache);

      var leftMax := left.MaxSpeed();
      var rightMax := right.MaxSpeed();
      var counts := left.CountsPerRotation();
      var rightCounts := right.CountsPerRotation();
      assert counts == lc && rightCounts == rc;
      if rightCounts != counts {
        r := Failure(ArgumentError);
      } else {
        var c := new MovementController.Init(left, right, inverseLeft, inverseRight, gyro, distancePerRotation, Min(leftMax, rightMax), counts);
        r := Success(c);
      }
    }

    /** `stop`: `stop!` on the left motor, then on the right one. */
    method Stop() returns (r: Outcome)
      requires Valid()
      modifies left, right, left.device, right.device, left.device.fs
      ensures Valid() && Rig() == old(Rig())
      ensures Did(old(left.device.fs.log), old(left.device.fs.files), left.device.fs.log, left.device.fs.files, StopEffect(old(Rig())))
      ensures r == StopEffect(old(Rig())).outcome
      ensures SameReadOnly(old(left.device.fs.files), left.device.fs.files)
    {
      ghost var rig := Rig();
      ghost var log0, files0 := left.device.fs.log, left.device.fs.files;
      r := left.Stop();
      ghost var log1, files1 := left.device.fs.log, left.device.fs.files;
      ViewKept(right, files0);
      if r.Pass? {
        r := right.Stop();
        ViewKept(left, files1);
        SameReadOnlyTransitive(files0, files1, left.device.fs.files);
      }
      DidThen(log0, files0, log1, files1, left.device.fs.log, left.device.fs.files,
              Perform([Req(rig.left, WriteCommand("stop"))]), Perform([Req(rig.right, WriteCommand("stop"))]));
      PerformTwo(Req(rig.left, WriteCommand("stop")), Req(rig.right, WriteCommand("stop")));
    }

    /** `go(power, direction, duration:)`. */
    method Go(power: int, direction: int, duration: Option<int>) returns (r: Outcome)
      requires Valid()
      modifies left, right, left.device, right.device, left.device.fs
      ensures Valid() && Rig() == old(Rig())
      ensures Did(old(left.device.fs.log), old(left.device.fs.files), left.device.fs.log, left.device.fs.files,
                  GoEffect(old(Rig()), power, direction, duration))
      ensures r == GoEffect(old(Rig()), power, direction, duration).outcome
      ensures SameReadOnly(old(left.device.fs.files), left.device.fs.files)
    {
      if !InRange(power) || !InRange(direction) {
        assert left.device.fs.log + [] == left.device.fs.log;
        return Fail(ArgumentError);
      }
      if power == 0 {
        r := Stop();
        return;
      }
      ghost var rig := Rig();
      ghost var log0, files0 := left.device.fs.log, left.device.fs.files;
      var fullSpeed := PowerToSpeed(power, maxSpeed);
      r := SetSpeeds(LeftSpeed(fullSpeed, direction), RightSpeed(fullSpeed, direction));
      ghost var log1, files1 := left.device.fs.log, left.device.fs.files;
      ghost var speeds := Perform(SpeedRequests(rig, power, direction));
      if r.Pass? {
        r := RunBoth(duration);
        SameReadOnlyTransitive(files0, files1, left.device.fs.files);
      }
      DidThen(log0, files0, log1, files1, left.device.fs.log, left.device.fs.files, speeds, Perform(RunCommandRequests(rig, duration)));
      PerformThen(SpeedRequests(rig, power, direction), RunCommandRequests(rig, duration));
    }

    /** The two speed setpoints of `go`: left, then right. */
    method SetSpeeds(leftSpeed: int, rightSpeed: int) returns (r: Outcome)
      requires Valid()
      modifies left, right, left.device, right.device, left.device.fs
      ensures Valid() && Rig() == old(Rig())
      ensures Did(old(left.device.fs.log), old(left.device.fs.files), left.device.fs.log, left.device.fs.files,
                  Perform([Req(old(left.View()), WriteSpeedSp(leftSpeed)), Req(old(right.View()), WriteSpeedSp(rightSpeed))]))
      ensures r == Perform([Req(old(left.View()), WriteSpeedSp(leftSpeed)), Req(old(right.View()), WriteSpeedSp(rightSpeed))]).outcome
      ensures SameReadOnly(old(left.device.fs.files), left.device.fs.files)
    {
      ghost var lv, rv := left.View(), right.View();
      ghost var log0, files0 := left.device.fs.log, left.device.fs.files;
      r := left.SetSpeedSetpoint(leftSpeed);
      ghost var log1, files1 := left.device.fs.log, left.device.fs.files;
      ViewKept(right, files0);
      if r.Pass? {
        r := right.SetSpeedSetpoint(rightSpeed);
        ViewKept(left, files1);
        SameReadOnlyTransitive(files0, files1, left.device.fs.files);
      }
      DidThen(log0, files0, log1, files1, left.device.fs.log, left.device.fs.files,
              Perform([Req(lv, WriteSpeedSp(leftSpeed))]), Perform([Req(rv, WriteSpeedSp(rightSpeed))]));
      PerformTwo(Req(lv, WriteSpeedSp(leftSpeed)), Req(rv, WriteSpeedSp(rightSpeed)));
    }

    /** The run commands of `go`: `run_for!` or `run!` on the left motor, then on the right one. */
    method RunBoth(duration: Option<int>) returns (r: Outcome)
      requires Valid()
      modifies left, right, left.device, right.device, left.device.fs
      ensures Valid() && Rig() == old(Rig())
      ensures Did(old(left.device.fs.log), old(left.device.fs.files), left.device.fs.log, left.device.fs.files,
                  Perform(RunCommandRequests(old(Rig()), duration)))
      ensures r == Perform(RunCommandRequests(old(Rig()), duration)).outcome
      ensures SameReadOnly(old(left.device.fs.files), left.device.fs.files)
    {
      if duration.Some? {
        r := RunBothFor(duration.value);
      } else {
        r := RunBothForever();
      }
    }

    /** `run_for!(duration)` on the left motor, then on the right one. */
    method RunBothFor(duration: int) returns (r: Outcome)
      requires Valid()
      modifies left, right, left.device, right.device, left.device.fs
      ensures Valid() && Rig() == old(Rig())
      ensures Did(old(left.device.fs.log), old(left.device.fs.files), left.device.fs.log, left.device.fs.files,
                  Perform(RunCommandRequests(old(Rig()), Some(duration))))
      ensures r == Perform(RunCommandRequests(old(Rig()), Some(duration))).outcome
      ensures SameReadOnly(old(left.device.fs.files), left.device.fs.files)
    {
      ghost var rig := Rig();
      ghost var log0, files0 := left.device.fs.log, left.device.fs.files;
      ghost var first := SetThenCommand(rig.left, WriteTimeSp(duration), "run-timed");
      ghost var second := SetThenCommand(rig.right, WriteTimeSp(duration), "run-timed");
      r := left.RunFor(duration);
      ghost var log1, files1 := left.device.fs.log, left.device.fs.files;
      ViewKept(right, files0);
      if r.Pass? {
        r := right.RunFor(duration);
        ViewKept(left, files1);
        SameReadOnlyTransitive(files0, files1, left.device.fs.files);
      }
      DidThen(log0, files0, log1, files1, left.device.fs.log, left.device.fs.files, Perform(first), Perform(second));
      PerformThen(first, second);
    }

    /** `run!` on the left motor, then on the right one. */
    method RunBothForever() returns (r: Outcome)
      requires Valid()
      modifies left, right, left.device, right.device, left.device.fs
      ensures Valid() && Rig() == old(Rig())
      ensures Did(old(left.device.fs.log), old(left.device.fs.files), left.device.fs.log, left.device.fs.files,
                  Perform(RunCommandRequests(old(Rig()), None)))
      ensures r == Perform(RunCommandRequests(old(Rig()), None)).outcome
      ensures SameReadOnly(old(left.device.fs.files), left.device.fs.files)
    {
      ghost var rig := Rig();
      ghost var log0, files0 := left.device.fs.log, left.device.fs.files;
      ghost var first, second := RunRequests(rig.left, None), RunRequests(rig.right, None);
      assert first == [Req(rig.left, WriteCommand("run-forever"))] && second == [Req(rig.right, WriteCommand("run-forever"))];
      r := left.Run(None);
      ghost var log1, files1 := left.device.fs.log, left.device.fs.files;
      ViewKept(right, files0);
      if r.Pass? {
        r := right.Run(None);
        ViewKept(left, files1);
        SameReadOnlyTransitive(files0, files1, left.device.fs.files);
      }
      DidThen(log0, files0, log1, files1, left.device.fs.log, left.device.fs.files, Perform(first), Perform(second));
      PerformThen(first, second);
    }

    /**
     * `wait_for_stop`: returns once neither motor is `running?`. Before each
     * check the motors publish the state texts of the next poll; when the
     * polls run out the robot is `StillRunning`.
     */
    method WaitForStop(polls: seq<(string, string)>) returns (r: WaitOutcome)
      requires Valid()
      modifies left.device.fs
      ensures r == WaitSpec(polls)
      ensures left.device.fs.log == old(left.device.fs.log)
      ensures SameReadOnly(old(left.device.fs.files), left.device.fs.files)
    {
      var i := 0;
      while i < |polls|
        invariant 0 <= i <= |polls|
        invariant left.device.fs.log == old(left.device.fs.log)
        invariant SameReadOnly(old(left.device.fs.files), left.device.fs.files)
        invariant WaitFrom(RunningByPoll(polls), i) == WaitSpec(polls)
        decreases |polls| - i
      {
        ghost var files0 := left.device.fs.files;
        var running := AnyMotorRunning(polls[i]);
        SameReadOnlyTransitive(old(left.device.fs.files), files0, left.device.fs.files);
        if !running {
          return AllStopped;
        }
        i := i + 1;
      }
      r := StillRunning;
    }

    /** `motors.any?(&:running?)`, after the motors published the state texts of one poll. */
    method AnyMotorRunning(poll: (string, string)) returns (running: bool)
      requires Valid()
      modifies left.device.fs
      ensures running == AnyRunning(poll)
      ensures left.device.fs.log == old(left.device.fs.log)
      ensures SameReadOnly(old(left.device.fs.files), left.device.fs.files)
    {
      PublishStates(poll);
      assert left.device.Read("state") == Some(Strip(poll.0));
      assert right.device.Read("state") == Some(Strip(poll.1));
      running := left.Running().value || right.Running().value;
    }

    /** The motors' drivers write their new `state` flags. */
    method PublishStates(poll: (string, string))
      requires Valid()
      modifies left.device.fs
      ensures left.device.fs.files == old(left.device.fs.files)[Path(left.device.node, "state") := poll.0][Path(right.device.node, "state") := poll.1]
      ensures left.device.fs.log == old(left.device.fs.log)
      ensures SameReadOnly(old(left.device.fs.files), left.device.fs.files)
    {
      var fs := left.device.fs;
      ghost var files0 := fs.files;
      fs.Tick(Path(left.device.node, "state"), poll.0);
      UpdateKeepsReadOnly(files0, Path(left.device.node, "state"), poll.0);
      ghost var files1 := fs.files;
      fs.Tick(Path(right.device.node, "state"), poll.1);
      UpdateKeepsReadOnly(files1, Path(right.device.node, "state"), poll.1);
      SameReadOnlyTransitive(files0, files1, fs.files);
    }

    /** `distance_per_count`, remembered once computed. */
    method DistancePerCount() returns (q: Result<real>)
      requires distancePerRotation.Some?
      modifies this
      ensures q == DistancePerCountFor(old(distancePerRotation).value, countsPerRotation, old(distancePerCountCache))
      ensures distancePerCountCache == if q.Success? then Some(q.value) else old(distancePerCountCache)
      ensures gyro == old(gyro) && distancePerRotation == old(distancePerRotation)
    {
      if distancePerCountCache.None? {
        if countsPerRotation == 0 {
          return Failure(ZeroDivisionError);
        }
        distancePerCountCache := Some(Kinematics.DistancePerCount(distancePerRotation.value, countsPerRotation));
      }
      q := Success(distancePerCountCache.value);
    }

    /** `forward_by(distance, power)`. */
    method ForwardBy(distance: int, power: int) returns (r: Outcome)
      requires Valid()
      modifies this, left, right, left.device, right.device, left.device.fs
      ensures Valid() && Rig() == old(Rig())
      ensures Did(old(left.device.fs.log), old(left.device.fs.files), left.device.fs.log, left.device.fs.files,
                  ForwardEffect(old(Rig()), old(distancePerRotation), countsPerRotation, old(distancePerCountCache), distance, power))
      ensures r == ForwardEffect(old(Rig()), old(distancePerRotation), countsPerRotation, old(distancePerCountCache), distance, power).outcome
      ensures SameReadOnly(old(left.device.fs.files), left.device.fs.files)
      ensures gyro == old(gyro) && distancePerRotation == old(distancePerRotation)
      ensures distancePerCountCache ==
        if old(distancePerRotation).Some? && power != 0 && Perform(ForwardSpeedRequests(old(Rig()), power)).outcome.Pass? &&
           DistancePerCountFor(old(distancePerRotation).value, countsPerRotation, old(distancePerCountCache)).Success?
        then Some(DistancePerCountFor(old(distancePerRotation).value, countsPerRotation, old(distancePerCountCache)).value)
        else old(distancePerCountCache)
    {
      if distancePerRotation.None? {
        assert left.device.fs.log + [] == left.device.fs.log;
        return Fail(ArgumentError);
      }
      if power == 0 {
        r := Stop();
        return;
      }
      ghost var rig := Rig();
      ghost var log0, files0 := left.device.fs.log, left.device.fs.files;
      var speed := ForwardSpeed(power, maxSpeed);
      r := SetForwardSpeeds(speed);
      ghost var log1, files1 := left.device.fs.log, left.device.fs.files;
      ghost var rest := RunByEffect(rig, DistancePerCountFor(distancePerRotation.value, countsPerRotation, distancePerCountCache), distance);
      if r.Pass? {
        var q := DistancePerCount();
        if q.Failure? {
          r := Fail(q.error);
        } else if q.value == 0.0 {
          r := Fail(ZeroDivisionError);
        } else {
          var counts := Counts(distance, q.value);
          r := RunByBoth(counts);
          SameReadOnlyTransitive(files0, files1, left.device.fs.files);
        }
        assert left.device.fs.log + [] == left.device.fs.log;
      }
      DidThen(log0, files0, log1, files1, left.device.fs.log, left.device.fs.files, Perform(ForwardSpeedRequests(rig, power)), rest);
    }

    /** `left_motor.speed_setpoint = right_motor.speed_setpoint = speed`: the right motor's first. */
    method SetForwardSpeeds(speed: int) returns (r: Outcome)
      requires Valid()
      modifies left, right, left.device, right.device, left.device.fs
      ensures Valid() && Rig() == old(Rig())
      ensures Did(old(left.device.fs.log), old(left.device.fs.files), left.device.fs.log, left.device.fs.files,
                  Perform([Req(old(right.View()), WriteSpeedSp(speed)), Req(old(left.View()), WriteSpeedSp(speed))]))
      ensures r == Perform([Req(old(right.View()), WriteSpeedSp(speed)), Req(old(left.View()), WriteSpeedSp(speed))]).outcome
      ensures SameReadOnly(old(left.device.fs.files), left.device.fs.files)
    {
      ghost var lv, rv := left.View(), right.View();
      ghost var log0, files0 := left.device.fs.log, left.device.fs.files;
      r := right.SetSpeedSetpoint(speed);
      ghost var log1, files1 := left.device.fs.log, left.device.fs.files;
      ViewKept(left, files0);
      if r.Pass? {
        r := left.SetSpeedSetpoint(speed);
        ViewKept(right, files1);
        SameReadOnlyTransitive(files0, files1, left.device.fs.files);
      }
      DidThen(log0, files0, log1, files1, left.device.fs.log, left.device.fs.files,
              Perform([Req(rv, WriteSpeedSp(speed))]), Perform([Req(lv, WriteSpeedSp(speed))]));
      PerformTwo(Req(rv, WriteSpeedSp(speed)), Req(lv, WriteSpeedSp(speed)));
    }

    /** `left_motor.run_by!(counts) && right_motor.run_by!(counts)`. */
    method RunByBoth(counts: int) returns (r: Outcome)
      requires Valid()
      modifies left, right, left.device, right.device, left.device.fs
      ensures Valid() && Rig() == old(Rig())
      ensures Did(old(left.device.fs.log), old(left.device.fs.files), left.device.fs.log, left.device.fs.files,
                  Perform(RunByRequests(old(Rig()), counts)))
      ensures r == Perform(RunByRequests(old(Rig()), counts)).outcome
      ensures SameReadOnly(old(left.device.fs.files), left.device.fs.files)
    {
      ghost var rig := Rig();
      ghost var log0, files0 := left.device.fs.log, left.device.fs.files;
      ghost var first := SetThenCommand(rig.left, WritePositionSp(counts), "run-to-rel-pos");
      ghost var second := SetThenCommand(rig.right, WritePositionSp(counts), "run-to-rel-pos");
      r := left.RunBy(counts);
      ghost var log1, files1 := left.device.fs.log, left.device.fs.files;
      ViewKept(right, files0);
      if r.Pass? {
        r := right.RunBy(counts);
        ViewKept(left, files1);
        SameReadOnlyTransitive(files0, files1, left.device.fs.files);
      }
      DidThen(log0, files0, log1, files1, left.device.fs.log, left.device.fs.files, Perform(first), Perform(second));
      PerformThen(first, second);
    }

    /** `gyro=`. */
    method SetGyro(g: Option<Sensor>)
      requires Valid() && (g.Some? ==> g.value.device.fs == left.device.fs)
      modifies this
      ensures Valid() && Rig() == old(Rig())
      ensures gyro == g && distancePerRotation == old(distancePerRotation) && distancePerCountCache == old(distancePerCountCache)
    {
      gyro := g;
    }

    /** `distance_per_rotation=`: a distance per count already remembered is kept. */
    method SetDistancePerRotation(d: Option<int>)
      requires Valid()
      modifies this
      ensures Valid() && Rig() == old(Rig())
      ensures distancePerRotation == d && gyro == old(gyro) && distancePerCountCache == old(distancePerCountCache)
    {
      distancePerRotation := d;
    }

    /**
     * `current_angle`: `gyro.value(0)`, after the sensor published the raw
     * reading `raw` in `value0`. The scale and the number of values are the
     * read-only ones of the files `base`.
     */
    method CurrentAngle(raw: int, ghost base: map<Path, string>) returns (a: Result<real>)
      requires Valid() && gyro.Some? && SameReadOnly(base, left.device.fs.files)
      modifies left.device.fs
      ensures Valid() && Rig() == old(Rig())
      ensures a.Failure? <==> NumValuesIn(base, gyro.value.device.node) <= 0
      ensures a.Failure? ==> a.error == ArgumentError
      ensures a.Success? ==> a.value == AsReal(Scaled(raw, DecimalsIn(base, gyro.value.device.node)))
      ensures left.device.fs.log == old(left.device.fs.log)
      ensures SameReadOnly(base, left.device.fs.files)
    {
      var g := gyro.value;
      ghost var files0 := left.device.fs.files;
      assert ValueName(0) == "value0" by { assert IntToString(0) == "0"; }
      assert Lookup(base, Path(g.device.node, "num_values")) == Lookup(files0, Path(g.device.node, "num_values"));
      assert Lookup(base, Path(g.device.node, "decimals")) == Lookup(files0, Path(g.device.node, "decimals"));
      g.device.fs.Tick(Path(g.device.node, "value0"), IntToString(raw));
      UpdateKeepsReadOnly(files0, Path(g.device.node, "value0"), IntToString(raw));
      SameReadOnlyTransitive(base, files0, left.device.fs.files);
      ViewKept(left, files0);
      ViewKept(right, files0);
      if NumValuesIn(files0, g.device.node) > 0 {
        ValueReadsBack(files0, g.device.node, 0, raw);
      }
      var v := g.Value(0);
      a := if v.Failure? then Failure(v.error) else Success(AsReal(v.value));
    }

    /** `remaining_angle_distance_for(target_angle, anti_clockwise)`, reading the angle `raw`. */
    method RemainingAngleDistanceFor(targetAngle: real, antiClockwise: bool, raw: int, ghost base: map<Path, string>) returns (rem: real)
      requires Valid() && gyro.Some? && SameReadOnly(base, left.device.fs.files)
      requires NumValuesIn(base, gyro.value.device.node) > 0
      modifies left.device.fs
      ensures Valid() && Rig() == old(Rig())
      ensures var angle := AsReal(Scaled(raw, DecimalsIn(base, gyro.value.device.node)));
        rem == if antiClockwise then angle - targetAngle else targetAngle - angle
      ensures left.device.fs.log == old(left.device.fs.log)
      ensures SameReadOnly(base, left.device.fs.files)
    {
      var angle := CurrentAngle(raw, base);
      rem := if antiClockwise then angle.value - targetAngle else targetAngle - angle.value;
    }
  }
}
