/**
 * Ev3::Motors::Generic: a tacho motor. Setpoint setters validate their value
 * and then write one attribute; run operations write a setpoint and then a
 * command; getters read one attribute.
 *
 * A setter's validation depends only on what is read-only or remembered for the
 * motor (`max_speed`, `stop_actions`, `commands`), gathered in a `MotorView`.
 * A sequence of motor requests is specified by `Perform`, which stops at the
 * first request that raises, exactly as a chain of Ruby calls does.
 */
module Motors {
  import opened Wrappers
  import opened Text
  import opened Sysfs
  import opened Devices

  /** One attribute write a setter or command makes, carrying the value given. */
  datatype MotorOp =
    | WriteDutyCycleSp(n: int)
    | WritePolarity(polarity: string)
    | WritePosition(n: int)
    | WritePositionSp(n: int)
    | WriteSpeedSp(n: int)
    | WriteRampUpSp(n: int)
    | WriteRampDownSp(n: int)
    | WriteStopAction(action: string)
    | WriteTimeSp(n: int)
    | WriteCommand(command: string)

  /** What a motor's validations consult. */
  datatype MotorView = MotorView(node: string, maxSpeed: int, commands: Result<seq<string>>, stopActions: Result<seq<string>>)

  /** A request to one motor. */
  datatype Req = Req(motor: MotorView, op: MotorOp)

  function AttributeOf(op: MotorOp): string {
    match op
    case WriteDutyCycleSp(_) => "duty_cycle_sp"
    case WritePolarity(_) => "polarity"
    case WritePosition(_) => "position"
    case WritePositionSp(_) => "position_sp"
    case WriteSpeedSp(_) => "speed_sp"
    case WriteRampUpSp(_) => "ramp_up_sp"
    case WriteRampDownSp(_) => "ramp_down_sp"
    case WriteStopAction(_) => "stop_action"
    case WriteTimeSp(_) => "time_sp"
    case WriteCommand(_) => "command"
  }

  /** The text `file.write(value)` puts in the file: Integer#to_s, or the Symbol's name. */
  function TextOf(op: MotorOp): string {
    match op
    case WritePolarity(p) => p
    case WriteStopAction(a) => a
    case WriteCommand(c) => c
    case WriteDutyCycleSp(n) => IntToString(n)
    case WritePosition(n) => IntToString(n)
    case WritePositionSp(n) => IntToString(n)
    case WriteSpeedSp(n) => IntToString(n)
    case WriteRampUpSp(n) => IntToString(n)
    case WriteRampDownSp(n) => IntToString(n)
    case WriteTimeSp(n) => IntToString(n)
  }

  function OpWrite(node: string, op: MotorOp): (w: Write)
    ensures !ReadOnlyName(w.path.name) && w.path.dir == node
  {
    Write(Path(node, AttributeOf(op)), TextOf(op))
  }

  /** The validation each setter makes before it writes. */
  function Check(v: MotorView, op: MotorOp): Outcome {
    match op
    case WriteDutyCycleSp(n) => if -100 <= n <= 100 then Pass else Fail(ArgumentError)
    case WritePolarity(p) => if p == "normal" || p == "inversed" then Pass else Fail(ArgumentError)
    case WritePosition(_) => Pass
    case WritePositionSp(_) => Pass
    case WriteSpeedSp(n) => if -1 * v.maxSpeed <= n <= v.maxSpeed then Pass else Fail(ArgumentError)
    case WriteRampUpSp(n) => if 0 > n then Fail(ArgumentError) else Pass
    case WriteRampDownSp(n) => if 0 > n then Fail(ArgumentError) else Pass
    case WriteStopAction(a) => MemberCheck(v.stopActions, a)
    case WriteTimeSp(n) => if n < 0 then Fail(ArgumentError) else Pass
    case WriteCommand(c) => MemberCheck(v.commands, c)
  }

  /** Carries out the requests in order and stops at the first one whose validation raises. */
  function Perform(reqs: seq<Req>): (e: Effect)
    ensures e.outcome.Pass? <==> AllPass(reqs)
    ensures e.outcome.Pass? ==> e.writes == WritesOf(reqs)
    ensures |e.writes| <= |reqs|
    decreases |reqs|
  {
    if reqs == [] then Effect([], Pass)
    else
      var before := Perform(reqs[..|reqs| - 1]);
      var last := reqs[|reqs| - 1];
      var front := reqs[..|reqs| - 1];
      assert AllPass(reqs) <==> AllPass(front) && Check(last.motor, last.op) == Pass by {
        if AllPass(front) && Check(last.motor, last.op) == Pass {
          forall i | 0 <= i < |reqs| ensures Check(reqs[i].motor, reqs[i].op) == Pass {
            if i < |reqs| - 1 { assert reqs[i] == front[i]; }
          }
        }
        if AllPass(reqs) {
          forall i | 0 <= i < |front| ensures Check(front[i].motor, front[i].op) == Pass {
            assert front[i] == reqs[i];
          }
        }
      }
      if before.outcome.Fail? then before
      else match Check(last.motor, last.op)
        case Pass => Effect(before.writes + [OpWrite(last.motor.node, last.op)], Pass)
        case Fail(err) => Effect(before.writes, Fail(err))
  }

  /** The writes of requests that all pass. */
  function WritesOf(reqs: seq<Req>): (ws: seq<Write>)
    ensures |ws| == |reqs|
    decreases |reqs|
  {
    if reqs == [] then [] else WritesOf(reqs[..|reqs| - 1]) + [OpWrite(reqs[|reqs| - 1].motor.node, reqs[|reqs| - 1].op)]
  }

  predicate AllPass(reqs: seq<Req>) {
    forall i :: 0 <= i < |reqs| ==> Check(reqs[i].motor, reqs[i].op) == Pass
  }

  /** When every validation passes, every request writes, in order, and the sequence passes. */
  lemma {:induction false} PerformAllPass(reqs: seq<Req>)
    requires AllPass(reqs)
    ensures Perform(reqs) == Effect(WritesOf(reqs), Pass)
    decreases |reqs|
  {
    if reqs != [] {
      var front := reqs[..|reqs| - 1];
      assert AllPass(front) by {
        forall i | 0 <= i < |front| ensures Check(front[i].motor, front[i].op) == Pass {
          assert front[i] == reqs[i];
        }
      }
      PerformAllPass(front);
    }
  }

  /**
   * When request k is the first whose validation fails, exactly the requests
   * before it write, and the sequence raises request k's error.
   */
  lemma {:induction false} PerformFirstFailure(reqs: seq<Req>, k: nat)
    requires k < |reqs| && AllPass(reqs[..k]) && Check(reqs[k].motor, reqs[k].op).Fail?
    ensures Perform(reqs) == Effect(WritesOf(reqs[..k]), Check(reqs[k].motor, reqs[k].op))
    decreases |reqs|
  {
    var front := reqs[..|reqs| - 1];
    if |reqs| == k + 1 {
      assert front == reqs[..k];
      PerformAllPass(front);
    } else {
      assert front[..k] == reqs[..k];
      assert front[k] == reqs[k];
      PerformFirstFailure(front, k);
    }
  }

  /** Performing two request lists one after the other is performing their concatenation. */
  lemma {:induction false} PerformAppend(a: seq<Req>, b: seq<Req>)
    ensures Perform(a + b) ==
      if Perform(a).outcome.Fail? then Perform(a)
      else Effect(Perform(a).writes + Perform(b).writes, Perform(b).outcome)
    decreases |b|
  {
    if b == [] {
      assert a + b == a;
    } else {
      var b' := b[..|b| - 1];
      assert (a + b)[..|a + b| - 1] == a + b';
      assert (a + b)[|a + b| - 1] == b[|b| - 1];
      PerformAppend(a, b');
    }
  }

  /** Every write of a performed request goes to a non-read-only attribute of its own motor. */
  lemma {:induction false} PerformWrites(reqs: seq<Req>)
    ensures |Perform(reqs).writes| <= |reqs|
    ensures WritesNoReadOnly(Perform(reqs).writes)
    ensures forall i :: 0 <= i < |Perform(reqs).writes| ==> exists j :: 0 <= j < |reqs| && Perform(reqs).writes[i] == OpWrite(reqs[j].motor.node, reqs[j].op)
    decreases |reqs|
  {
    if reqs != [] {
      var front := reqs[..|reqs| - 1];
      PerformWrites(front);
      var ws := Perform(reqs).writes;
      forall i | 0 <= i < |ws| ensures exists j :: 0 <= j < |reqs| && ws[i] == OpWrite(reqs[j].motor.node, reqs[j].op) {
        if i < |Perform(front).writes| {
          var j :| 0 <= j < |front| && Perform(front).writes[i] == OpWrite(front[j].motor.node, front[j].op);
          assert front[j] == reqs[j];
        } else {
          assert ws[i] == OpWrite(reqs[|reqs| - 1].motor.node, reqs[|reqs| - 1].op);
        }
      }
    }
  }

  /** Two requests: the second one is performed only when the first passed. */
  lemma PerformTwo(a: Req, b: Req)
    ensures Perform([a, b]) == Then(Perform([a]), Perform([b]))
  {
    assert [a, b] == [a] + [b];
    PerformAppend([a], [b]);
  }

  /** One request: it writes its attribute exactly when its validation passes. */
  lemma PerformOne(v: MotorView, op: MotorOp)
    ensures Perform([Req(v, op)]) ==
      if Check(v, op).Pass? then Effect([OpWrite(v.node, op)], Pass) else Effect([], Check(v, op))
  {
    assert [Req(v, op)][..0] == [];
  }

  /** The effect of `speed_setpoint=`: every value in -max_speed..max_speed is written, every other raises an ArgumentError without a write. */
  lemma SpeedSetpointAccepts(v: MotorView, n: int)
    ensures Perform([Req(v, WriteSpeedSp(n))]) ==
      if -v.maxSpeed <= n <= v.maxSpeed then Effect([Write(Path(v.node, "speed_sp"), IntToString(n))], Pass)
      else Effect([], Fail(ArgumentError))
  {
    PerformOne(v, WriteSpeedSp(n));
  }

  /** `duty_cycle_setpoint=` accepts exactly -100..100. */
  lemma DutyCycleSetpointAccepts(v: MotorView, n: int)
    ensures Perform([Req(v, WriteDutyCycleSp(n))]) ==
      if -100 <= n <= 100 then Effect([Write(Path(v.node, "duty_cycle_sp"), IntToString(n))], Pass)
      else Effect([], Fail(ArgumentError))
  {
    PerformOne(v, WriteDutyCycleSp(n));
  }

  /** `polarity=` accepts exactly :normal and :inversed. */
  lemma PolarityAccepts(v: MotorView, p: string)
    ensures Perform([Req(v, WritePolarity(p))]) ==
      if p == "normal" || p == "inversed" then Effect([Write(Path(v.node, "polarity"), p)], Pass)
      else Effect([], Fail(ArgumentError))
  {
    PerformOne(v, WritePolarity(p));
  }

  /** Ramp-up, ramp-down and time setpoints reject negative values and accept zero and every positive value. */
  lemma NonNegativeSetpointsAccept(v: MotorView, n: int)
    ensures Perform([Req(v, WriteRampUpSp(n))]).outcome.Pass? <==> n >= 0
    ensures Perform([Req(v, WriteRampDownSp(n))]).outcome.Pass? <==> n >= 0
    ensures Perform([Req(v, WriteTimeSp(n))]).outcome.Pass? <==> n >= 0
    ensures n < 0 ==> Perform([Req(v, WriteRampUpSp(n))]) == Effect([], Fail(ArgumentError))
    ensures n < 0 ==> Perform([Req(v, WriteRampDownSp(n))]) == Effect([], Fail(ArgumentError))
    ensures n < 0 ==> Perform([Req(v, WriteTimeSp(n))]) == Effect([], Fail(ArgumentError))
  {
    PerformOne(v, WriteRampUpSp(n));
    PerformOne(v, WriteRampDownSp(n));
    PerformOne(v, WriteTimeSp(n));
  }

  /** `stop_action=` and `command=` accept exactly the members of their list. */
  lemma ListedValuesAccept(v: MotorView, a: string)
    ensures v.stopActions.Success? ==> (Perform([Req(v, WriteStopAction(a))]).outcome.Pass? <==> a in v.stopActions.value)
    ensures v.commands.Success? ==> (Perform([Req(v, WriteCommand(a))]).outcome.Pass? <==> a in v.commands.value)
    ensures Perform([Req(v, WriteStopAction(a))]).outcome.Fail? ==> Perform([Req(v, WriteStopAction(a))]).writes == []
    ensures Perform([Req(v, WriteCommand(a))]).outcome.Fail? ==> Perform([Req(v, WriteCommand(a))]).writes == []
  {
    PerformOne(v, WriteStopAction(a));
    PerformOne(v, WriteCommand(a));
  }

  /** `run!`: the speed setpoint when one is given, then `run-forever`. */
  function RunRequests(v: MotorView, speed: Option<int>): seq<Req> {
    (if speed.Some? then [Req(v, WriteSpeedSp(speed.value))] else []) + [Req(v, WriteCommand("run-forever"))]
  }

  /** `run_directly!`: the duty cycle setpoint when one is given, then `run-direct`. */
  function RunDirectlyRequests(v: MotorView, dutyCycle: Option<int>): seq<Req> {
    (if dutyCycle.Some? then [Req(v, WriteDutyCycleSp(dutyCycle.value))] else []) + [Req(v, WriteCommand("run-direct"))]
  }

  /** A run operation: the setpoint write, then the command write. */
  function SetThenCommand(v: MotorView, setpoint: MotorOp, command: string): seq<Req> {
    [Req(v, setpoint), Req(v, WriteCommand(command))]
  }

  /**
   * A run operation writes its command only after its setpoint, and only when
   * the setpoint was accepted: a rejected setpoint raises before any write.
   */
  lemma SetThenCommandEffect(v: MotorView, setpoint: MotorOp, command: string)
    ensures var e := Perform(SetThenCommand(v, setpoint, command));
      && (Check(v, setpoint).Fail? ==> e == Effect([], Check(v, setpoint)))
      && (Check(v, setpoint).Pass? && Check(v, WriteCommand(command)).Pass? ==>
            e == Effect([OpWrite(v.node, setpoint), Write(Path(v.node, "command"), command)], Pass))
      && (Check(v, setpoint).Pass? && Check(v, WriteCommand(command)).Fail? ==>
            e == Effect([OpWrite(v.node, setpoint)], Check(v, WriteCommand(command))))
  {
    var reqs := SetThenCommand(v, setpoint, command);
    assert reqs == [Req(v, setpoint)] + [Req(v, WriteCommand(command))];
    PerformAppend([Req(v, setpoint)], [Req(v, WriteCommand(command))]);
    PerformOne(v, setpoint);
    PerformOne(v, WriteCommand(command));
  }

  /** The state-flag list of `current_states`: `state.split(' ')`; a missing file raises. */
  function StatesOf(state: Option<string>): Result<seq<string>> {
    WordsOf(state)
  }

  /** `running?`, `ramping?`, ...: membership of the flag in `current_states`. */
  function HasFlag(state: Option<string>, flag: string): (r: Result<bool>)
    ensures r.Failure? <==> state.None?
  {
    match StatesOf(state)
    case Failure(e) => Failure(e)
    case Success(flags) => Success(flag in flags)
  }

  /** A state written as space-separated flags has exactly those flags; in particular an empty state has none. */
  lemma {:induction false} FlagsOfState(flags: seq<string>, flag: string)
    requires forall i :: 0 <= i < |flags| ==> IsWord(flags[i])
    ensures HasFlag(Some(JoinSpaced(flags)), flag) == Success(flag in flags)
  {
    WordsOfJoinSpaced(flags);
  }

  /** An empty or blank state file means the motor is not running. */
  lemma {:induction false} BlankStateNotRunning(s: string)
    requires forall i :: 0 <= i < |s| ==> IsSpace(s[i])
    ensures HasFlag(Some(s), "running") == Success(false)
  {
    BlankHasNoWords(s);
  }

  lemma {:induction false} BlankHasNoWords(s: string)
    requires forall i :: 0 <= i < |s| ==> IsSpace(s[i])
    ensures Words(s) == []
    decreases |s|
  {
    if s != [] {
      BlankHasNoWords(s[1..]);
    }
  }

  /** The validation view of a motor from the files and the remembered values. */
  function ViewOf(files: map<Path, string>, node: string, maxSpeed: Option<int>,
                  commands: Option<seq<string>>, stopActions: Option<seq<string>>): MotorView {
    MotorView(node, CachedInt(files, node, "max_speed", maxSpeed),
              CachedWords(files, node, "commands", commands),
              CachedWords(files, node, "stop_actions", stopActions))
  }

  /** The view depends on read-only attributes only. */
  lemma ViewOfSameReadOnly(f: map<Path, string>, g: map<Path, string>, node: string, maxSpeed: Option<int>,
                           commands: Option<seq<string>>, stopActions: Option<seq<string>>)
    requires SameReadOnly(f, g)
    ensures ViewOf(f, node, maxSpeed, commands, stopActions) == ViewOf(g, node, maxSpeed, commands, stopActions)
  {
    CachedIntSameReadOnly(f, g, node, "max_speed", maxSpeed);
    CachedWordsSameReadOnly(f, g, node, "commands", commands);
    CachedWordsSameReadOnly(f, g, node, "stop_actions", stopActions);
  }

  /** The requests were performed on the file system: their writes logged and applied, their outcome returned. */
  twostate predicate Performed(fs: FileSystem, reqs: seq<Req>, r: Outcome)
    reads fs
  {
    fs.log == old(fs.log) + Perform(reqs).writes &&
    fs.files == ApplyWrites(old(fs.files), Perform(reqs).writes) &&
    r == Perform(reqs).outcome
  }

  class Motor {
    const device: Device
    var countsCache: Option<int>
    var maxSpeedCache: Option<int>
    var stopActionsCache: Option<seq<string>>

    constructor (device: Device)
      ensures this.device == device
      ensures countsCache == None && maxSpeedCache == None && stopActionsCache == None
    {
      this.device := device;
      countsCache := None;
      maxSpeedCache := None;
      stopActionsCache := None;
    }

    function View(): MotorView
      reads this, device, device.fs
    {
      ViewOf(device.fs.files, device.node, maxSpeedCache, device.commandsCache, stopActionsCache)
    }

    /** What `counts_per_rotation` returns now: remembered, or read from the file. */
    function CountsPerRotationValue(): int
      reads this, device.fs
    {
      CachedInt(device.fs.files, device.node, "count_per_rot", countsCache)
    }

    function IntAttribute(name: string): int
      reads device.fs
    {
      IntOf(device.Read(name))
    }

    // Getters: `read_attribute(name).to_i` and friends.

    function DutyCycle(): int reads device.fs { IntAttribute("duty_cycle") }
    function DutyCycleSetpoint(): int reads device.fs { IntAttribute("duty_cycle_sp") }
    function Polarity(): Result<string> reads device.fs { SymbolOf(device.Read("polarity")) }
    function Position(): int reads device.fs { IntAttribute("position") }
    /** `position_setpoint` returns the attribute text itself, not a number. */
    function PositionSetpoint(): Option<string> reads device.fs { device.Read("position_sp") }
    function Speed(): int reads device.fs { IntAttribute("speed") }
    function SpeedSetpoint(): int reads device.fs { IntAttribute("speed_sp") }
    function RampUpSetpoint(): int reads device.fs { IntAttribute("ramp_up_sp") }
    function RampDownSetpoint(): int reads device.fs { IntAttribute("ramp_down_sp") }
    function StopAction(): Result<string> reads device.fs { SymbolOf(device.Read("stop_action")) }
    function TimeSetpoint(): int reads device.fs { IntAttribute("time_sp") }
    function CurrentStates(): Result<seq<string>> reads device.fs { StatesOf(device.Read("state")) }
    function Running(): Result<bool> reads device.fs { HasFlag(device.Read("state"), "running") }
    function Ramping(): Result<bool> reads device.fs { HasFlag(device.Read("state"), "ramping") }
    function Holding(): Result<bool> reads device.fs { HasFlag(device.Read("state"), "holding") }
    function Overloaded(): Result<bool> reads device.fs { HasFlag(device.Read("state"), "overloaded") }
    function Stalled(): Result<bool> reads device.fs { HasFlag(device.Read("state"), "stalled") }

    /** `stopped?` is `!running?`. */
    function Stopped(): (r: Result<bool>)
      reads device.fs
      ensures Running().Failure? ==> r == Running()
      ensures Running().Success? ==> r == Success(!Running().value)
    {
      match Running()
      case Failure(e) => Failure(e)
      case Success(b) => Success(!b)
    }

    /** `counts_per_rotation`: read on first use and remembered (0 included). */
    method CountsPerRotation() returns (n: int)
      modifies this
      ensures n == old(CountsPerRotationValue())
      ensures countsCache == Some(n)
      ensures maxSpeedCache == old(maxSpeedCache) && stopActionsCache == old(stopActionsCache)
    {
      if countsCache.None? {
        countsCache := Some(IntAttribute("count_per_rot"));
      }
      n := countsCache.value;
    }

    /** `max_speed`: read on first use and remembered (0 included). */
    method MaxSpeed() returns (n: int)
      modifies this
      ensures n == old(View()).maxSpeed
      ensures maxSpeedCache == Some(n)
      ensures countsCache == old(countsCache) && stopActionsCache == old(stopActionsCache)
    {
      if maxSpeedCache.None? {
        maxSpeedCache := Some(IntAttribute("max_speed"));
      }
      n := maxSpeedCache.value;
    }

    /** `stop_actions`: read on first use and remembered once read. */
    method StopActions() returns (r: Result<seq<string>>)
      modifies this
      ensures r == old(View()).stopActions
      ensures stopActionsCache == if r.Success? then Some(r.value) else old(stopActionsCache)
      ensures countsCache == old(countsCache) && maxSpeedCache == old(maxSpeedCache)
    {
      if stopActionsCache.None? {
        r := WordsOf(device.Read("stop_actions"));
        if r.Success? {
          stopActionsCache := Some(r.value);
        }
      } else {
        r := Success(stopActionsCache.value);
      }
    }

    /** One setter: validate against the view, then write the attribute. */
    method Apply(op: MotorOp) returns (r: Outcome)
      modifies this, device, device.fs
      ensures Performed(device.fs, [Req(old(View()), op)], r)
      ensures View() == old(View()) && countsCache == old(countsCache)
      ensures SameReadOnly(old(device.fs.files), device.fs.files)
      ensures device.addressCache == old(device.addressCache) && device.driverNameCache == old(device.driverNameCache)
    {
      var v := View();
      PerformOne(v, op);
      match op {
        case WriteSpeedSp(n) =>
          var max := MaxSpeed();
          r := if -1 * max <= n <= max then Pass else Fail(ArgumentError);
        case WriteStopAction(a) =>
          var actions := StopActions();
          r := MemberCheck(actions, a);
        case WriteCommand(c) =>
          r := device.SetCommand(c);
        case _ =>
          r := Check(v, op);
      }
      if r.Pass? && !op.WriteCommand? {
        device.WriteAttribute(AttributeOf(op), TextOf(op));
      }
      assert device.fs.files == ApplyWrites(old(device.fs.files), Perform([Req(v, op)]).writes);
      ApplyWritesKeepsReadOnly(old(device.fs.files), Perform([Req(v, op)]).writes);
      ViewOfSameReadOnly(old(device.fs.files), device.fs.files, device.node, maxSpeedCache, device.commandsCache, stopActionsCache);
    }

    /** Two setters in a row, the second only when the first passed. */
    method ApplyTwo(first: MotorOp, second: MotorOp) returns (r: Outcome)
      modifies this, device, device.fs
      ensures Performed(device.fs, [Req(old(View()), first), Req(old(View()), second)], r)
      ensures View() == old(View()) && countsCache == old(countsCache)
      ensures SameReadOnly(old(device.fs.files), device.fs.files)
      ensures device.addressCache == old(device.addressCache) && device.driverNameCache == old(device.driverNameCache)
    {
      ghost var v := View();
      ghost var log0, files0 := device.fs.log, device.fs.files;
      r := Apply(first);
      ghost var log1, files1 := device.fs.log, device.fs.files;
      if r.Pass? {
        r := Apply(second);
        SameReadOnlyTransitive(files0, files1, device.fs.files);
      }
      PerformTwo(Req(v, first), Req(v, second));
      DidThen(log0, files0, log1, files1, device.fs.log, device.fs.files, Perform([Req(v, first)]), Perform([Req(v, second)]));
    }

    method SetDutyCycleSetpoint(value: int) returns (r: Outcome)
      modifies this, device, device.fs
      ensures Performed(device.fs, [Req(old(View()), WriteDutyCycleSp(value))], r)
      ensures View() == old(View()) && countsCache == old(countsCache)
      ensures SameReadOnly(old(device.fs.files), device.fs.files)
      ensures device.addressCache == old(device.addressCache) && device.driverNameCache == old(device.driverNameCache)
    {
      r := Apply(WriteDutyCycleSp(value));
    }

    method SetPolarity(value: string) returns (r: Outcome)
      modifies this, device, device.fs
      ensures Performed(device.fs, [Req(old(View()), WritePolarity(value))], r)
      ensures View() == old(View()) && countsCache == old(countsCache)
      ensures SameReadOnly(old(device.fs.files), device.fs.files)
      ensures device.addressCache == old(device.addressCache) && device.driverNameCache == old(device.driverNameCache)
    {
      r := Apply(WritePolarity(value));
    }

    method SetPosition(value: int) returns (r: Outcome)
      modifies this, device, device.fs
      ensures Performed(device.fs, [Req(old(View()), WritePosition(value))], r)
      ensures View() == old(View()) && countsCache == old(countsCache)
      ensures SameReadOnly(old(device.fs.files), device.fs.files)
      ensures device.addressCache == old(device.addressCache) && device.driverNameCache == old(device.driverNameCache)
    {
      r := Apply(WritePosition(value));
    }

    method SetPositionSetpoint(value: int) returns (r: Outcome)
      modifies this, device, device.fs
      ensures Performed(device.fs, [Req(old(View()), WritePositionSp(value))], r)
      ensures View() == old(View()) && countsCache == old(countsCache)
      ensures SameReadOnly(old(device.fs.files), device.fs.files)
      ensures device.addressCache == old(device.addressCache) && device.driverNameCache == old(device.driverNameCache)
    {
      r := Apply(WritePositionSp(value));
    }

    method SetSpeedSetpoint(value: int) returns (r: Outcome)
      modifies this, device, device.fs
      ensures Performed(device.fs, [Req(old(View()), WriteSpeedSp(value))], r)
      ensures View() == old(View()) && countsCache == old(countsCache)
      ensures SameReadOnly(old(device.fs.files), device.fs.files)
      ensures device.addressCache == old(device.addressCache) && device.driverNameCache == old(device.driverNameCache)
    {
      r := Apply(WriteSpeedSp(value));
    }

    method SetRampUpSetpoint(value: int) returns (r: Outcome)
      modifies this, device, device.fs
      ensures Performed(device.fs, [Req(old(View()), WriteRampUpSp(value))], r)
      ensures View() == old(View()) && countsCache == old(countsCache)
      ensures SameReadOnly(old(device.fs.files), device.fs.files)
      ensures device.addressCache == old(device.addressCache) && device.driverNameCache == old(device.driverNameCache)
    {
      r := Apply(WriteRampUpSp(value));
    }

    method SetRampDownSetpoint(value: int) returns (r: Outcome)
      modifies this, device, device.fs
      ensures Performed(device.fs, [Req(old(View()), WriteRampDownSp(value))], r)
      ensures View() == old(View()) && countsCache == old(countsCache)
      ensures SameReadOnly(old(device.fs.files), device.fs.files)
      ensures device.addressCache == old(device.addressCache) && device.driverNameCache == old(device.driverNameCache)
    {
      r := Apply(WriteRampDownSp(value));
    }

    method SetStopAction(value: string) returns (r: Outcome)
      modifies this, device, device.fs
      ensures Performed(device.fs, [Req(old(View()), WriteStopAction(value))], r)
      ensures View() == old(View()) && countsCache == old(countsCache)
      ensures SameReadOnly(old(device.fs.files), device.fs.files)
      ensures device.addressCache == old(device.addressCache) && device.driverNameCache == old(device.driverNameCache)
    {
      r := Apply(WriteStopAction(value));
    }

    method SetTimeSetpoint(value: int) returns (r: Outcome)
      modifies this, device, device.fs
      ensures Performed(device.fs, [Req(old(View()), WriteTimeSp(value))], r)
      ensures View() == old(View()) && countsCache == old(countsCache)
      ensures SameReadOnly(old(device.fs.files), device.fs.files)
      ensures device.addressCache == old(device.addressCache) && device.driverNameCache == old(device.driverNameCache)
    {
      r := Apply(WriteTimeSp(value));
    }

    /** `run!(speed)`. */
    method Run(speed: Option<int>) returns (r: Outcome)
      modifies this, device, device.fs
      ensures Performed(device.fs, RunRequests(old(View()), speed), r)
      ensures View() == old(View()) && countsCache == old(countsCache)
      ensures SameReadOnly(old(device.fs.files), device.fs.files)
      ensures device.addressCache == old(device.addressCache) && device.driverNameCache == old(device.driverNameCache)
    {
      var v := View();
      if speed.Some? {
        assert RunRequests(v, speed) == [Req(v, WriteSpeedSp(speed.value)), Req(v, WriteCommand("run-forever"))];
        r := ApplyTwo(WriteSpeedSp(speed.value), WriteCommand("run-forever"));
      } else {
        assert RunRequests(v, speed) == [Req(v, WriteCommand("run-forever"))];
        r := Apply(WriteCommand("run-forever"));
      }
    }

    /** `run_for!(time)`. */
    method RunFor(time: int) returns (r: Outcome)
      modifies this, device, device.fs
      ensures Performed(device.fs, SetThenCommand(old(View()), WriteTimeSp(time), "run-timed"), r)
      ensures View() == old(View()) && countsCache == old(countsCache)
      ensures SameReadOnly(old(device.fs.files), device.fs.files)
      ensures device.addressCache == old(device.addressCache) && device.driverNameCache == old(device.driverNameCache)
    {
      r := ApplyTwo(WriteTimeSp(time), WriteCommand("run-timed"));
    }

    /** `run_to_absolute_position!(position)`. */
    method RunToAbsolutePosition(position: int) returns (r: Outcome)
      modifies this, device, device.fs
      ensures Performed(device.fs, SetThenCommand(old(View()), WritePositionSp(position), "run-to-abs-pos"), r)
      ensures View() == old(View()) && countsCache == old(countsCache)
      ensures SameReadOnly(old(device.fs.files), device.fs.files)
      ensures device.addressCache == old(device.addressCache) && device.driverNameCache == old(device.driverNameCache)
    {
      r := ApplyTwo(WritePositionSp(position), WriteCommand("run-to-abs-pos"));
    }

    /** `run_by!(counts)`. */
    method RunBy(counts: int) returns (r: Outcome)
      modifies this, device, device.fs
      ensures Performed(device.fs, SetThenCommand(old(View()), WritePositionSp(counts), "run-to-rel-pos"), r)
      ensures View() == old(View()) && countsCache == old(countsCache)
      ensures SameReadOnly(old(device.fs.files), device.fs.files)
      ensures device.addressCache == old(device.addressCache) && device.driverNameCache == old(device.driverNameCache)
    {
      r := ApplyTwo(WritePositionSp(counts), WriteCommand("run-to-rel-pos"));
    }

    /** `run_directly!(duty_cycle)`. */
    method RunDirectly(dutyCycle: Option<int>) returns (r: Outcome)
      modifies this, device, device.fs
      ensures Performed(device.fs, RunDirectlyRequests(old(View()), dutyCycle), r)
      ensures View() == old(View()) && countsCache == old(countsCache)
      ensures SameReadOnly(old(device.fs.files), device.fs.files)
      ensures device.addressCache == old(device.addressCache) && device.driverNameCache == old(device.driverNameCache)
    {
      var v := View();
      if dutyCycle.Some? {
        assert RunDirectlyRequests(v, dutyCycle) == [Req(v, WriteDutyCycleSp(dutyCycle.value)), Req(v, WriteCommand("run-direct"))];
        r := ApplyTwo(WriteDutyCycleSp(dutyCycle.value), WriteCommand("run-direct"));
      } else {
        assert RunDirectlyRequests(v, dutyCycle) == [Req(v, WriteCommand("run-direct"))];
        r := Apply(WriteCommand("run-direct"));
      }
    }

    /** `stop!`. */
    method Stop() returns (r: Outcome)
      modifies this, device, device.fs
      ensures Performed(device.fs, [Req(old(View()), WriteCommand("stop"))], r)
      ensures View() == old(View()) && countsCache == old(countsCache)
      ensures SameReadOnly(old(device.fs.files), device.fs.files)
      ensures device.addressCache == old(device.addressCache) && device.driverNameCache == old(device.driverNameCache)
    {
      r := Apply(WriteCommand("stop"));
    }

    /** `reset!`. */
    method Reset() returns (r: Outcome)
      modifies this, device, device.fs
      ensures Performed(device.fs, [Req(old(View()), WriteCommand("reset"))], r)
      ensures View() == old(View()) && countsCache == old(countsCache)
      ensures SameReadOnly(old(device.fs.files), device.fs.files)
      ensures device.addressCache == old(device.addressCache) && device.driverNameCache == old(device.driverNameCache)
    {
      r := Apply(WriteCommand("reset"));
    }
  }

  /** A setpoint written by its setter reads back through its getter as the value given. */
  lemma SetpointReadsBack(files: map<Path, string>, v: MotorView, op: MotorOp)
    requires op.WriteDutyCycleSp? || op.WritePosition? || op.WriteSpeedSp? || op.WriteRampUpSp? ||
             op.WriteRampDownSp? || op.WriteTimeSp?
    requires Check(v, op).Pass?
    ensures IntOf(ReadAttribute(ApplyWrites(files, Perform([Req(v, op)]).writes), v.node, AttributeOf(op), false)) == op.n
  {
    PerformOne(v, op);
    assert ApplyWrites(files, [OpWrite(v.node, op)]) == files[Path(v.node, AttributeOf(op)) := IntToString(op.n)] by {
      assert [OpWrite(v.node, op)][..0] == [];
    }
    IntReadsBack(files, v.node, AttributeOf(op), op.n);
  }
}
