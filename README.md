# mruby-ev3 in Dafny

A model of the `Ev3` library of mruby-ev3, with proofs about it. The library
drives a LEGO EV3 brick running ev3dev from mruby. Every device is a sysfs
directory of attribute files. The library reads and writes those files: the
tacho motors, the sensors (generic, colour, touch), the built-in status LEDs,
the battery, the board information, and a list of devices keyed by port
address. On top of the motors sits `MovementController`, which drives a robot
with two wheels. It can drive with a power and a turn direction, drive a
distance, turn by a gyro angle, stop, and wait until the motors have stopped.

## How the model is built

- **Files** (`sysfs.dfy`). One `FileSystem` object holds a map from
  (directory, attribute) to file contents and a log of every write, in order,
  across all devices. With a single log, orderings such as "both speed
  setpoints before any run command" or "left motor's `stop` before the right
  one's" are statements about one sequence. Changes the hardware makes on its
  own, such as a new gyro angle or new motor state flags, are `Tick`s. A tick
  changes a file but is not a write of the library. Attributes the library
  only reads (`max_speed`, `commands`, `modes`, `num_values`, `decimals` and
  so on) are never written and never ticked. There is one exception. After a
  mode is selected, a sensor's driver publishes that mode's `num_values`,
  `decimals` and `value<n>` files. The model does this with
  `Sensors.Sensor.Publish`, which changes files without logging a write.
- **Sensor readings** (`sensor.dfy`, `color.dfy`). The readings a driver
  publishes for a mode are a `Readings` value: the count of values, the
  decimals and the raw integers. The colour operations take these readings
  as a parameter. They publish them right after the mode switch, so every
  `value(n)` the operation then reads is one of the new mode's values.
- **Devices** (`device.dfy`, `motor.dfy`, `sensor.dfy`, `led.dfy`,
  `board_info.dfy`). Each is a class. It has a reference to the shared file
  system and fields for the values Ruby remembers with `@x ||= ...`. A `nil`
  read is not remembered, and is read again next time. `0` and `[]` are
  remembered. Each setter validates and then writes, or raises and writes
  nothing. Its contract gives the exact log and file map afterwards.
- **Motor requests** (`motor.dfy`). The setters and run operations of a motor
  are requests (`MotorOp`). `Check` is the validation of each request.
  `Perform` carries out a list of requests in order and stops at the first
  one that raises. It returns the writes made and the outcome. Every motor
  and controller method is proved to do exactly what `Perform` says on the
  shared file system.
- **Drive effects** (`drive.dfy`). `go`, `forward_by` and `stop` are
  described as effects: what each writes, in order, and how it ends.
  `turn_by` is a state machine over a finite sequence of gyro readings, one
  per `gyro.value(0)` call. `wait_for_stop` runs over a finite sequence of
  polls of the two motors' state files. Running out of readings or polls is
  its own outcome (`Unfinished`, `StillRunning`), so every loop is bounded.
- **Arithmetic** (`numbers.dfy`, `kinematics.dfy`). Ruby `Rational`s are
  Dafny `real`s; both are exact fractions. `Rational#round` rounds half away
  from zero. Ruby Integers are unbounded, like Dafny's `int`. `Integer#div`
  and `to_i` are written out (`text.dfy` holds `strip`, `split(' ')`,
  `split('=')`, `downcase`, `to_i` and `Integer#to_s`, as the library uses
  them).
- **Values** (`wrappers.dfy`). A Ruby exception is the failure case of a
  `Result` or an `Outcome`, named by its class (`ArgumentError`,
  `NoMethodError`, `RuntimeError`, `KeyError`, `TypeError`,
  `ZeroDivisionError`). A Symbol is modelled by its name.

Some behaviours of the code as written are kept, and stated as lemmas:

- The polarities are written before the counts-per-rotation check. A
  controller whose motors differ raises after those two writes.
- Of the two `target_angle` assignments in `turn_by`, the second one holds;
  it is keyed on the power's sign.
- `forward_by` does not range-check the power. A power of 150 or more asks
  for more than the controller's max speed. When the right motor sets that
  max speed, its speed validation raises before any write
  (`Drives.ForwardPowerUnchecked`). When the slower left motor sets it, the
  right motor may accept the speed. Its `speed_sp` is then written, and the
  left motor's validation raises after that write (`Drives.ForwardPowerPastLeft`).
- A zero `distance_per_rotation` or count per rotation divides by zero in
  `forward_by`, after the speed setpoints have been written.
- In a backward turn to the left (negative power, direction and angle),
  `anti_clockwise` holds and the target lies on the far side. The remaining
  distance therefore starts negative. The wait loop ends at its first
  reading, and the motors are stopped at the next one. Counting the initial
  `current_angle`, that is the third `gyro.value(0)` call
  (`Drives.BackwardLeftStopsAtOnce`).
- `COLORS_BY_CODE.fetch` needs the Integer key itself. A reading with
  decimals, such as the Rational 3/1, satisfies `green?` but makes `color`
  raise.

## Model

Some members have no row of their own, because the rows of other members
state what they mean:

- `Motors.Check` (the validation in each setter of `motors/generic.rb`): the
  `*Accepts` rows, `Motors.Perform` and `Motors.PerformFirstFailure`.
- `TouchSensors.Released` and `TouchSensors.Pressed`:
  `TouchSensors.ReleasedIffRawZero` and the other `TouchSensors` rows.
- `DeviceLists.Each`, which yields the stored entries in order:
  `DeviceLists.FromPairs` and `DeviceLists.Create`.
- `Batteries.Low`: `Batteries.LowReadsVoltageNow` and the other
  `Batteries` rows about `low?`.
- `Drives.GoEffect`, `Drives.ForwardEffect`, `Drives.TurnSpec` and
  `Drives.Turn`: the `Drives` lemmas about `go`, `forward_by` and `turn_by`,
  and the controller methods that are proved to do these effects.
- `Leds.BuiltIn.Green` and `Leds.BuiltIn.Red`, which read `brightness`:
  `Leds.BuiltIn.ReadAttributeFrom` and `Leds.BrightnessReadsBack`.
- `Leds.DeviceNodeFor` (`device_node_for`): `Leds.DeviceNodeExample` and
  `Leds.DeviceNodeInjective`.
- `Kinematics.LeftSpeed` and `Kinematics.RightSpeed` (`left_speed_for`,
  `right_speed_for`): `Kinematics.WheelSpeeds`, `Kinematics.TurnMirror`,
  `Kinematics.StraightSpeeds`, `Kinematics.SpinOnTheSpot` and
  `Kinematics.WheelSpeedsWithin`.
- `Kinematics.ForwardSpeed` (`power_to_speed(power).round`):
  `Kinematics.PowerToSpeedWithin`, `Drives.ForwardSpeedPastMax` and
  `Kinematics.ForwardByExample`.
- `Kinematics.DistancePerCount` and `Kinematics.Counts` (the quotient and the
  rounded counts of `forward_by`): `Kinematics.CountsClosedForm`,
  `Kinematics.CountsOfOneRotation`, `Kinematics.ForwardByExample` and
  `Drives.DistancePerCountFor`.
- `Motors.Motor.CurrentStates`, `Running`, `Ramping`, `Holding`,
  `Overloaded` and `Stalled`, each the words of `state` or a flag among them
  for the motor's own directory: `Motors.HasFlag`, `Motors.FlagsOfState`,
  `Motors.BlankStateNotRunning` and `Motors.Motor.Stopped`.
- `Sensors.Sensor.Value`, `Values` and `PollMs`, each the matching function
  on the sensor's own files, whose rows state them: `Sensors.ValueIn`,
  `Sensors.ValuesIn` and `Sensors.PollMsIn`.

| member | source | states |
|---|---|---|
| `Devices.ReadAttribute` | mruby-ev3/mrblib/ev3/a_device.rb:43-53 | nil exactly when the file is missing; otherwise the contents, stripped when no options are given and raw when they are |
| `Devices.WordsOf` | mruby-ev3/mrblib/ev3/a_device.rb:32-34 | `split(' ')` of a missing attribute raises NoMethodError, and of a present one succeeds |
| `Devices.SymbolOf` | mruby-ev3/mrblib/ev3/motors/generic.rb:29-31 | `to_sym` of a missing attribute raises NoMethodError, and of a present one succeeds |
| `Devices.MemberCheck` | mruby-ev3/mrblib/ev3/a_device.rb:24-28 | the list's own error when it cannot be read; otherwise pass exactly when the value is in the list, ArgumentError when it is not |
| `Devices.CachedWordsOfJoin` | mruby-ev3/mrblib/ev3/a_device.rb:32-34 | a list attribute written as space-separated names reads back as exactly those names |
| `Devices.IntReadsBack` | mruby-ev3/mrblib/ev3/a_device.rb:43-57 | an integer written with `to_s` reads back through `read_attribute(...).to_i` as the same integer |
| `Devices.Device.constructor` | mruby-ev3/mrblib/ev3/a_device.rb:8-10 | the device node is the given directory and nothing is remembered yet |
| `Devices.Device.WriteAttribute` | mruby-ev3/mrblib/ev3/a_device.rb:55-57 | the file `<node>/<name>` is replaced by the value and the write is logged; nothing else changes |
| `Devices.Device.Address` | mruby-ev3/mrblib/ev3/a_device.rb:13-15 | the remembered address, or a fresh read that is then remembered (a missing file is read again next time) |
| `Devices.Device.DriverName` | mruby-ev3/mrblib/ev3/a_device.rb:37-39 | the remembered driver name, or a fresh read that is then remembered |
| `Devices.Device.CommandList` | mruby-ev3/mrblib/ev3/a_device.rb:32-34 | the remembered commands, or the split `commands` file, remembered once read |
| `Devices.Device.SetCommand` | mruby-ev3/mrblib/ev3/a_device.rb:24-29 | `command=` and `send_command`: writes `command` exactly when the command is listed; otherwise raises and writes nothing |
| `Motors.Perform` | mruby-ev3/mrblib/ev3/motors/generic.rb:187-238 | a sequence of requests passes exactly when every validation passes; it then makes exactly their writes, in order; it never writes more than one file per request |
| `Motors.PerformAllPass` | mruby-ev3/mrblib/ev3/motors/generic.rb:187-228 | when every validation passes, every request writes, in order, and the whole sequence passes |
| `Motors.PerformFirstFailure` | mruby-ev3/mrblib/ev3/motors/generic.rb:187-228 | the first failing validation ends the sequence with its error, after exactly the writes of the requests before it |
| `Motors.SpeedSetpointAccepts` | mruby-ev3/mrblib/ev3/motors/generic.rb:88-92 | `speed_setpoint=` writes every value in -max_speed..max_speed and raises ArgumentError, without a write, for every other value |
| `Motors.DutyCycleSetpointAccepts` | mruby-ev3/mrblib/ev3/motors/generic.rb:22-26 | `duty_cycle_setpoint=` writes exactly the values in -100..100 and raises ArgumentError, without a write, otherwise |
| `Motors.PolarityAccepts` | mruby-ev3/mrblib/ev3/motors/generic.rb:36-40 | `polarity=` writes exactly `normal` and `inversed` and raises ArgumentError, without a write, otherwise |
| `Motors.NonNegativeSetpointsAccept` | mruby-ev3/mrblib/ev3/motors/generic.rb:100-116 | ramp-up, ramp-down and (at generic.rb:178-182) time setpoints pass exactly for values >= 0, zero included; a negative one raises without a write |
| `Motors.ListedValuesAccept` | mruby-ev3/mrblib/ev3/motors/generic.rb:162-166 | `stop_action=` and `command=` pass exactly for members of their lists, and a failure writes nothing |
| `Motors.SetThenCommandEffect` | mruby-ev3/mrblib/ev3/motors/generic.rb:196-218 | a run operation writes its setpoint and then its command; a rejected setpoint raises before any write, a rejected command after the setpoint write |
| `Motors.HasFlag` | mruby-ev3/mrblib/ev3/motors/generic.rb:119-141 | a state predicate raises exactly when the `state` file is missing |
| `Motors.FlagsOfState` | mruby-ev3/mrblib/ev3/motors/generic.rb:119-141 | for a state written as space-separated flags, each predicate holds exactly when its flag is among them |
| `Motors.BlankStateNotRunning` | mruby-ev3/mrblib/ev3/motors/generic.rb:123-125 | an empty or blank state means not running |
| `Motors.SetpointReadsBack` | mruby-ev3/mrblib/ev3/motors/generic.rb:79-92 | an accepted integer setpoint (duty cycle, position, position or speed setpoint, ramps, time) reads back through its getter as the value given |
| `Motors.Motor.constructor` | mruby-ev3/mrblib/ev3/a_device.rb:8-10 | a motor on the given device with nothing remembered |
| `Motors.Motor.Stopped` | mruby-ev3/mrblib/ev3/motors/generic.rb:143-145 | `stopped?` is the negation of `running?`, and raises when it raises |
| `Motors.Motor.CountsPerRotation` | mruby-ev3/mrblib/ev3/motors/generic.rb:5-7 | read on first use and remembered from then on, 0 included |
| `Motors.Motor.MaxSpeed` | mruby-ev3/mrblib/ev3/motors/generic.rb:57-59 | read on first use and remembered from then on, 0 included |
| `Motors.Motor.StopActions` | mruby-ev3/mrblib/ev3/motors/generic.rb:148-150 | the remembered stop actions, or the split file, remembered once read |
| `Motors.Motor.SetDutyCycleSetpoint` | mruby-ev3/mrblib/ev3/motors/generic.rb:22-26 | performs exactly its validated `duty_cycle_sp` write on the file system; the validation view and the read-only files stay as they were |
| `Motors.Motor.SetPolarity` | mruby-ev3/mrblib/ev3/motors/generic.rb:36-40 | performs exactly its validated `polarity` write; view and read-only files unchanged |
| `Motors.Motor.SetPosition` | mruby-ev3/mrblib/ev3/motors/generic.rb:48-50 | writes `position` unconditionally; view and read-only files unchanged |
| `Motors.Motor.SetPositionSetpoint` | mruby-ev3/mrblib/ev3/motors/generic.rb:69-71 | writes `position_sp` unconditionally; view and read-only files unchanged |
| `Motors.Motor.SetSpeedSetpoint` | mruby-ev3/mrblib/ev3/motors/generic.rb:88-92 | performs exactly its validated `speed_sp` write; view and read-only files unchanged |
| `Motors.Motor.SetRampUpSetpoint` | mruby-ev3/mrblib/ev3/motors/generic.rb:100-104 | performs exactly its validated `ramp_up_sp` write |
| `Motors.Motor.SetRampDownSetpoint` | mruby-ev3/mrblib/ev3/motors/generic.rb:112-116 | performs exactly its validated `ramp_down_sp` write |
| `Motors.Motor.SetStopAction` | mruby-ev3/mrblib/ev3/motors/generic.rb:162-166 | performs exactly its `stop_action` write, validated against the remembered stop actions |
| `Motors.Motor.SetTimeSetpoint` | mruby-ev3/mrblib/ev3/motors/generic.rb:178-182 | performs exactly its validated `time_sp` write |
| `Motors.Motor.Run` | mruby-ev3/mrblib/ev3/motors/generic.rb:187-191 | the speed setpoint only when a speed is given, then `run-forever`; stops at the first failure |
| `Motors.Motor.RunFor` | mruby-ev3/mrblib/ev3/motors/generic.rb:196-200 | the time setpoint, then `run-timed` |
| `Motors.Motor.RunToAbsolutePosition` | mruby-ev3/mrblib/ev3/motors/generic.rb:205-209 | the position setpoint, then `run-to-abs-pos` |
| `Motors.Motor.RunBy` | mruby-ev3/mrblib/ev3/motors/generic.rb:214-218 | the position setpoint, then `run-to-rel-pos` |
| `Motors.Motor.RunDirectly` | mruby-ev3/mrblib/ev3/motors/generic.rb:224-228 | the duty cycle setpoint only when one is given, then `run-direct` |
| `Motors.Motor.Stop` | mruby-ev3/mrblib/ev3/motors/generic.rb:231-233 | only the `stop` command |
| `Motors.Motor.Reset` | mruby-ev3/mrblib/ev3/motors/generic.rb:236-238 | only the `reset` command |
| `Sensors.Power10` | mruby-ev3/mrblib/ev3/sensors/generic.rb:70 | 10**decimals is a positive exact number, for negative exponents too |
| `Sensors.Scaled` | mruby-ev3/mrblib/ev3/sensors/generic.rb:69-71 | the raw Integer itself exactly when decimals is 0, and a Rational otherwise |
| `Sensors.ScaledInverse` | mruby-ev3/mrblib/ev3/sensors/generic.rb:70 | scaling is exact: the value times 10**decimals is the raw reading |
| `Sensors.ScaledZero` | mruby-ev3/mrblib/ev3/sensors/generic.rb:69-71 | a scaled value is zero exactly when its raw reading is |
| `Sensors.ValueIn` | mruby-ev3/mrblib/ev3/sensors/generic.rb:66-72 | ArgumentError exactly when number >= num_values; otherwise the scaled integer of `value<number>` |
| `Sensors.ValuesIn` | mruby-ev3/mrblib/ev3/sensors/generic.rb:78-80 | num_values elements (none for a negative count), element i being `value(i)` |
| `Sensors.PollMsReadsBack` | mruby-ev3/mrblib/ev3/sensors/generic.rb:50-54 | an empty `poll_ms` reads as nil, and one written as an integer reads as that integer |
| `Sensors.ValueReadsBack` | mruby-ev3/mrblib/ev3/sensors/generic.rb:66-72 | a raw reading published in `value<n>` comes back from `value(n)`, scaled by the unchanged decimals |
| `Sensors.ValueInUnchanged` | mruby-ev3/mrblib/ev3/sensors/generic.rb:66-72 | `value(n)` depends only on `num_values`, `decimals` and `value<n>` |
| `Sensors.ModeSwitch` | mruby-ev3/mrblib/ev3/sensors/color.rb:33 | `self.mode = m unless mode == m`: passes without validating when already in mode m, otherwise validates against `modes` |
| `Sensors.PublishedValue` | mruby-ev3/mrblib/ev3/sensors/generic.rb:66-72 | after the driver publishes readings, `value(n)` raises ArgumentError exactly when n is not below their count, and is otherwise the n-th published raw value scaled by their decimals; for an n below the count with no value published, it is the old `value<n>` file scaled by the new decimals |
| `Sensors.PublishedKeeps` | mruby-ev3/mrblib/ev3/sensors/generic.rb:22-42 | publishing readings leaves the `mode` and `modes` files as they were |
| `Sensors.Sensor.Publish` | mruby-ev3/mrblib/ev3/sensors/color.rb:33-35 | the driver replaces `num_values`, `decimals` and the published `value<n>` files, unlogged |
| `Sensors.PollMsIn` | mruby-ev3/mrblib/ev3/sensors/generic.rb:50-54 | NoMethodError exactly when `poll_ms` is missing; nil exactly when its stripped text is empty; otherwise `to_i` of that text |
| `Sensors.ModeReadsBack` | mruby-ev3/mrblib/ev3/sensors/generic.rb:22-37 | after a mode write, `mode` reads that mode (for a name without surrounding whitespace) |
| `Sensors.Sensor.constructor` | mruby-ev3/mrblib/ev3/a_device.rb:8-10 | a sensor on the given device with no modes remembered |
| `Sensors.Sensor.Modes` | mruby-ev3/mrblib/ev3/sensors/generic.rb:40-42 | the remembered modes, or the split `modes` file, remembered once read |
| `Sensors.Sensor.SetMode` | mruby-ev3/mrblib/ev3/sensors/generic.rb:33-41 | writes `mode` exactly when the value is among `modes`; otherwise raises and writes nothing; `modes` is remembered once read |
| `Sensors.Sensor.EnsureMode` | mruby-ev3/mrblib/ev3/sensors/color.rb:33 | writes the mode only when the current mode differs, and then only a listed one; `modes` is read and remembered only in that case |
| `ColorSensors.ColorTablesInverse` | mruby-ev3/mrblib/ev3/sensors/color.rb:8-19 | COLORS_BY_CODE has the keys 0..7 and is the exact inverse of COLORS in both directions, so there are eight names with distinct codes |
| `ColorSensors.ColorCodesInjective` | mruby-ev3/mrblib/ev3/sensors/color.rb:8-17 | distinct colour names have distinct codes |
| `ColorSensors.FetchColor` | mruby-ev3/mrblib/ev3/sensors/color.rb:35 | succeeds exactly for an Integer reading that is a known code; otherwise KeyError |
| `ColorSensors.IsColor` | mruby-ev3/mrblib/ev3/sensors/color.rb:21-27 | RuntimeError unless in COL-COLOR mode; then `value(0)`'s error, or whether the reading equals the name's code by value |
| `ColorSensors.AtMostOneColor` | mruby-ev3/mrblib/ev3/sensors/color.rb:21-27 | when one `name?` holds, every other one answers false |
| `ColorSensors.FetchColorAgrees` | mruby-ev3/mrblib/ev3/sensors/color.rb:21-36 | on an Integer reading, `color` names exactly the colour whose predicate compares equal |
| `ColorSensors.FetchColorCodes` | mruby-ev3/mrblib/ev3/sensors/color.rb:35 | `color` succeeds exactly on the Integer codes 0..7, and its name's code is the reading |
| `ColorSensors.RationalReadingDisagrees` | mruby-ev3/mrblib/ev3/sensors/color.rb:25-35 | the Rational 3/1 equals green's code by value, yet `fetch` raises KeyError on it |
| `ColorSensors.AfterSwitch` | mruby-ev3/mrblib/ev3/sensors/color.rb:33-35 | a failed mode switch raises before the read; a passed one returns the read |
| `ColorSensors.RgbIn` | mruby-ev3/mrblib/ev3/sensors/color.rb:63 | ArgumentError with fewer than three values; otherwise red, green and blue are value(0), value(1) and value(2) |
| `ColorSensors.SwitchMode` | mruby-ev3/mrblib/ev3/sensors/color.rb:33 | the mode is written only when it differs and is listed; after a switch that passes, the driver's readings for that mode are published; the log, files and remembered modes afterwards |
| `ColorSensors.Color` | mruby-ev3/mrblib/ev3/sensors/color.rb:32-36 | switches to COL-COLOR when needed; then the colour name of the first COL-COLOR reading, or ArgumentError when that mode publishes no values; the log, files and remembered modes afterwards |
| `ColorSensors.AmbientLight` | mruby-ev3/mrblib/ev3/sensors/color.rb:41-45 | switches to COL-AMBIENT when needed; then the first COL-AMBIENT reading, scaled, or ArgumentError when that mode publishes no values; the state afterwards |
| `ColorSensors.ReflectedLight` | mruby-ev3/mrblib/ev3/sensors/color.rb:50-54 | switches to COL-REFLECT when needed; then the first COL-REFLECT reading, scaled, or ArgumentError when that mode publishes no values; the state afterwards |
| `ColorSensors.ReadRgb` | mruby-ev3/mrblib/ev3/sensors/color.rb:60-64 | switches to RGB-RAW when needed; then the first three RGB-RAW readings, scaled, or ArgumentError when that mode publishes fewer than three; the state afterwards |
| `TouchSensors.ReleasedIffRawZero` | mruby-ev3/mrblib/ev3/sensors/touch.rb:5-11 | with a value present, released exactly when the raw value0 is zero (whatever the decimals) and pressed exactly when it is not |
| `TouchSensors.NoValuesRaises` | mruby-ev3/mrblib/ev3/sensors/touch.rb:5-11 | without any value both predicates raise the ArgumentError of the bound check |
| `TouchSensors.ExactlyOneHolds` | mruby-ev3/mrblib/ev3/sensors/touch.rb:9-11 | both predicates answer together, and then exactly one is true |
| `Leds.DeviceNodeExample` | mruby-ev3/mrblib/ev3/leds/built_in.rb:23-25 | LED 0's green node under /sys/class/leds is `/sys/class/leds/led0:green:brick-status` |
| `Leds.DeviceNodeInjective` | mruby-ev3/mrblib/ev3/leds/built_in.rb:23-25 | different colours of one LED have different device nodes |
| `Leds.ValidColorDefinition` | mruby-ev3/mrblib/ev3/leds/built_in.rb:63-66 | a Symbol is valid exactly when it is in COLORS (an unknown one fails indexing with NoMethodError); a Hash is valid exactly when both levels are in 0..100 |
| `Leds.LedColorsValid` | mruby-ev3/mrblib/ev3/leds/built_in.rb:4-11 | every COLORS entry has both levels within 0..100 |
| `Leds.AbsoluteBrightness` | mruby-ev3/mrblib/ev3/leds/built_in.rb:72-74 | fails with TypeError exactly when the maximum is nil |
| `Leds.AbsoluteBrightnessRange` | mruby-ev3/mrblib/ev3/leds/built_in.rb:72-74 | 0 maps to 0, 100 maps to the maximum, every level stays within 0..max and order is kept |
| `Leds.BrightnessEffect` | mruby-ev3/mrblib/ev3/leds/built_in.rb:92-96 | ArgumentError before any write outside 0..100; TypeError for a nil maximum; otherwise one write of the absolute brightness to `brightness` |
| `Leds.OnEffect` | mruby-ev3/mrblib/ev3/leds/built_in.rb:45-51 | nothing is written unless the whole definition is valid; an out-of-range Hash level raises ArgumentError |
| `Leds.OnNamedWrites` | mruby-ev3/mrblib/ev3/leds/built_in.rb:45-51 | `on(:name)` writes the table's red level, then its green level |
| `Leds.BuiltIn.constructor` | mruby-ev3/mrblib/ev3/leds/built_in.rb:17-21 | base path and number as given, no maximum remembered |
| `Leds.BuiltIn.ReadAttributeFrom` | mruby-ev3/mrblib/ev3/leds/built_in.rb:76-84 | nil exactly when the attribute file of that colour is missing, otherwise `to_i` of its stripped text |
| `Leds.BrightnessReadsBack` | mruby-ev3/mrblib/ev3/leds/built_in.rb:76-96 | a brightness that `green=` or `red=` accepts reads back from the `brightness` file as its absolute brightness |
| `Leds.BuiltIn.MaxBrightnessFor` | mruby-ev3/mrblib/ev3/leds/built_in.rb:35-39 | read once per colour and remembered, nil included |
| `Leds.BuiltIn.SetBrightnessOn` | mruby-ev3/mrblib/ev3/leds/built_in.rb:92-96 | performs exactly the brightness effect on the colour's node; no maximum, remembered or readable, changes |
| `Leds.BuiltIn.SetGreen` | mruby-ev3/mrblib/ev3/leds/built_in.rb:31-33 | the brightness effect on the green node |
| `Leds.BuiltIn.SetRed` | mruby-ev3/mrblib/ev3/leds/built_in.rb:57-59 | the brightness effect on the red node |
| `Leds.BuiltIn.Off` | mruby-ev3/mrblib/ev3/leds/built_in.rb:41-43 | green 0, then red 0, the second only when the first passed |
| `Leds.BuiltIn.On` | mruby-ev3/mrblib/ev3/leds/built_in.rb:45-51 | performs exactly the effect of `on`: validation first, then red, then green |
| `Batteries.Div10` | mruby-ev3/mrblib/ev3/battery.rb:26 | Integer#div(10) rounds towards minus infinity |
| `Batteries.DesignVoltage` | mruby-ev3/mrblib/ev3/battery.rb:25-32 | `maximum_voltage` and `minimum_voltage`: the design attribute divided by 10, rounded down |
| `Batteries.LowFor` | mruby-ev3/mrblib/ev3/battery.rb:43-53 | RuntimeError exactly when max or min is zero; otherwise low exactly when voltage < min + (max - min) * 15/100, exactly |
| `Batteries.AtThresholdNotLow` | mruby-ev3/mrblib/ev3/battery.rb:52 | a voltage at the threshold is not low and one just below it is |
| `Batteries.LowMonotone` | mruby-ev3/mrblib/ev3/battery.rb:48-52 | low at a voltage means low at every smaller voltage |
| `Batteries.LowBetweenBounds` | mruby-ev3/mrblib/ev3/battery.rb:48-52 | for min < max, the minimum is low and the maximum is not |
| `Batteries.LowReadsVoltageNow` | mruby-ev3/mrblib/ev3/battery.rb:43-53 | `low?` compares the present voltage against bounds read from the design files |
| `Batteries.Technology` | mruby-ev3/mrblib/ev3/battery.rb:19-21 | NoMethodError exactly when the file is missing; otherwise the stripped text, as long as it and without upper-case letters |
| `Batteries.TechnologyOfLowerCase` | mruby-ev3/mrblib/ev3/battery.rb:19-21 | a lower-case name is returned as it is |
| `BoardInfos.Unprefixed` | mruby-ev3/mrblib/ev3/board_info.rb:49 | the stripped line loses `BOARD_INFO_` when it starts with it, and only then |
| `BoardInfos.UnprefixedOf` | mruby-ev3/mrblib/ev3/board_info.rb:49 | a prefixed line without surrounding whitespace loses exactly the prefix |
| `BoardInfos.ParseLine` | mruby-ev3/mrblib/ev3/board_info.rb:49-53 | the lower-cased first `=` piece and the second piece (nil when missing); NoMethodError when there is no first piece |
| `BoardInfos.PairOf` | mruby-ev3/mrblib/ev3/board_info.rb:49-51 | the key is the lower-cased first piece; the value is the second piece when there is one, nil otherwise |
| `BoardInfos.ParseKeyValueLine` | mruby-ev3/mrblib/ev3/board_info.rb:49-53 | `BOARD_INFO_<key>=<value>` gives the lower-cased key and the value |
| `BoardInfos.ParseTruncatesValue` | mruby-ev3/mrblib/ev3/board_info.rb:49 | a value containing a further `=` is cut at it |
| `BoardInfos.ParseLineWithoutValue` | mruby-ev3/mrblib/ev3/board_info.rb:49-53 | a line without `=` maps its whole text to nil |
| `BoardInfos.ParseBlankLine` | mruby-ev3/mrblib/ev3/board_info.rb:49-51 | a blank line raises NoMethodError |
| `BoardInfos.ParseLines` | mruby-ev3/mrblib/ev3/board_info.rb:48-54 | on success one pair per line, each that line's parse; on failure the error of some line |
| `BoardInfos.TableOfLastWins` | mruby-ev3/mrblib/ev3/board_info.rb:47-55 | a repeated key takes the value of its last line |
| `BoardInfos.TableOfKeys` | mruby-ev3/mrblib/ev3/board_info.rb:47-55 | a key is in the table exactly when some line has it |
| `BoardInfos.ParseUevent` | mruby-ev3/mrblib/ev3/board_info.rb:47-56 | a missing uevent raises NoMethodError; otherwise the parse fails exactly when some line fails, and succeeds with the table of the parsed pairs (keys and last-wins values by `TableOfKeys` and `TableOfLastWins`) |
| `BoardInfos.ParsedEntry` | mruby-ev3/mrblib/ev3/board_info.rb:47-56 | a key whose line is the last with that key reads that line's value |
| `BoardInfos.UnparsedEntry` | mruby-ev3/mrblib/ev3/board_info.rb:25-43 | a key no line has reads nil |
| `BoardInfos.BoardInfo.constructor` | mruby-ev3/mrblib/ev3/a_device.rb:8-10 | board information on the given device, nothing parsed yet |
| `BoardInfos.BoardInfo.ParsedUevent` | mruby-ev3/mrblib/ev3/board_info.rb:47-48 | parsed at most once: the remembered table, or a fresh parse that is then remembered |
| `BoardInfos.BoardInfo.Field` | mruby-ev3/mrblib/ev3/board_info.rb:25-43 | `parsed_uevent[key]`: the parse error, or the key's value (nil when absent) |
| `BoardInfos.BoardInfo.HardwareRevision` | mruby-ev3/mrblib/ev3/board_info.rb:25-27 | the value under `hw_rev` |
| `BoardInfos.BoardInfo.Model` | mruby-ev3/mrblib/ev3/board_info.rb:29-31 | the value under `model` |
| `BoardInfos.BoardInfo.RomRevision` | mruby-ev3/mrblib/ev3/board_info.rb:33-35 | the value under `rom_rev` |
| `BoardInfos.BoardInfo.SerialNumber` | mruby-ev3/mrblib/ev3/board_info.rb:37-39 | the value under `serial_num` |
| `BoardInfos.BoardInfo.Type` | mruby-ev3/mrblib/ev3/board_info.rb:41-43 | the value under `type` |
| `DeviceLists.FromPairs` | mruby-ev3/mrblib/ev3/device_list.rb:20 | the stored addresses are distinct, as the keys of a Hash are |
| `DeviceLists.FromPairsLastWins` | mruby-ev3/mrblib/ev3/device_list.rb:20 | a later device with the same address replaces the earlier one |
| `DeviceLists.FromPairsKeys` | mruby-ev3/mrblib/ev3/device_list.rb:20 | an address is stored exactly when some device has it |
| `DeviceLists.Create` | mruby-ev3/mrblib/ev3/device_list.rb:19-21 | distinct stored addresses, exactly those of the devices |
| `DeviceLists.Get` | mruby-ev3/mrblib/ev3/device_list.rb:32-38 | an unknown port Symbol raises ArgumentError; a known one is looked up by its PORTS address; a String or nil is looked up directly |
| `DeviceLists.SymbolAndAddressAgree` | mruby-ev3/mrblib/ev3/device_list.rb:35-37 | a port Symbol and its address String find the same device |
| `DeviceLists.PortsExample` | mruby-ev3/mrblib/ev3/device_list.rb:3-12 | `outB` is `ev3-ports:outB`, and there are eight ports |
| `DeviceLists.PortsInjective` | mruby-ev3/mrblib/ev3/device_list.rb:3-12 | different ports have different addresses |
| `DeviceLists.GetAfterCreate` | mruby-ev3/mrblib/ev3/device_list.rb:32-38 | `[]` on a built list returns the last device given for the address |
| `DeviceLists.GetAbsentAfterCreate` | mruby-ev3/mrblib/ev3/device_list.rb:37 | `[]` of an address no device has is nil |
| `Numbers.Round` | mruby-ev3/mrblib/ev3/movement_controller.rb:197 | the nearest integer, halves away from zero |
| `Kinematics.PowerToSpeed` | mruby-ev3/mrblib/ev3/movement_controller.rb:186-188 | exactly power * max_speed / 100 |
| `Kinematics.WheelSpeeds` | mruby-ev3/mrblib/ev3/movement_controller.rb:190-208 | the inner wheel of a turn runs at round(F * (1 - 2abs(d)/100)) and the outer at round(F), rounded once |
| `Kinematics.TurnMirror` | mruby-ev3/mrblib/ev3/movement_controller.rb:190-208 | turning left by d swaps the wheel speeds of turning right by d |
| `Kinematics.StraightSpeeds` | mruby-ev3/mrblib/ev3/movement_controller.rb:190-208 | straight ahead both wheels get round(F) |
| `Kinematics.SpinOnTheSpot` | mruby-ev3/mrblib/ev3/movement_controller.rb:190-208 | at direction -100 and 100 the wheels run at opposite speeds |
| `Kinematics.PowerToSpeedWithin` | mruby-ev3/mrblib/ev3/movement_controller.rb:186-188 | a power within -100..100 gives a full speed within -max..max |
| `Kinematics.WheelSpeedsWithin` | mruby-ev3/mrblib/ev3/movement_controller.rb:186-208 | every wheel speed of a valid power and direction lies within -max_speed..max_speed |
| `Kinematics.CountsClosedForm` | mruby-ev3/mrblib/ev3/movement_controller.rb:94-95 | the counts are round(distance * counts_per_rotation / distance_per_rotation) |
| `Kinematics.CountsOfOneRotation` | mruby-ev3/mrblib/ev3/movement_controller.rb:94-95 | one rotation's distance drives exactly one rotation's counts |
| `Kinematics.ForwardByExample` | mruby-ev3/mrblib/ev3/movement_controller.rb:92-95 | max speed 1000, 360 counts and 176 mm: `forward_by(176, 50)` sets speed 500 and runs 360 counts |
| `Drives.GoOutOfRange` | mruby-ev3/mrblib/ev3/movement_controller.rb:55-56 | a power or direction outside -100..100 raises ArgumentError before any write |
| `Drives.GoZeroIsStop` | mruby-ev3/mrblib/ev3/movement_controller.rb:58 | `go(0, d)` is exactly `stop` |
| `Drives.GoWritesSpeedsFirst` | mruby-ev3/mrblib/ev3/movement_controller.rb:60-73 | with the smaller max speed, both computed speeds are accepted; left then right speed setpoint are written before any run command |
| `Drives.GoRunsForever` | mruby-ev3/mrblib/ev3/movement_controller.rb:70-73 | without a duration, `run-forever` on the left motor, then the right |
| `Drives.StopWrites` | mruby-ev3/mrblib/ev3/movement_controller.rb:169-174 | `stop` on the left motor then the right; a motor without the command raises, after the left write when it is the right motor |
| `Drives.DistancePerCountFor` | mruby-ev3/mrblib/ev3/movement_controller.rb:214-216 | the remembered value, or distance_per_rotation / counts_per_rotation exactly; ZeroDivisionError for zero counts |
| `Drives.ForwardGuards` | mruby-ev3/mrblib/ev3/movement_controller.rb:89-90 | without a distance per rotation, ArgumentError before any write; power 0 is `stop` |
| `Drives.ForwardSpeedPastMax` | mruby-ev3/mrblib/ev3/movement_controller.rb:92 | a power of 150 or more gives a rounded speed above the controller's max speed |
| `Drives.ForwardPowerUnchecked` | mruby-ev3/mrblib/ev3/movement_controller.rb:88-92 | when the right motor's max speed is the controller's, a power of 150 or more is not range-checked and fails in the right motor's speed validation, before any write |
| `Drives.ForwardPowerPastLeft` | mruby-ev3/mrblib/ev3/movement_controller.rb:88-92 | when the left motor's max speed is the controller's and the right motor accepts the speed, a power of 150 or more writes the right `speed_sp` and then fails in the left motor's validation |
| `Drives.ForwardWrites` | mruby-ev3/mrblib/ev3/movement_controller.rb:92-97 | both speeds (right first), then `run_by!` of the same rounded counts on the left and then the right motor |
| `Drives.ForwardDividesByZeroAfterSpeeds` | mruby-ev3/mrblib/ev3/movement_controller.rb:92-95 | a zero count or distance per rotation raises ZeroDivisionError after both speed writes |
| `Drives.TurnOutOfReadings` | mruby-ev3/mrblib/ev3/movement_controller.rb:140-162 | a turn whose readings ran out is unfinished, in every phase |
| `Drives.WaitStep` | mruby-ev3/mrblib/ev3/movement_controller.rb:140 | the wait loop goes on while the angle has not passed the target, and then the approach starts |
| `Drives.ApproachStep` | mruby-ev3/mrblib/ev3/movement_controller.rb:141-152 | within 5 degrees, creep at power 1 and go on; at or past the target, stop and re-check; otherwise go on |
| `Drives.CheckStep` | mruby-ev3/mrblib/ev3/movement_controller.rb:153-155 | after the approach, an overshoot starts the correction at power 1 against the travel; otherwise the turn is done |
| `Drives.Angles` | mruby-ev3/mrblib/ev3/movement_controller.rb:218-220 | each reading is `gyro.value(0)` of its raw value, scaled |
| `Drives.TurnContext` | mruby-ev3/mrblib/ev3/movement_controller.rb:122-135 | the target is set by the power's sign, from the first reading; anti-clockwise exactly when direction or power is negative |
| `Drives.TurnGuards` | mruby-ev3/mrblib/ev3/movement_controller.rb:117-119 | a zero direction, a missing gyro or a sign mismatch raises ArgumentError before the mode write |
| `Drives.TurnedEndsWithStop` | mruby-ev3/mrblib/ev3/movement_controller.rb:141-163 | a completed turn's writes always end with the stop writes of both motors |
| `Drives.NoCorrectionWithoutOvershoot` | mruby-ev3/mrblib/ev3/movement_controller.rb:153-154 | a non-negative re-read remaining distance ends the turn with no further write |
| `Drives.CorrectionStops` | mruby-ev3/mrblib/ev3/movement_controller.rb:156-162 | the correction loop stops as soon as the remaining distance is non-negative, and not before |
| `Drives.BackwardLeftStopsAtOnce` | mruby-ev3/mrblib/ev3/movement_controller.rb:124-149 | a backward left turn with a still gyro writes the mode and goes; the wait loop ends at its first reading and the motors are stopped at the next one, the third `gyro.value(0)` call counting `initial_angle` |
| `Drives.RightTurnWithCorrection` | mruby-ev3/mrblib/ev3/movement_controller.rb:116-166 | a 90 degree right turn that overshoots to 95 stops, corrects at power -1, and stops again at 89 |
| `Drives.TurnSpecStarted` | mruby-ev3/mrblib/ev3/movement_controller.rb:121-140 | with valid arguments, a GYRO-ANG gyro and a first reading, the turn writes the mode, goes, and then waits |
| `Drives.OvershootCorrected` | mruby-ev3/mrblib/ev3/movement_controller.rb:140-163 | the readings 0, 95, 91, 91, 89 toward 90 give stop, correction, stop |
| `Drives.TurnBy` | mruby-ev3/mrblib/ev3/movement_controller.rb:116-166 | the guarded loops of `turn_by` produce exactly the turn state machine's writes and outcome |
| `Drives.Approach` | mruby-ev3/mrblib/ev3/movement_controller.rb:141-152 | the approach loop produces exactly the state machine's approach phase |
| `Drives.Recheck` | mruby-ev3/mrblib/ev3/movement_controller.rb:153-155 | the re-check produces exactly the state machine's check phase |
| `Drives.Correct` | mruby-ev3/mrblib/ev3/movement_controller.rb:156-162 | the correction loop produces exactly the state machine's correction phase |
| `Drives.RunningByPoll` | mruby-ev3/mrblib/ev3/movement_controller.rb:181 | one flag per poll: whether some motor is `running?` |
| `Drives.WaitFromReturns` | mruby-ev3/mrblib/ev3/movement_controller.rb:181 | the loop returns exactly when a later poll shows no motor running |
| `Drives.WaitSpecReturns` | mruby-ev3/mrblib/ev3/movement_controller.rb:180-182 | `wait_for_stop` returns exactly when some poll shows both motors not running |
| `MovementControllers.MovementController.Init` | mruby-ev3/mrblib/ev3/movement_controller.rb:27-33 | the fields as given, no distance per count remembered |
| `MovementControllers.MovementController.SetPolarities` | mruby-ev3/mrblib/ev3/movement_controller.rb:35-36 | `inversed` or `normal` written to the left, then right, motor; both accepted; no view, count or read-only file changes |
| `MovementControllers.MovementController.Create` | mruby-ev3/mrblib/ev3/movement_controller.rb:27-42 | polarity writes first; success exactly when both counts per rotation agree, else ArgumentError after those writes; max speed the smaller motor max |
| `MovementControllers.MovementController.Stop` | mruby-ev3/mrblib/ev3/movement_controller.rb:169-174 | does exactly the stop effect on the shared files and log |
| `MovementControllers.MovementController.Go` | mruby-ev3/mrblib/ev3/movement_controller.rb:54-76 | does exactly the effect of `go` on the shared files and log; the motors' views stay as they were |
| `MovementControllers.MovementController.SetSpeeds` | mruby-ev3/mrblib/ev3/movement_controller.rb:64-65 | the left speed setpoint, then the right one, the second only when the first passed |
| `MovementControllers.MovementController.RunBoth` | mruby-ev3/mrblib/ev3/movement_controller.rb:67-73 | `run_for!` on both with a duration, `run!` on both without |
| `MovementControllers.MovementController.RunBothFor` | mruby-ev3/mrblib/ev3/movement_controller.rb:68-69 | `run_for!(duration)` on the left motor, then the right |
| `MovementControllers.MovementController.RunBothForever` | mruby-ev3/mrblib/ev3/movement_controller.rb:71-72 | `run!` on the left motor, then the right |
| `MovementControllers.MovementController.WaitForStop` | mruby-ev3/mrblib/ev3/movement_controller.rb:180-182 | the loop returns the outcome of the specification over the polls and writes nothing |
| `MovementControllers.MovementController.AnyMotorRunning` | mruby-ev3/mrblib/ev3/movement_controller.rb:181 | after one poll's state texts are published, whether some motor is `running?`; nothing is written |
| `MovementControllers.MovementController.PublishStates` | mruby-ev3/mrblib/ev3/movement_controller.rb:181 | the drivers replace both `state` files, unlogged, and no read-only file changes |
| `MovementControllers.MovementController.DistancePerCount` | mruby-ev3/mrblib/ev3/movement_controller.rb:214-216 | the remembered distance per count, or a fresh quotient that is then remembered |
| `MovementControllers.MovementController.ForwardBy` | mruby-ev3/mrblib/ev3/movement_controller.rb:88-100 | does exactly the effect of `forward_by` on the shared files and log, remembering the distance per count once computed |
| `MovementControllers.MovementController.SetForwardSpeeds` | mruby-ev3/mrblib/ev3/movement_controller.rb:92 | the right speed setpoint, then the left one |
| `MovementControllers.MovementController.RunByBoth` | mruby-ev3/mrblib/ev3/movement_controller.rb:97 | `run_by!(counts)` on the left motor, then the right |
| `MovementControllers.MovementController.SetGyro` | mruby-ev3/mrblib/ev3/movement_controller.rb:10 | `gyro=` replaces only the gyro |
| `MovementControllers.MovementController.SetDistancePerRotation` | mruby-ev3/mrblib/ev3/movement_controller.rb:10 | `distance_per_rotation=` replaces only that value; a remembered distance per count is kept |
| `MovementControllers.MovementController.CurrentAngle` | mruby-ev3/mrblib/ev3/movement_controller.rb:218-220 | ArgumentError exactly when the gyro has no values; otherwise the published raw angle, scaled |
| `MovementControllers.MovementController.RemainingAngleDistanceFor` | mruby-ev3/mrblib/ev3/movement_controller.rb:222-228 | the angle minus the target when anti-clockwise, the target minus the angle otherwise |

## Left out

- Drives.TurnBy: `turn_by` is modelled on values, not as a method of `MovementControllers.MovementController`. The motors are taken as the effects of `go` and `stop` on a `Rig` (the motors' validation views and the max speed). The gyro is taken as its modes, number of values, decimals and the raw readings. The model does not update the motor objects or the file system in place.
- Real sysfs input and output: `File.read`, `File.open(path, 'w')` and `File.exists?` are lookups and updates of the file map. `File.read(path, opts)` with options is the raw contents.
- Floating point: `formatted_value` (its `to_f`) is not modelled.
- The block given to `turn_by` or `wait_for_stop` is taken as doing nothing.
- Termination against real hardware: `turn_by` and `wait_for_stop` see a finite sequence of readings or polls and end as `Unfinished` or `StillRunning` when it runs out.
- The first `target_angle` assignment of `turn_by` is dead code: only the second one, keyed on the power's sign, is modelled.
- `Rational.new(distance_per_rotation, counts_per_rotation)` is modelled as the exact quotient, raising ZeroDivisionError for zero counts.
- The remembered distance per count is kept when `distance_per_rotation=` changes, as in the code. Whether that is intended is not decided here.
- The two motors of a controller are distinct objects on distinct device directories. Handing the same motor twice is not modelled.
- Sound, buttons, `LEDList`, `ApplicationBase`, `Ev3`'s device discovery and the `detect` class methods of `Battery` and `BoardInfo` are not part of this model. They do I/O, shell out, or loop forever.
- DeviceLists.Create: each device is given together with its address; the `address` read of every device is not modelled.
- The plain getters (`duty_cycle`, `speed`, `position`, `voltage`, `current`, `decimals`, `num_values`, `mode` and the like) are functions without a contract of their own. Their meaning is stated by the read-back lemmas.
- MovementControllers.MovementController.WaitForStop: each poll gives the text of both `state` files, so a missing `state` file does not occur during `wait_for_stop`. The NoMethodError that `running?` raises for a missing file (`Motors.HasFlag`) is therefore not modelled inside the loop.
- Sensors.Sensor.Publish: the readings a driver publishes for a mode are a parameter. The model does not say what the hardware measures in that mode.
- Batteries.Technology: states the length of the result and that no upper-case letter remains, not the letter-by-letter mapping of `downcase`. `TechnologyOfLowerCase` covers names already in lower case.
- `nil.to_i` is 0 and a Symbol is its name. `to_sym` changes nothing in the model.
