/**
 * Ev3::Sensors::Touch: a button whose first value is zero while it is released.
 */
module TouchSensors {
  import opened Wrappers
  import opened Devices
  import opened Sensors

  /** `released?`: value(0) is zero. */
  function Released(s: Sensor): (r: Result<bool>)
    reads s.device.fs
  {
    match s.Value(0)
    case Failure(e) => Failure(e)
    case Success(x) => Success(AsReal(x) == 0.0)
  }

  /** `pressed?`: not released. */
  function Pressed(s: Sensor): (r: Result<bool>)
    reads s.device.fs
  {
    match Released(s)
    case Failure(e) => Failure(e)
    case Success(b) => Success(!b)
  }

  /**
   * With at least one value the answer is whether the raw reading is zero,
   * whatever the number of decimals, and exactly one of the two predicates holds.
   */
  lemma ReleasedIffRawZero(s: Sensor)
    requires s.NumValues() > 0
    ensures Released(s) == Success(IntOf(s.device.Read(ValueName(0))) == 0)
    ensures Pressed(s) == Success(IntOf(s.device.Read(ValueName(0))) != 0)
  {
    ScaledZero(IntOf(s.device.Read(ValueName(0))), s.Decimals());
  }

  /** Without any value both predicates raise the ArgumentError of `value`'s bound check. */
  lemma NoValuesRaises(s: Sensor)
    requires s.NumValues() <= 0
    ensures Released(s) == Failure(ArgumentError)
    ensures Pressed(s) == Failure(ArgumentError)
  {
  }

  /** `pressed?` is the negation of `released?`: whenever they answer, exactly one is true. */
  lemma ExactlyOneHolds(s: Sensor)
    ensures Released(s).Success? <==> Pressed(s).Success?
    ensures Released(s).Success? ==> Released(s).value != Pressed(s).value
  {
  }
}
