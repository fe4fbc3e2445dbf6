/**
 * Ev3::Battery: readings of the brick's power supply device. The design
 * voltages are published in units of ten microvolts and are divided down;
 * `low?` compares the present voltage with the point 15% of the way from the
 * minimum to the maximum, in exact rational arithmetic.
 */
module Batteries {
  import opened Wrappers
  import opened Text
  import opened Sysfs
  import opened Devices

  /** The integer an attribute of the battery directory reads as (`read_attribute(name).to_i`). */
  function Reading(files: map<Path, string>, node: string, name: string): int {
    IntOf(ReadAttribute(files, node, name, false))
  }

  /** Integer#div(10): division rounding towards minus infinity. */
  function Div10(n: int): (q: int)
    ensures 10 * q <= n < 10 * q + 10
  {
    n / 10
  }

  /** A design voltage (`voltage_max_design` or `voltage_min_design`) divided down by ten. */
  function DesignVoltage(files: map<Path, string>, node: string, name: string): (v: int)
    ensures 10 * v <= Reading(files, node, name) < 10 * v + 10
  {
    Div10(Reading(files, node, name))
  }

  /** `maximum_voltage`. */
  function MaximumVoltage(files: map<Path, string>, node: string): int {
    DesignVoltage(files, node, "voltage_max_design")
  }

  /** `minimum_voltage`. */
  function MinimumVoltage(files: map<Path, string>, node: string): int {
    DesignVoltage(files, node, "voltage_min_design")
  }

  /** `voltage`. */
  function Voltage(files: map<Path, string>, node: string): int {
    Reading(files, node, "voltage_now")
  }

  /** `current`. */
  function Current(files: map<Path, string>, node: string): int {
    Reading(files, node, "current_now")
  }

  /** min + (max - min) * 15/100 as an exact fraction. */
  function LowThreshold(min: int, max: int): real {
    min as real + ((max - min) * 15) as real / 100.0
  }

  /** The decision `low?` makes once the two design voltages are known. */
  function LowFor(voltage: int, min: int, max: int): (r: Result<bool>)
    ensures r.Failure? <==> (max == 0 || min == 0)
    ensures r.Failure? ==> r.error == RuntimeError
    ensures r.Success? ==> (r.value <==> 100 * voltage < 85 * min + 15 * max)
  {
    if max == 0 || min == 0 then Failure(RuntimeError)
    else Success(voltage as real < LowThreshold(min, max))
  }

  /** `low?`. */
  function Low(files: map<Path, string>, node: string): Result<bool> {
    LowFor(Voltage(files, node), MinimumVoltage(files, node), MaximumVoltage(files, node))
  }

  /** A voltage exactly at the threshold is not low: the comparison is strict. */
  lemma AtThresholdNotLow(min: int, max: int)
    requires min != 0 && max != 0
    requires (85 * min + 15 * max) % 100 == 0
    ensures LowFor((85 * min + 15 * max) / 100, min, max) == Success(false)
    ensures LowFor((85 * min + 15 * max) / 100 - 1, min, max) == Success(true)
  {
  }

  /** Lower voltages stay low. */
  lemma LowMonotone(v: int, w: int, min: int, max: int)
    requires w <= v
    requires LowFor(v, min, max) == Success(true)
    ensures LowFor(w, min, max) == Success(true)
  {
  }

  /** For a battery whose maximum exceeds its minimum, the minimum is low and the maximum is not. */
  lemma LowBetweenBounds(min: int, max: int)
    requires min != 0 && max != 0 && min < max
    ensures LowFor(min, min, max) == Success(true)
    ensures LowFor(max, min, max) == Success(false)
  {
  }

  /** The design voltages are read from `voltage_max_design` and `voltage_min_design`: a changed present voltage changes neither. */
  lemma LowReadsVoltageNow(files: map<Path, string>, node: string, v: int)
    ensures Low(files[Path(node, "voltage_now") := IntToString(v)], node) == LowFor(v, MinimumVoltage(files, node), MaximumVoltage(files, node))
  {
    var g := files[Path(node, "voltage_now") := IntToString(v)];
    assert Path(node, "voltage_now") != Path(node, "voltage_max_design") by { assert "voltage_now"[8] != "voltage_max_design"[8]; }
    assert Path(node, "voltage_now") != Path(node, "voltage_min_design") by { assert "voltage_now"[8] != "voltage_min_design"[8]; }
    assert Reading(g, node, "voltage_max_design") == Reading(files, node, "voltage_max_design");
    assert Reading(g, node, "voltage_min_design") == Reading(files, node, "voltage_min_design");
    IntReadsBack(files, node, "voltage_now", v);
  }

  /** `technology`: the stripped attribute lower-cased, as a symbol; a missing attribute has no `downcase`. */
  function Technology(files: map<Path, string>, node: string): (r: Result<string>)
    ensures r.Failure? <==> Path(node, "technology") !in files
    ensures r.Failure? ==> r.error == NoMethodError
    ensures r.Success? ==> |r.value| == |Strip(files[Path(node, "technology")])|
    ensures r.Success? ==> forall i :: 0 <= i < |r.value| ==> !('A' <= r.value[i] <= 'Z')
  {
    match ReadAttribute(files, node, "technology", false)
    case None => Failure(NoMethodError)
    case Some(text) => Success(Downcase(text))
  }

  /** A technology name already in lower case is returned as it is. */
  lemma TechnologyOfLowerCase(files: map<Path, string>, node: string, name: string)
    requires forall i :: 0 <= i < |name| ==> !('A' <= name[i] <= 'Z')
    requires name == [] || (!IsSpace(name[0]) && !IsSpace(name[|name| - 1]))
    ensures Technology(files[Path(node, "technology") := name], node) == Success(name)
  {
    var r := Technology(files[Path(node, "technology") := name], node);
    assert r.value == name;
  }
}
