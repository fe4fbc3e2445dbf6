/**
 * Ev3::LEDs::BuiltIn: one of the brick's two status LEDs, made of a green and
 * a red LED device. Brightnesses are given relative (0..100) and written
 * absolute, scaled by each LED's `max_brightness`, which is read once per
 * colour and remembered, a missing file included.
 */
module Leds {
  import opened Wrappers
  import opened Text
  import opened Numbers
  import opened Sysfs

  /** A colour of the status LED as its green and red relative brightnesses. */
  datatype Levels = Levels(green: int, red: int)

  /** COLORS. */
  const LedColors: map<string, Levels> :=
    map["black" := Levels(0, 0), "red" := Levels(0, 100), "green" := Levels(100, 0),
        "amber" := Levels(100, 100), "orange" := Levels(50, 100), "yellow" := Levels(100, 10)]

  /** The argument of `on`: a colour Symbol, or a Hash with optional :green and :red entries. */
  datatype ColorDefinition = Named(name: string) | Custom(green: Option<int>, red: Option<int>)

  /** File.join of a directory and a relative name. */
  function Join(dir: string, name: string): (p: string)
    ensures |p| >= |name| && p[|p| - |name|..] == name
  {
    if dir != [] && dir[|dir| - 1] == '/' then dir + name else dir + "/" + name
  }

  /** `device_node_for(color)`: the directory of one colour's LED device. */
  function DeviceNodeFor(basePath: string, number: int, color: string): string {
    Join(basePath, "led" + IntToString(number) + ":" + color + ":brick-status")
  }

  lemma DeviceNodeExample()
    ensures DeviceNodeFor("/sys/class/leds", 0, "green") == "/sys/class/leds/led0:green:brick-status"
  {
  }

  /** Different colours of the same LED have different device directories. */
  lemma DeviceNodeInjective(basePath: string, number: int, a: string, b: string)
    requires DeviceNodeFor(basePath, number, a) == DeviceNodeFor(basePath, number, b)
    ensures a == b
  {
    var pre := "led" + IntToString(number) + ":";
    var suf := ":brick-status";
    var na, nb := pre + a + suf, pre + b + suf;
    var dir := if basePath != [] && basePath[|basePath| - 1] == '/' then basePath else basePath + "/";
    assert DeviceNodeFor(basePath, number, a) == dir + na;
    assert DeviceNodeFor(basePath, number, b) == dir + nb;
    assert na == (dir + na)[|dir|..];
    assert nb == (dir + nb)[|dir|..];
    assert a == na[|pre|..|na| - |suf|];
    assert b == nb[|pre|..|nb| - |suf|];
  }

  /** `valid_relative_value?`: within 0..100 (nil is not). */
  predicate ValidRelative(b: Option<int>) {
    b.Some? && 0 <= b.value <= 100
  }

  /**
   * `valid_color_definition?`: a known colour Symbol, or levels that are both
   * valid. An unknown Symbol is then indexed like a Hash, which it has no
   * method for.
   */
  function ValidColorDefinition(d: ColorDefinition): (r: Result<bool>)
    ensures d.Named? ==> (r.Success? <==> d.name in LedColors)
    ensures d.Named? && r.Success? ==> r.value
    ensures d.Named? && r.Failure? ==> r.error == NoMethodError
    ensures d.Custom? ==> r == Success(ValidRelative(d.green) && ValidRelative(d.red))
  {
    match d
    case Named(name) => if name in LedColors then Success(true) else Failure(NoMethodError)
    case Custom(g, r) => Success(ValidRelative(g) && ValidRelative(r))
  }

  /** Every entry of the colour table is a valid definition. */
  lemma LedColorsValid(name: string)
    requires name in LedColors
    ensures ValidRelative(Some(LedColors[name].green)) && ValidRelative(Some(LedColors[name].red))
  {
  }

  /**
   * `to_absolute_brightness_for`: (Rational(relative, 100) * max).round, the exact
   * fraction relative * max / 100 rounded; a missing max is nil, which cannot be multiplied.
   */
  function AbsoluteBrightness(relative: int, max: Option<int>): (r: Result<int>)
    ensures r.Failure? <==> max.None?
    ensures r.Failure? ==> r.error == TypeError
  {
    if max.None? then Failure(TypeError) else Success(Round((relative * max.value) as real / 100.0))
  }

  /** 0 is off and 100 is the LED's maximum; values in between stay within 0..max and keep their order. */
  lemma AbsoluteBrightnessRange(relative: int, other: int, max: int)
    requires 0 <= relative <= other <= 100 && max >= 0
    ensures AbsoluteBrightness(0, Some(max)) == Success(0)
    ensures AbsoluteBrightness(100, Some(max)) == Success(max)
    ensures 0 <= AbsoluteBrightness(relative, Some(max)).value <= max
    ensures AbsoluteBrightness(relative, Some(max)).value <= AbsoluteBrightness(other, Some(max)).value
  {
    RoundOfInteger(0);
    assert (100 * max) as real / 100.0 == max as real;
    RoundOfInteger(max);
    assert relative * max <= other * max by { assert (other - relative) * max >= 0; }
    assert other * max <= 100 * max by { assert (100 - other) * max >= 0; }
    RoundWithin((relative * max) as real / 100.0, (other * max) as real / 100.0, max);
  }

  /** Rounding keeps two ordered reals in 0..max ordered and in 0..max. */
  lemma RoundWithin(x: real, y: real, max: int)
    requires 0.0 <= x <= y <= max as real
    ensures 0 <= Round(x) <= Round(y) <= max
  {
    RoundBetween(x, 0, max);
    RoundBetween(y, 0, max);
    RoundMonotone(x, y);
  }


  /** `set_brightness_on(color, brightness)` on the colour's device node with that colour's max brightness. */
  function BrightnessEffect(node: string, max: Option<int>, brightness: int): (e: Effect)
    ensures !(0 <= brightness <= 100) ==> e == Effect([], Fail(ArgumentError))
    ensures 0 <= brightness <= 100 && max.None? ==> e == Effect([], Fail(TypeError))
    ensures 0 <= brightness <= 100 && max.Some? ==>
      e == Effect([Write(Path(node, "brightness"), IntToString(AbsoluteBrightness(brightness, max).value))], Pass)
  {
    if !ValidRelative(Some(brightness)) then Effect([], Fail(ArgumentError))
    else match AbsoluteBrightness(brightness, max)
      case Failure(err) => Effect([], Fail(err))
      case Success(abs) => Effect([Write(Path(node, "brightness"), IntToString(abs))], Pass)
  }

  /**
   * A brightness that was set reads back, through `read_attribute_from`'s
   * strip and to_i, as the absolute brightness that was written.
   */
  lemma BrightnessReadsBack(files: map<Path, string>, node: string, max: Option<int>, brightness: int)
    requires BrightnessEffect(node, max, brightness).outcome.Pass?
    ensures var f := ApplyWrites(files, BrightnessEffect(node, max, brightness).writes);
      && Path(node, "brightness") in f
      && ToI(Strip(f[Path(node, "brightness")])) == AbsoluteBrightness(brightness, max).value
  {
    var e := BrightnessEffect(node, max, brightness);
    assert e.writes[..0] == [];
    StripOfIntToString(AbsoluteBrightness(brightness, max).value);
    ToIOfIntToString(AbsoluteBrightness(brightness, max).value);
  }

  class BuiltIn {
    const fs: FileSystem
    const basePath: string
    const number: int
    var maxBrightnesses: map<string, Option<int>>

    constructor (fs: FileSystem, basePath: string, number: int)
      ensures this.fs == fs && this.basePath == basePath && this.number == number
      ensures maxBrightnesses == map[]
    {
      this.fs := fs;
      this.basePath := basePath;
      this.number := number;
      maxBrightnesses := map[];
    }

    function Node(color: string): string {
      DeviceNodeFor(basePath, number, color)
    }

    /** `read_attribute_from(color, name)`: nil for a missing file, else the stripped text as an integer. */
    function ReadAttributeFrom(color: string, name: string): (r: Option<int>)
      reads fs
      ensures r.None? <==> Path(Node(color), name) !in fs.files
      ensures r.Some? ==> r.value == ToI(Strip(fs.files[Path(Node(color), name)]))
    {
      match Lookup(fs.files, Path(Node(color), name))
      case None => None
      case Some(text) => Some(ToI(Strip(text)))
    }

    /** `green`. */
    function Green(): Option<int> reads fs { ReadAttributeFrom("green", "brightness") }

    /** `red`. */
    function Red(): Option<int> reads fs { ReadAttributeFrom("red", "brightness") }

    /** The maximum `max_brightness_for(color)` returns now: remembered, or read from the file. */
    function MaxBrightnessValue(color: string): Option<int>
      reads this, fs
    {
      if color in maxBrightnesses then maxBrightnesses[color] else ReadAttributeFrom(color, "max_brightness")
    }

    /** `max_brightness_for(color)`: read once per colour and remembered, nil included. */
    method MaxBrightnessFor(color: string) returns (m: Option<int>)
      modifies this
      ensures m == old(MaxBrightnessValue(color))
      ensures maxBrightnesses == old(maxBrightnesses)[color := m]
    {
      if color in maxBrightnesses {
        m := maxBrightnesses[color];
      } else {
        m := ReadAttributeFrom(color, "max_brightness");
        maxBrightnesses := maxBrightnesses[color := m];
      }
    }

    /** Writing a brightness changes no remembered or read maximum. */
    twostate lemma MaxBrightnessKept(color: string)
      requires forall c :: c in old(maxBrightnesses) ==> c in maxBrightnesses && maxBrightnesses[c] == old(maxBrightnesses)[c]
      requires forall c :: c in maxBrightnesses && c !in old(maxBrightnesses) ==> maxBrightnesses[c] == old(ReadAttributeFrom(c, "max_brightness"))
      requires SameReadOnly(old(fs.files), fs.files)
      ensures MaxBrightnessValue(color) == old(MaxBrightnessValue(color))
    {
      assert Lookup(old(fs.files), Path(Node(color), "max_brightness")) == Lookup(fs.files, Path(Node(color), "max_brightness"));
    }

    /** `set_brightness_on(color, brightness)`: validates, scales, writes. */
    method SetBrightnessOn(color: string, brightness: int) returns (r: Outcome)
      modifies this, fs
      ensures var e := BrightnessEffect(Node(color), old(MaxBrightnessValue(color)), brightness);
        fs.log == old(fs.log) + e.writes && fs.files == ApplyWrites(old(fs.files), e.writes) && r == e.outcome
      ensures forall c :: MaxBrightnessValue(c) == old(MaxBrightnessValue(c))
    {
      if !ValidRelative(Some(brightness)) {
        r := Fail(ArgumentError);
        return;
      }
      var max := MaxBrightnessFor(color);
      assert forall c :: MaxBrightnessValue(c) == old(MaxBrightnessValue(c));
      var abs := AbsoluteBrightness(brightness, max);
      if abs.Failure? {
        r := Fail(abs.error);
      } else {
        ghost var files1 := fs.files;
        var p := Path(Node(color), "brightness");
        fs.Store(p, IntToString(abs.value));
        r := Pass;
        assert [Write(p, IntToString(abs.value))][..0] == [];
        forall c ensures MaxBrightnessValue(c) == old(MaxBrightnessValue(c)) {
          assert Lookup(fs.files, Path(Node(c), "max_brightness")) == Lookup(files1, Path(Node(c), "max_brightness"));
        }
      }
    }

    /** `green=`. */
    method SetGreen(brightness: int) returns (r: Outcome)
      modifies this, fs
      ensures var e := BrightnessEffect(Node("green"), old(MaxBrightnessValue("green")), brightness);
        fs.log == old(fs.log) + e.writes && fs.files == ApplyWrites(old(fs.files), e.writes) && r == e.outcome
      ensures forall c :: MaxBrightnessValue(c) == old(MaxBrightnessValue(c))
    {
      r := SetBrightnessOn("green", brightness);
    }

    /** `red=`. */
    method SetRed(brightness: int) returns (r: Outcome)
      modifies this, fs
      ensures var e := BrightnessEffect(Node("red"), old(MaxBrightnessValue("red")), brightness);
        fs.log == old(fs.log) + e.writes && fs.files == ApplyWrites(old(fs.files), e.writes) && r == e.outcome
      ensures forall c :: MaxBrightnessValue(c) == old(MaxBrightnessValue(c))
    {
      r := SetBrightnessOn("red", brightness);
    }

    /** Green then red, the second only when the first passed (an assignment's value is always truthy). */
    method SetBoth(first: string, a: int, second: string, b: int) returns (r: Outcome)
      modifies this, fs
      ensures var e := Then(BrightnessEffect(Node(first), old(MaxBrightnessValue(first)), a),
                            BrightnessEffect(Node(second), old(MaxBrightnessValue(second)), b));
        fs.log == old(fs.log) + e.writes && fs.files == ApplyWrites(old(fs.files), e.writes) && r == e.outcome
      ensures forall c :: MaxBrightnessValue(c) == old(MaxBrightnessValue(c))
    {
      ghost var files0 := fs.files;
      ghost var e1 := BrightnessEffect(Node(first), MaxBrightnessValue(first), a);
      ghost var e2 := BrightnessEffect(Node(second), MaxBrightnessValue(second), b);
      r := SetBrightnessOn(first, a);
      if r.Pass? {
        r := SetBrightnessOn(second, b);
        ApplyWritesAppend(files0, e1.writes, e2.writes);
      }
    }

    /** `off`: green 0, then red 0. */
    method Off() returns (r: Outcome)
      modifies this, fs
      ensures var e := Then(BrightnessEffect(Node("green"), old(MaxBrightnessValue("green")), 0),
                            BrightnessEffect(Node("red"), old(MaxBrightnessValue("red")), 0));
        fs.log == old(fs.log) + e.writes && fs.files == ApplyWrites(old(fs.files), e.writes) && r == e.outcome
    {
      r := SetBoth("green", 0, "red", 0);
    }

    /** `on(color_definition)`: validates the whole definition first, then writes red, then green. */
    method On(d: ColorDefinition) returns (r: Outcome)
      modifies this, fs
      ensures var e := OnEffect(d, Node("green"), old(MaxBrightnessValue("green")), Node("red"), old(MaxBrightnessValue("red")));
        fs.log == old(fs.log) + e.writes && fs.files == ApplyWrites(old(fs.files), e.writes) && r == e.outcome
    {
      var valid := ValidColorDefinition(d);
      if valid.Failure? {
        r := Fail(valid.error);
        return;
      }
      if !valid.value {
        r := Fail(ArgumentError);
        return;
      }
      var levels := if d.Named? then LedColors[d.name] else Levels(d.green.value, d.red.value);
      r := SetBoth("red", levels.red, "green", levels.green);
    }
  }

  /** The effect of `on`: nothing is written unless the whole definition is valid. */
  function OnEffect(d: ColorDefinition, greenNode: string, greenMax: Option<int>, redNode: string, redMax: Option<int>): (e: Effect)
    ensures ValidColorDefinition(d) != Success(true) ==> e.writes == [] && e.outcome.Fail?
    ensures d.Custom? && !(ValidRelative(d.green) && ValidRelative(d.red)) ==> e == Effect([], Fail(ArgumentError))
  {
    match ValidColorDefinition(d)
    case Failure(err) => Effect([], Fail(err))
    case Success(ok) =>
      if !ok then Effect([], Fail(ArgumentError))
      else
        var levels := if d.Named? then LedColors[d.name] else Levels(d.green.value, d.red.value);
        Then(BrightnessEffect(redNode, redMax, levels.red), BrightnessEffect(greenNode, greenMax, levels.green))
  }

  /** `on(:name)` writes the table's red level, then its green level. */
  lemma OnNamedWrites(name: string, greenNode: string, gmax: int, redNode: string, rmax: int)
    requires name in LedColors
    ensures OnEffect(Named(name), greenNode, Some(gmax), redNode, Some(rmax)) ==
      Effect([Write(Path(redNode, "brightness"), IntToString(AbsoluteBrightness(LedColors[name].red, Some(rmax)).value)),
              Write(Path(greenNode, "brightness"), IntToString(AbsoluteBrightness(LedColors[name].green, Some(gmax)).value))], Pass)
  {
    LedColorsValid(name);
  }
}
