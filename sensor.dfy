/**
 * Ev3::Sensors::Generic: a sensor whose current mode selects what its
 * `value<n>` attributes mean. Values are read as integers and scaled by
 * 10^decimals; the mode can be set to one of the sensor's `modes`.
 */
module Sensors {
  import opened Wrappers
  import opened Text
  import opened Numbers
  import opened Sysfs
  import opened Devices

  /** A sensor value: an Integer when there are no decimals, a Rational otherwise. */
  datatype Number = Int(i: int) | Rat(q: real)

  /** The numeric value of a Number (Ruby compares Integers and Rationals by value). */
  function AsReal(x: Number): real {
    match x
    case Int(i) => i as real
    case Rat(q) => q
  }

  /** 10**d as an exact number (a negative exponent gives a fraction). */
  function Power10(d: int): (p: real)
    ensures p > 0.0
  {
    if d >= 0 then Pow10(d) as real else 1.0 / Pow10(-d) as real
  }

  /** `val = Rational(val, 10**decimals) unless decimals.zero?`. */
  function Scaled(raw: int, decimals: int): (x: Number)
    ensures decimals == 0 <==> x.Int?
    ensures decimals == 0 ==> x == Int(raw)
  {
    if decimals == 0 then Int(raw) else Rat(raw as real / Power10(decimals))
  }

  /** Scaling is exact: the value times 10**decimals is the raw reading. */
  lemma ScaledInverse(raw: int, decimals: int)
    ensures AsReal(Scaled(raw, decimals)) * Power10(decimals) == raw as real
  {
  }

  /** Scaling keeps zero and only zero: a value is zero exactly when its raw reading is. */
  lemma ScaledZero(raw: int, decimals: int)
    ensures AsReal(Scaled(raw, decimals)) == 0.0 <==> raw == 0
  {
    var x := Scaled(raw, decimals);
    ScaledInverse(raw, decimals);
    if raw != 0 {
      assert AsReal(x) * Power10(decimals) != 0.0;
    }
  }

  /** The attribute holding value number n: "value#{n}". */
  function ValueName(n: int): string {
    "value" + IntToString(n)
  }

  function NumValuesIn(files: map<Path, string>, node: string): int {
    IntOf(ReadAttribute(files, node, "num_values", false))
  }

  function DecimalsIn(files: map<Path, string>, node: string): int {
    IntOf(ReadAttribute(files, node, "decimals", false))
  }

  /** `value(number)`: raises when number >= num_values, otherwise the scaled reading. */
  function ValueIn(files: map<Path, string>, node: string, n: int): (r: Result<Number>)
    ensures r.Failure? <==> n >= NumValuesIn(files, node)
    ensures r.Failure? ==> r.error == ArgumentError
    ensures r.Success? ==> r.value == Scaled(IntOf(ReadAttribute(files, node, ValueName(n), false)), DecimalsIn(files, node))
  {
    if n >= NumValuesIn(files, node) then Failure(ArgumentError)
    else Success(Scaled(IntOf(ReadAttribute(files, node, ValueName(n), false)), DecimalsIn(files, node)))
  }

  /** `values`: value(i) for every i below num_values, in order. */
  function ValuesIn(files: map<Path, string>, node: string): (vs: seq<Number>)
    ensures |vs| == if NumValuesIn(files, node) < 0 then 0 else NumValuesIn(files, node)
    ensures forall i :: 0 <= i < |vs| ==> ValueIn(files, node, i) == Success(vs[i])
  {
    var count := if NumValuesIn(files, node) < 0 then 0 else NumValuesIn(files, node);
    seq(count, i requires 0 <= i < count => ValueIn(files, node, i).value)
  }

  /** `poll_ms`: nil for an empty attribute, its integer otherwise; a missing attribute has no `empty?`. */
  function PollMsIn(files: map<Path, string>, node: string): (r: Result<Option<int>>)
    ensures r.Failure? <==> Path(node, "poll_ms") !in files
    ensures r.Failure? ==> r.error == NoMethodError
    ensures r.Success? ==> (r.value.None? <==> Strip(files[Path(node, "poll_ms")]) == [])
    ensures r.Success? && r.value.Some? ==> r.value.value == ToI(Strip(files[Path(node, "poll_ms")]))
  {
    match ReadAttribute(files, node, "poll_ms", false)
    case None => Failure(NoMethodError)
    case Some(text) => Success(if text == [] then None else Some(ToI(text)))
  }

  /** A polling period written as an integer reads back as that integer; a blank attribute reads as nil. */
  lemma PollMsReadsBack(files: map<Path, string>, node: string, n: int)
    ensures PollMsIn(files[Path(node, "poll_ms") := IntToString(n)], node) == Success(Some(n))
    ensures PollMsIn(files[Path(node, "poll_ms") := ""], node) == Success(None)
  {
    StripOfIntToString(n);
    ToIOfIntToString(n);
  }

  /** A raw reading published in `value<n>` comes back from `value(n)`, scaled; the bound and the scale are untouched. */
  lemma ValueReadsBack(files: map<Path, string>, node: string, n: int, raw: int)
    requires n < NumValuesIn(files, node)
    ensures ValueIn(files[Path(node, ValueName(n)) := IntToString(raw)], node, n) == Success(Scaled(raw, DecimalsIn(files, node)))
  {
    var g := files[Path(node, ValueName(n)) := IntToString(raw)];
    assert ValueName(n)[0] == 'v';
    assert Path(node, "num_values") != Path(node, ValueName(n)) by { assert "num_values"[0] == 'n'; }
    assert Path(node, "decimals") != Path(node, ValueName(n)) by { assert "decimals"[0] == 'd'; }
    assert NumValuesIn(g, node) == NumValuesIn(files, node);
    assert DecimalsIn(g, node) == DecimalsIn(files, node);
    IntReadsBack(files, node, ValueName(n), raw);
  }

  /** `value` consults only num_values, decimals and the value attribute itself. */
  lemma ValueInUnchanged(f: map<Path, string>, g: map<Path, string>, node: string, n: int)
    requires SameReadOnly(f, g)
    requires Lookup(f, Path(node, ValueName(n))) == Lookup(g, Path(node, ValueName(n)))
    ensures ValueIn(f, node, n) == ValueIn(g, node, n)
  {
    assert Lookup(f, Path(node, "num_values")) == Lookup(g, Path(node, "num_values"));
    assert Lookup(f, Path(node, "decimals")) == Lookup(g, Path(node, "decimals"));
  }

  /** The outcome of `self.mode = m unless mode == m`. */
  function ModeSwitch(mode: Option<string>, modes: Result<seq<string>>, m: string): (r: Outcome)
    ensures mode == Some(m) ==> r == Pass
    ensures mode != Some(m) ==> r == MemberCheck(modes, m)
  {
    if mode == Some(m) then Pass else MemberCheck(modes, m)
  }

  /**
   * What the driver publishes for the mode a sensor is in: the number of
   * values, the decimals and the raw integers of `value0`, `value1`, ...
   */
  datatype Readings = Readings(numValues: int, decimals: int, raw: seq<int>)

  /** The files with `value<i>` holding raw[i] for every i. */
  function PublishRaw(files: map<Path, string>, node: string, raw: seq<int>): map<Path, string>
    decreases |raw|
  {
    if raw == [] then files
    else PublishRaw(files, node, raw[..|raw| - 1])[Path(node, ValueName(|raw| - 1)) := IntToString(raw[|raw| - 1])]
  }

  /** The files once the driver has published the readings p in the sensor's directory. */
  function Published(files: map<Path, string>, node: string, p: Readings): map<Path, string> {
    PublishRaw(files, node, p.raw)[Path(node, "num_values") := IntToString(p.numValues)][Path(node, "decimals") := IntToString(p.decimals)]
  }

  lemma ValueNameInjective(a: int, b: int)
    requires ValueName(a) == ValueName(b)
    ensures a == b
  {
    assert ValueName(a)[5..] == IntToString(a);
    assert ValueName(b)[5..] == IntToString(b);
    ToIOfIntToString(a);
    ToIOfIntToString(b);
  }

  lemma {:induction false} PublishRawLookup(files: map<Path, string>, node: string, raw: seq<int>, n: int)
    ensures Lookup(PublishRaw(files, node, raw), Path(node, ValueName(n))) ==
      if 0 <= n < |raw| then Some(IntToString(raw[n])) else Lookup(files, Path(node, ValueName(n)))
    decreases |raw|
  {
    if raw != [] {
      var front := raw[..|raw| - 1];
      PublishRawLookup(files, node, front, n);
      if n != |raw| - 1 {
        if ValueName(n) == ValueName(|raw| - 1) {
          ValueNameInjective(n, |raw| - 1);
        }
      }
    }
  }

  /** Publishing the values touches only `value<i>` attributes of the sensor's own directory. */
  lemma {:induction false} PublishRawOther(files: map<Path, string>, node: string, raw: seq<int>, q: Path)
    requires q.dir != node || q.name == [] || q.name[0] != 'v'
    ensures Lookup(PublishRaw(files, node, raw), q) == Lookup(files, q)
    decreases |raw|
  {
    if raw != [] {
      assert ValueName(|raw| - 1)[0] == 'v';
      PublishRawOther(files, node, raw[..|raw| - 1], q);
    }
  }

  /** After publishing, `num_values` and `decimals` read back as the published count and decimals. */
  lemma PublishedCounts(files: map<Path, string>, node: string, p: Readings)
    ensures NumValuesIn(Published(files, node, p), node) == p.numValues
    ensures DecimalsIn(Published(files, node, p), node) == p.decimals
  {
    CountsReadBack(PublishRaw(files, node, p.raw), node, p.numValues, p.decimals);
  }

  /** Integers written to `num_values` and then `decimals` both read back. */
  lemma CountsReadBack(f: map<Path, string>, node: string, count: int, decimals: int)
    ensures var g := f[Path(node, "num_values") := IntToString(count)][Path(node, "decimals") := IntToString(decimals)];
      NumValuesIn(g, node) == count && DecimalsIn(g, node) == decimals
  {
    var withCount := f[Path(node, "num_values") := IntToString(count)];
    IntReadsBack(withCount, node, "decimals", decimals);
    IntReadsBack(f, node, "num_values", count);
    assert Path(node, "decimals") != Path(node, "num_values");
  }

  /** After publishing, `value<n>` holds the n-th published raw value, or what it held before. */
  lemma PublishedRawValue(files: map<Path, string>, node: string, p: Readings, n: int)
    ensures IntOf(ReadAttribute(Published(files, node, p), node, ValueName(n), false)) ==
      if 0 <= n < |p.raw| then p.raw[n] else IntOf(ReadAttribute(files, node, ValueName(n), false))
  {
    var g := Published(files, node, p);
    assert ValueName(n)[0] == 'v';
    assert Path(node, "num_values") != Path(node, ValueName(n)) by { assert "num_values"[0] == 'n'; }
    assert Path(node, "decimals") != Path(node, ValueName(n)) by { assert "decimals"[0] == 'd'; }
    assert Lookup(g, Path(node, ValueName(n))) == Lookup(PublishRaw(files, node, p.raw), Path(node, ValueName(n)));
    PublishRawLookup(files, node, p.raw, n);
    if 0 <= n < |p.raw| {
      StripOfIntToString(p.raw[n]);
      ToIOfIntToString(p.raw[n]);
    }
  }

  /** After publishing, `value(n)` is bounded by the published count and scaled by the published decimals. */
  lemma PublishedValue(files: map<Path, string>, node: string, p: Readings, n: int)
    ensures ValueIn(Published(files, node, p), node, n) ==
      if n >= p.numValues then Failure(ArgumentError)
      else if 0 <= n < |p.raw| then Success(Scaled(p.raw[n], p.decimals))
      else Success(Scaled(IntOf(ReadAttribute(files, node, ValueName(n), false)), p.decimals))
  {
    PublishedCounts(files, node, p);
    PublishedRawValue(files, node, p, n);
  }

  /** Publishing keeps the mode and the list of modes. */
  lemma PublishedKeeps(files: map<Path, string>, node: string, p: Readings)
    ensures Lookup(Published(files, node, p), Path(node, "mode")) == Lookup(files, Path(node, "mode"))
    ensures Lookup(Published(files, node, p), Path(node, "modes")) == Lookup(files, Path(node, "modes"))
  {
    PublishRawOther(files, node, p.raw, Path(node, "mode"));
    PublishRawOther(files, node, p.raw, Path(node, "modes"));
  }

  class Sensor {
    const device: Device
    var modesCache: Option<seq<string>>

    constructor (device: Device)
      ensures this.device == device && modesCache == None
    {
      this.device := device;
      modesCache := None;
    }

    function Decimals(): int reads device.fs { DecimalsIn(device.fs.files, device.node) }
    function NumValues(): int reads device.fs { NumValuesIn(device.fs.files, device.node) }
    /** `mode`: the current mode, read every time. */
    function Mode(): Option<string> reads device.fs { device.Read("mode") }
    function Value(n: int): Result<Number> reads device.fs { ValueIn(device.fs.files, device.node, n) }
    function Values(): seq<Number> reads device.fs { ValuesIn(device.fs.files, device.node) }
    function PollMs(): Result<Option<int>> reads device.fs { PollMsIn(device.fs.files, device.node) }

    /** The modes `modes` returns now: remembered, or read from the file. */
    function ModesValue(): Result<seq<string>>
      reads this, device.fs
    {
      CachedWords(device.fs.files, device.node, "modes", modesCache)
    }

    /** `modes`: the space-separated `modes` attribute, remembered once read. */
    method Modes() returns (r: Result<seq<string>>)
      modifies this
      ensures r == old(ModesValue())
      ensures modesCache == if r.Success? then Some(r.value) else old(modesCache)
    {
      if modesCache.None? {
        r := WordsOf(device.Read("modes"));
        if r.Success? {
          modesCache := Some(r.value);
        }
      } else {
        r := Success(modesCache.value);
      }
    }

    /** `mode=`: writes the mode when it is one of `modes`, and otherwise raises without writing. */
    method SetMode(value: string) returns (r: Outcome)
      modifies this, device.fs
      ensures r == MemberCheck(old(ModesValue()), value)
      ensures device.fs.log == old(device.fs.log) + if r.Pass? then [Write(Path(device.node, "mode"), value)] else []
      ensures device.fs.files == if r.Pass? then old(device.fs.files)[Path(device.node, "mode") := value] else old(device.fs.files)
      ensures ModesValue() == old(ModesValue())
      ensures modesCache == if old(ModesValue()).Success? then Some(old(ModesValue()).value) else old(modesCache)
    {
      var modes := Modes();
      r := MemberCheck(modes, value);
      if r.Pass? {
        device.WriteAttribute("mode", value);
      }
    }

    /** `self.mode = m unless mode == m`: the mode is written only when it differs. */
    method EnsureMode(m: string) returns (r: Outcome)
      modifies this, device.fs
      ensures r == ModeSwitch(old(Mode()), old(ModesValue()), m)
      ensures device.fs.log == old(device.fs.log) +
        if old(Mode()) != Some(m) && r.Pass? then [Write(Path(device.node, "mode"), m)] else []
      ensures device.fs.files ==
        if old(Mode()) != Some(m) && r.Pass? then old(device.fs.files)[Path(device.node, "mode") := m] else old(device.fs.files)
      ensures ModesValue() == old(ModesValue())
      ensures modesCache ==
        if old(Mode()) != Some(m) && old(ModesValue()).Success? then Some(old(ModesValue()).value) else old(modesCache)
    {
      if Mode() == Some(m) {
        r := Pass;
      } else {
        r := SetMode(m);
      }
    }

    /** The driver publishes the readings of the mode the sensor is in; the library writes nothing. */
    method Publish(p: Readings)
      modifies device.fs
      ensures device.fs.files == Published(old(device.fs.files), device.node, p)
      ensures device.fs.log == old(device.fs.log)
    {
      device.fs.files := Published(device.fs.files, device.node, p);
    }
  }

  /** After a successful `mode=`, `mode` reads the new mode (for a mode name without surrounding whitespace). */
  lemma ModeReadsBack(files: map<Path, string>, node: string, m: string)
    requires m == [] || (!IsSpace(m[0]) && !IsSpace(m[|m| - 1]))
    ensures ReadAttribute(files[Path(node, "mode") := m], node, "mode", false) == Some(m)
  {
  }
}
