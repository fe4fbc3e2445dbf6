/**
 * Ev3::Sensors::Color: a sensor with a colour-detection mode whose reading is
 * a colour code, and ambient, reflected and raw-RGB light modes. Each reading
 * operation first switches the sensor to its mode, writing the mode only when
 * the sensor is not in it already.
 */
module ColorSensors {
  import opened Wrappers
  import opened Sysfs
  import opened Devices
  import opened Sensors

  /** COLORS: colour name to colour code. */
  const ColorCodes: map<string, int> :=
    map["none" := 0, "black" := 1, "blue" := 2, "green" := 3, "yellow" := 4, "red" := 5, "white" := 6, "brown" := 7]

  /** COLORS_BY_CODE: colour code to colour name. */
  const ColorsByCode: map<int, string> :=
    map[0 := "none", 1 := "black", 2 := "blue", 3 := "green", 4 := "yellow", 5 := "red", 6 := "white", 7 := "brown"]

  /** The two tables are inverse bijections between the eight names and the codes 0..7. */
  lemma ColorTablesInverse()
    ensures ColorsByCode.Keys == {0, 1, 2, 3, 4, 5, 6, 7}
    ensures forall name :: name in ColorCodes ==> ColorCodes[name] in ColorsByCode && ColorsByCode[ColorCodes[name]] == name
    ensures forall c :: c in ColorsByCode ==> ColorsByCode[c] in ColorCodes && ColorCodes[ColorsByCode[c]] == c
  {
    forall name | name in ColorCodes
      ensures ColorCodes[name] in ColorsByCode && ColorsByCode[ColorCodes[name]] == name
    {
      NameRoundTrip(name);
    }
    forall c | c in ColorsByCode
      ensures ColorsByCode[c] in ColorCodes && ColorCodes[ColorsByCode[c]] == c
    {
      CodeRoundTrip(c);
    }
  }

  lemma NameRoundTrip(name: string)
    requires name in ColorCodes
    ensures ColorCodes[name] in ColorsByCode && ColorsByCode[ColorCodes[name]] == name
  {
    assert name == "none" || name == "black" || name == "blue" || name == "green" ||
           name == "yellow" || name == "red" || name == "white" || name == "brown";
  }

  lemma CodeRoundTrip(c: int)
    requires c in ColorsByCode
    ensures ColorsByCode[c] in ColorCodes && ColorCodes[ColorsByCode[c]] == c
  {
    assert 0 <= c < 8;
  }

  /** Distinct names have distinct codes. */
  lemma ColorCodesInjective(a: string, b: string)
    requires a in ColorCodes && b in ColorCodes && a != b
    ensures ColorCodes[a] != ColorCodes[b]
  {
    ColorTablesInverse();
    assert ColorsByCode[ColorCodes[a]] == a;
    assert ColorsByCode[ColorCodes[b]] == b;
  }

  /** `COLORS_BY_CODE.fetch(value)`: a Hash key must be that very Integer, so a Rational or an unknown code raises. */
  function FetchColor(x: Number): (r: Result<string>)
    ensures r.Success? <==> x.Int? && x.i in ColorsByCode
    ensures r.Failure? ==> r.error == KeyError
  {
    match x
    case Int(c) => if c in ColorsByCode then Success(ColorsByCode[c]) else Failure(KeyError)
    case Rat(_) => Failure(KeyError)
  }

  /** `name?`: the reading compared by value with the name's code; the sensor must be in COL-COLOR mode. */
  function IsColor(s: Sensor, name: string): (r: Result<bool>)
    requires name in ColorCodes
    reads s.device.fs
    ensures s.Mode() != Some("COL-COLOR") ==> r == Failure(RuntimeError)
    ensures s.Mode() == Some("COL-COLOR") && s.Value(0).Failure? ==> r == Failure(s.Value(0).error)
    ensures s.Mode() == Some("COL-COLOR") && s.Value(0).Success? ==>
      r == Success(AsReal(s.Value(0).value) == ColorCodes[name] as real)
  {
    if s.Mode() != Some("COL-COLOR") then Failure(RuntimeError)
    else match s.Value(0)
      case Failure(e) => Failure(e)
      case Success(x) => Success(AsReal(x) == ColorCodes[name] as real)
  }

  /** For any reading at most one `name?` predicate is true. */
  lemma AtMostOneColor(s: Sensor, a: string, b: string)
    requires a in ColorCodes && b in ColorCodes && a != b
    requires IsColor(s, a) == Success(true)
    ensures IsColor(s, b) == Success(false)
  {
    ColorCodesInjective(a, b);
  }

  /** On an Integer reading `color` names exactly the colour whose predicate holds. */
  lemma FetchColorAgrees(x: Number, name: string)
    requires name in ColorCodes && x.Int?
    ensures FetchColor(x) == Success(name) <==> AsReal(x) == ColorCodes[name] as real
  {
    ColorTablesInverse();
    if AsReal(x) == ColorCodes[name] as real {
      assert x.i == ColorCodes[name];
    }
  }

  /** `color` succeeds exactly on the codes 0..7, and names a colour whose code is the reading. */
  lemma FetchColorCodes(x: Number)
    ensures FetchColor(x).Success? <==> x.Int? && 0 <= x.i < 8
    ensures FetchColor(x).Success? ==> FetchColor(x).value in ColorCodes && ColorCodes[FetchColor(x).value] == x.i
  {
    ColorTablesInverse();
    if x.Int? {
      assert x.i in ColorsByCode <==> x.i in {0, 1, 2, 3, 4, 5, 6, 7};
      if x.i in ColorsByCode {
        assert FetchColor(x).value == ColorsByCode[x.i];
      }
    }
  }

  /** A reading with decimals can satisfy a predicate while `color` raises: 3/1 equals 3 but is not the key 3. */
  lemma RationalReadingDisagrees()
    ensures AsReal(Rat(3.0)) == ColorCodes["green"] as real
    ensures FetchColor(Rat(3.0)) == Failure(KeyError)
  {
  }

  /** What a mode-switching read returns: the mode switch's error, or the read. */
  function AfterSwitch<T>(o: Outcome, read: Result<T>): (r: Result<T>)
    ensures o.Fail? ==> r == Failure(o.error)
    ensures o.Pass? ==> r == read
  {
    if o.Fail? then Failure(o.error) else read
  }

  function FetchRead(read: Result<Number>): Result<string> {
    match read
    case Failure(e) => Failure(e)
    case Success(x) => FetchColor(x)
  }

  datatype Rgb = Rgb(red: Number, green: Number, blue: Number)

  /** `{ red: value(0), green: value(1), blue: value(2) }`, raising at the first missing value. */
  function RgbIn(files: map<Path, string>, node: string): (r: Result<Rgb>)
    ensures NumValuesIn(files, node) < 3 ==> r == Failure(ArgumentError)
    ensures NumValuesIn(files, node) >= 3 ==>
      r == Success(Rgb(ValueIn(files, node, 0).value, ValueIn(files, node, 1).value, ValueIn(files, node, 2).value))
  {
    var red :- ValueIn(files, node, 0);
    var green :- ValueIn(files, node, 1);
    var blue :- ValueIn(files, node, 2);
    Success(Rgb(red, green, blue))
  }

  /** The files before a mode switch, once the mode has been written when it had to be. */
  function ModeWritten(files: map<Path, string>, node: string, mode: Option<string>, m: string): map<Path, string> {
    if mode != Some(m) then files[Path(node, "mode") := m] else files
  }

  /**
   * The state after `self.mode = m unless mode == m` with the driver then
   * publishing the readings p of mode m: the mode write is logged when it was
   * needed, the readings replace the old ones, and `modes` is remembered once
   * it has been consulted. A switch that raises changes no file.
   */
  twostate predicate Switched(s: Sensor, m: string, p: Readings)
    reads s, s.device.fs
  {
    var o := ModeSwitch(old(s.Mode()), old(s.ModesValue()), m);
    && s.device.fs.log == old(s.device.fs.log) +
         (if old(s.Mode()) != Some(m) && o.Pass? then [Write(Path(s.device.node, "mode"), m)] else [])
    && s.device.fs.files ==
         (if o.Fail? then old(s.device.fs.files)
          else Published(ModeWritten(old(s.device.fs.files), s.device.node, old(s.Mode()), m), s.device.node, p))
    && s.modesCache ==
         (if old(s.Mode()) != Some(m) && old(s.ModesValue()).Success? then Some(old(s.ModesValue()).value) else old(s.modesCache))
  }

  /** Switches the sensor to mode m when needed; the driver then publishes that mode's readings p. */
  method SwitchMode(s: Sensor, m: string, p: Readings) returns (o: Outcome)
    modifies s, s.device.fs
    ensures o == ModeSwitch(old(s.Mode()), old(s.ModesValue()), m)
    ensures Switched(s, m, p)
    ensures s.ModesValue() == old(s.ModesValue())
  {
    o := s.EnsureMode(m);
    if o.Pass? {
      ghost var f := s.device.fs.files;
      s.Publish(p);
      PublishedKeeps(f, s.device.node, p);
    }
  }

  /** `color`: the colour name of the first COL-COLOR reading published after the switch. */
  method Color(s: Sensor, p: Readings) returns (r: Result<string>)
    modifies s, s.device.fs
    ensures Switched(s, "COL-COLOR", p)
    ensures r == AfterSwitch(ModeSwitch(old(s.Mode()), old(s.ModesValue()), "COL-COLOR"),
                             FetchRead(ValueIn(s.device.fs.files, s.device.node, 0)))
    ensures ModeSwitch(old(s.Mode()), old(s.ModesValue()), "COL-COLOR").Pass? && 0 < p.numValues && p.raw != [] ==>
      r == FetchColor(Scaled(p.raw[0], p.decimals))
    ensures ModeSwitch(old(s.Mode()), old(s.ModesValue()), "COL-COLOR").Pass? && p.numValues <= 0 ==>
      r == Failure(ArgumentError)
  {
    ghost var before := ModeWritten(s.device.fs.files, s.device.node, s.Mode(), "COL-COLOR");
    var o := SwitchMode(s, "COL-COLOR", p);
    if o.Fail? {
      r := Failure(o.error);
    } else {
      r := FetchRead(s.Value(0));
      PublishedValue(before, s.device.node, p, 0);
    }
  }

  /** `ambient_light`: the first COL-AMBIENT reading published after the switch. */
  method AmbientLight(s: Sensor, p: Readings) returns (r: Result<Number>)
    modifies s, s.device.fs
    ensures Switched(s, "COL-AMBIENT", p)
    ensures r == AfterSwitch(ModeSwitch(old(s.Mode()), old(s.ModesValue()), "COL-AMBIENT"),
                             ValueIn(s.device.fs.files, s.device.node, 0))
    ensures ModeSwitch(old(s.Mode()), old(s.ModesValue()), "COL-AMBIENT").Pass? && 0 < p.numValues && p.raw != [] ==>
      r == Success(Scaled(p.raw[0], p.decimals))
    ensures ModeSwitch(old(s.Mode()), old(s.ModesValue()), "COL-AMBIENT").Pass? && p.numValues <= 0 ==>
      r == Failure(ArgumentError)
  {
    ghost var before := ModeWritten(s.device.fs.files, s.device.node, s.Mode(), "COL-AMBIENT");
    var o := SwitchMode(s, "COL-AMBIENT", p);
    r := AfterSwitch(o, s.Value(0));
    if o.Pass? {
      PublishedValue(before, s.device.node, p, 0);
    }
  }

  /** `reflected_light`: the first COL-REFLECT reading published after the switch. */
  method ReflectedLight(s: Sensor, p: Readings) returns (r: Result<Number>)
    modifies s, s.device.fs
    ensures Switched(s, "COL-REFLECT", p)
    ensures r == AfterSwitch(ModeSwitch(old(s.Mode()), old(s.ModesValue()), "COL-REFLECT"),
                             ValueIn(s.device.fs.files, s.device.node, 0))
    ensures ModeSwitch(old(s.Mode()), old(s.ModesValue()), "COL-REFLECT").Pass? && 0 < p.numValues && p.raw != [] ==>
      r == Success(Scaled(p.raw[0], p.decimals))
    ensures ModeSwitch(old(s.Mode()), old(s.ModesValue()), "COL-REFLECT").Pass? && p.numValues <= 0 ==>
      r == Failure(ArgumentError)
  {
    ghost var before := ModeWritten(s.device.fs.files, s.device.node, s.Mode(), "COL-REFLECT");
    var o := SwitchMode(s, "COL-REFLECT", p);
    r := AfterSwitch(o, s.Value(0));
    if o.Pass? {
      PublishedValue(before, s.device.node, p, 0);
    }
  }

  /** `rgb`: the three RGB-RAW readings published after the switch. */
  method ReadRgb(s: Sensor, p: Readings) returns (r: Result<Rgb>)
    modifies s, s.device.fs
    ensures Switched(s, "RGB-RAW", p)
    ensures r == AfterSwitch(ModeSwitch(old(s.Mode()), old(s.ModesValue()), "RGB-RAW"),
                             RgbIn(s.device.fs.files, s.device.node))
    ensures ModeSwitch(old(s.Mode()), old(s.ModesValue()), "RGB-RAW").Pass? && 3 <= p.numValues && 3 <= |p.raw| ==>
      r == Success(Rgb(Scaled(p.raw[0], p.decimals), Scaled(p.raw[1], p.decimals), Scaled(p.raw[2], p.decimals)))
    ensures ModeSwitch(old(s.Mode()), old(s.ModesValue()), "RGB-RAW").Pass? && p.numValues < 3 ==>
      r == Failure(ArgumentError)
  {
    ghost var before := ModeWritten(s.device.fs.files, s.device.node, s.Mode(), "RGB-RAW");
    var o := SwitchMode(s, "RGB-RAW", p);
    r := AfterSwitch(o, RgbIn(s.device.fs.files, s.device.node));
    if o.Pass? {
      PublishedValue(before, s.device.node, p, 0);
      PublishedValue(before, s.device.node, p, 1);
      PublishedValue(before, s.device.node, p, 2);
    }
  }
}
