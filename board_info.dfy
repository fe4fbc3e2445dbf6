/**
 * Ev3::BoardInfo: the brick's board description, published as a uevent file
 * of `BOARD_INFO_KEY=value` lines. The lines are parsed into a table from
 * lower-cased keys to values once per instance and remembered.
 */
module BoardInfos {
  import opened Wrappers
  import opened Text
  import opened Sysfs
  import opened Devices

  /** The parsed uevent: lower-cased key to value, nil for a line without a value. */
  type Table = map<string, Option<string>>

  const Prefix: string := "BOARD_INFO_"

  /** `line.strip.sub(/^BOARD_INFO_/, '')`: a prefix at the very start is removed. */
  function Unprefixed(line: string): (u: string)
    ensures StartsWith(Strip(line), Prefix) ==> Strip(line) == Prefix + u
    ensures !StartsWith(Strip(line), Prefix) ==> u == Strip(line)
  {
    var t := Strip(line);
    if StartsWith(t, Prefix) then
      assert t == t[..|Prefix|] + t[|Prefix|..] by { SliceJoin(t, |Prefix|); }
      t[|Prefix|..]
    else t
  }

  lemma SliceJoin(s: string, k: int)
    requires 0 <= k <= |s|
    ensures s == s[..k] + s[k..]
  {
  }

  /** A line that starts with the prefix and has no surrounding whitespace loses exactly the prefix. */
  lemma UnprefixedOf(rest: string)
    requires rest == [] || !IsSpace(rest[|rest| - 1])
    ensures Unprefixed(Prefix + rest) == rest
  {
    var line := Prefix + rest;
    assert !IsSpace(line[0]) by { assert line[0] == 'B'; }
    assert !IsSpace(line[|line| - 1]) by {
      if rest == [] { assert line[|line| - 1] == '_'; } else { assert line[|line| - 1] == rest[|rest| - 1]; }
    }
    assert Strip(line) == line;
    assert line[..|Prefix|] == Prefix;
    assert line[|Prefix|..] == rest;
  }

  /**
   * One line as a (key, value) pair: the pieces of `split('=')` are the key
   * (lower-cased) and the value; further pieces are dropped and a missing
   * value is nil. A line that splits into nothing has a nil key, which has
   * no `downcase`.
   */
  function ParseLine(line: string): (r: Result<(string, Option<string>)>)
    ensures var parts := SplitOn(Unprefixed(line), '=');
      && (r.Failure? <==> parts == [])
      && (r.Failure? ==> r.error == NoMethodError)
      && (r.Success? ==> r.value == PairOf(parts))
  {
    var parts := SplitOn(Unprefixed(line), '=');
    if parts == [] then Failure(NoMethodError) else Success(PairOf(parts))
  }

  /** `key, value = parts`, the key lower-cased: the first two pieces, a missing second one nil. */
  function PairOf(parts: seq<string>): (kv: (string, Option<string>))
    requires parts != []
    ensures kv.0 == Downcase(parts[0])
    ensures kv.1.Some? <==> |parts| >= 2
    ensures kv.1.Some? ==> kv.1.value == parts[1]
  {
    (Downcase(parts[0]), if |parts| >= 2 then Some(parts[1]) else None)
  }

  lemma AppendAssociative(a: string, b: string, c: string, d: string)
    ensures a + b + c + d == a + (b + c + d)
  {
  }

  lemma RegroupTail(a: string, b: string, e: string, c: string, d: string)
    ensures a + b + e + c + e + d == a + (b + e + c + (e + d))
  {
  }

  lemma AppendEmpty(a: string)
    ensures a + [] == a
  {
  }

  lemma LastOfAppend(a: string, b: string)
    requires b != []
    ensures (a + b)[|a + b| - 1] == b[|b| - 1]
  {
  }

  /** A line that is the prefix followed by text without trailing whitespace is parsed from that text's pieces. */
  lemma ParsePrefixed(rest: string)
    requires rest == [] || !IsSpace(rest[|rest| - 1])
    ensures var parts := SplitOn(rest, '=');
      ParseLine(Prefix + rest) == if parts == [] then Failure(NoMethodError) else Success(PairOf(parts))
  {
    UnprefixedOf(rest);
  }

  /** A well-formed line `BOARD_INFO_<key>=<value>` gives the lower-cased key and the value. */
  lemma ParseKeyValueLine(k: string, v: string)
    requires '=' !in k && '=' !in v && v != ""
    requires !IsSpace(v[|v| - 1])
    ensures ParseLine(Prefix + k + "=" + v) == Success((Downcase(k), Some(v)))
  {
    var rest := k + "=" + v;
    AppendAssociative(Prefix, k, "=", v);
    LastOfAppend(k + "=", v);
    ParsePrefixed(rest);
    AppendEmpty(rest);
    SplitOnKeyValue(k, '=', v, []);
  }

  /** A value holding a further `=` is cut at it. */
  lemma ParseTruncatesValue(k: string, v: string, w: string)
    requires '=' !in k && '=' !in v && v != ""
    requires w == [] || !IsSpace(w[|w| - 1])
    ensures ParseLine(Prefix + k + "=" + v + "=" + w) == Success((Downcase(k), Some(v)))
  {
    var tail := "=" + w;
    var rest := k + "=" + v + tail;
    RegroupTail(Prefix, k, "=", v, w);
    LastOfAppend(k + "=" + v, tail);
    ParsePrefixed(rest);
    SplitOnKeyValue(k, '=', v, tail);
  }

  /** A line without `=` maps its whole (unprefixed) text to nil. */
  lemma ParseLineWithoutValue(line: string)
    requires Unprefixed(line) != [] && '=' !in Unprefixed(line)
    ensures ParseLine(line) == Success((Downcase(Unprefixed(line)), None))
  {
    SegmentsWithout(Unprefixed(line), '=');
  }

  /** A blank line raises. */
  lemma ParseBlankLine(line: string)
    requires Strip(line) == []
    ensures ParseLine(line) == Failure(NoMethodError)
  {
    assert Unprefixed(line) == [];
    assert Segments([], '=') == [""];
    assert DropTrailingEmpty([""]) == DropTrailingEmpty([]);
  }

  /** Every line parsed in order; the first line that raises ends the parse. */
  function ParseLines(lines: seq<string>): (r: Result<seq<(string, Option<string>)>>)
    ensures r.Success? ==> |r.value| == |lines| && forall i :: 0 <= i < |lines| ==> ParseLine(lines[i]) == Success(r.value[i])
    ensures r.Failure? ==> exists i :: 0 <= i < |lines| && ParseLine(lines[i]) == Failure(r.error)
    decreases |lines|
  {
    if lines == [] then Success([])
    else
      match ParseLine(lines[0])
      case Failure(e) => Failure(e)
      case Success(pair) =>
        match ParseLines(lines[1..])
        case Failure(e) => Failure(e)
        case Success(rest) => Success([pair] + rest)
  }

  /** Hash[pairs]: later pairs overwrite earlier ones with the same key. */
  function TableOf(pairs: seq<(string, Option<string>)>): Table
    decreases |pairs|
  {
    if pairs == [] then map[]
    else TableOf(pairs[..|pairs| - 1])[pairs[|pairs| - 1].0 := pairs[|pairs| - 1].1]
  }

  /** A key is in the table exactly when some pair has it, and its value is that of the last such pair. */
  lemma {:induction false} TableOfLastWins(pairs: seq<(string, Option<string>)>, i: int)
    requires 0 <= i < |pairs|
    requires forall j :: i < j < |pairs| ==> pairs[j].0 != pairs[i].0
    ensures pairs[i].0 in TableOf(pairs) && TableOf(pairs)[pairs[i].0] == pairs[i].1
    decreases |pairs|
  {
    if i < |pairs| - 1 {
      var front := pairs[..|pairs| - 1];
      assert front[i] == pairs[i];
      forall j | i < j < |front| ensures front[j].0 != front[i].0 {
        assert front[j] == pairs[j];
      }
      TableOfLastWins(front, i);
    }
  }

  lemma {:induction false} TableOfKeys(pairs: seq<(string, Option<string>)>, key: string)
    ensures key in TableOf(pairs) <==> exists i :: 0 <= i < |pairs| && pairs[i].0 == key
    decreases |pairs|
  {
    if pairs != [] {
      var front := pairs[..|pairs| - 1];
      TableOfKeys(front, key);
      if key in TableOf(front) {
        var i :| 0 <= i < |front| && front[i].0 == key;
        assert pairs[i].0 == key;
      }
      if key !in TableOf(pairs) {
        forall i | 0 <= i < |pairs| ensures pairs[i].0 != key {
          if i < |front| {
            assert front[i] == pairs[i];
          }
        }
      }
    }
  }

  /** `parsed_uevent` over the uevent text; a missing uevent has no `each_line`. */
  function ParseUevent(uevent: Option<string>): (r: Result<Table>)
    ensures uevent.None? ==> r == Failure(NoMethodError)
    ensures uevent.Some? ==> (r.Failure? <==> ParseLines(Lines(uevent.value)).Failure?)
    ensures uevent.Some? && r.Success? ==> r.value == TableOf(ParseLines(Lines(uevent.value)).value)
  {
    match uevent
    case None => Failure(NoMethodError)
    case Some(text) =>
      match ParseLines(Lines(text))
      case Failure(e) => Failure(e)
      case Success(pairs) => Success(TableOf(pairs))
  }

  /** The value a key of the table gives under `[]`: nil when absent. */
  function Entry(t: Table, key: string): (v: Option<string>)
    ensures key !in t ==> v.None?
  {
    if key in t then t[key] else None
  }

  /** A key held by one line only reads that line's value, whatever the other lines say. */
  lemma ParsedEntry(lines: seq<string>, i: int, k: string, v: Option<string>)
    requires ParseLines(lines).Success?
    requires 0 <= i < |lines| && ParseLine(lines[i]) == Success((k, v))
    requires forall j :: i < j < |lines| ==> ParseLine(lines[j]).value.0 != k
    ensures Entry(TableOf(ParseLines(lines).value), k) == v
  {
    var pairs := ParseLines(lines).value;
    assert pairs[i] == (k, v);
    forall j | i < j < |pairs| ensures pairs[j].0 != pairs[i].0 {
      assert ParseLine(lines[j]) == Success(pairs[j]);
    }
    TableOfLastWins(pairs, i);
  }

  /** Keys no line has are absent, so their accessor gives nil. */
  lemma UnparsedEntry(lines: seq<string>, k: string)
    requires ParseLines(lines).Success?
    requires forall j :: 0 <= j < |lines| ==> ParseLine(lines[j]).value.0 != k
    ensures Entry(TableOf(ParseLines(lines).value), k) == None
  {
    var pairs := ParseLines(lines).value;
    forall j | 0 <= j < |pairs| ensures pairs[j].0 != k {
      assert ParseLine(lines[j]) == Success(pairs[j]);
    }
    TableOfKeys(pairs, k);
  }

  class BoardInfo {
    const device: Device
    var parsedCache: Option<Table>

    constructor (device: Device)
      ensures this.device == device && parsedCache == None
    {
      this.device := device;
      parsedCache := None;
    }

    /** `uevent`. */
    function Uevent(): Option<string> reads device.fs { device.Read("uevent") }

    /** The table `parsed_uevent` returns now: remembered, or parsed afresh. */
    function ParsedValue(): Result<Table>
      reads this, device.fs
    {
      if parsedCache.Some? then Success(parsedCache.value) else ParseUevent(Uevent())
    }

    /** `parsed_uevent`: parsed once and remembered (a Hash is never nil). */
    method ParsedUevent() returns (r: Result<Table>)
      modifies this
      ensures r == old(ParsedValue())
      ensures parsedCache == if r.Success? then Some(r.value) else old(parsedCache)
    {
      if parsedCache.Some? {
        r := Success(parsedCache.value);
      } else {
        r := ParseUevent(Uevent());
        if r.Success? {
          parsedCache := Some(r.value);
        }
      }
    }

    /** `parsed_uevent[key]`. */
    method Field(key: string) returns (r: Result<Option<string>>)
      modifies this
      ensures old(ParsedValue()).Failure? ==> r == Failure(old(ParsedValue()).error)
      ensures old(ParsedValue()).Success? ==> r == Success(Entry(old(ParsedValue()).value, key))
      ensures parsedCache == if old(ParsedValue()).Success? then Some(old(ParsedValue()).value) else old(parsedCache)
    {
      var t :- ParsedUevent();
      r := Success(Entry(t, key));
    }

    /** `hardware_revision`. */
    method HardwareRevision() returns (r: Result<Option<string>>)
      modifies this
      ensures old(ParsedValue()).Success? ==> r == Success(Entry(old(ParsedValue()).value, "hw_rev"))
      ensures old(ParsedValue()).Failure? ==> r == Failure(old(ParsedValue()).error)
      ensures parsedCache == if old(ParsedValue()).Success? then Some(old(ParsedValue()).value) else old(parsedCache)
    {
      r := Field("hw_rev");
    }

    /** `model`. */
    method Model() returns (r: Result<Option<string>>)
      modifies this
      ensures old(ParsedValue()).Success? ==> r == Success(Entry(old(ParsedValue()).value, "model"))
      ensures old(ParsedValue()).Failure? ==> r == Failure(old(ParsedValue()).error)
      ensures parsedCache == if old(ParsedValue()).Success? then Some(old(ParsedValue()).value) else old(parsedCache)
    {
      r := Field("model");
    }

    /** `rom_revision`. */
    method RomRevision() returns (r: Result<Option<string>>)
      modifies this
      ensures old(ParsedValue()).Success? ==> r == Success(Entry(old(ParsedValue()).value, "rom_rev"))
      ensures old(ParsedValue()).Failure? ==> r == Failure(old(ParsedValue()).error)
      ensures parsedCache == if old(ParsedValue()).Success? then Some(old(ParsedValue()).value) else old(parsedCache)
    {
      r := Field("rom_rev");
    }

    /** `serial_number`. */
    method SerialNumber() returns (r: Result<Option<string>>)
      modifies this
      ensures old(ParsedValue()).Success? ==> r == Success(Entry(old(ParsedValue()).value, "serial_num"))
      ensures old(ParsedValue()).Failure? ==> r == Failure(old(ParsedValue()).error)
      ensures parsedCache == if old(ParsedValue()).Success? then Some(old(ParsedValue()).value) else old(parsedCache)
    {
      r := Field("serial_num");
    }

    /** `type`. */
    method Type() returns (r: Result<Option<string>>)
      modifies this
      ensures old(ParsedValue()).Success? ==> r == Success(Entry(old(ParsedValue()).value, "type"))
      ensures old(ParsedValue()).Failure? ==> r == Failure(old(ParsedValue()).error)
      ensures parsedCache == if old(ParsedValue()).Success? then Some(old(ParsedValue()).value) else old(parsedCache)
    {
      r := Field("type");
    }
  }
}
