/**
 * The sysfs attribute files the EV3 library reads and writes.
 *
 * Every device lives in a directory; an attribute is a file in it. The model
 * keeps one map from (directory, attribute) to file contents and one log of all
 * writes in the order they happened, across every device, so that orderings
 * such as "the left motor is told to stop before the right one" can be stated.
 * Changes the hardware makes by itself (a new gyro angle, new motor state
 * flags) are `Tick`s: they change a file but are not writes of the library.
 */
module Sysfs {
  import opened Wrappers

  datatype Path = Path(dir: string, name: string)

  datatype Write = Write(path: Path, value: string)

  /** What a sequence of device operations did: the writes, in order, and how it ended. */
  datatype Effect = Effect(writes: seq<Write>, outcome: Outcome)

  function Lookup(files: map<Path, string>, p: Path): Option<string> {
    if p in files then Some(files[p]) else None
  }

  /** The files after the given writes, in order (File.open(path, 'w') replaces the contents). */
  function ApplyWrites(files: map<Path, string>, ws: seq<Write>): map<Path, string>
    decreases |ws|
  {
    if ws == [] then files
    else ApplyWrites(files, ws[..|ws| - 1])[ws[|ws| - 1].path := ws[|ws| - 1].value]
  }

  lemma {:induction false} ApplyWritesAppend(files: map<Path, string>, a: seq<Write>, b: seq<Write>)
    ensures ApplyWrites(files, a + b) == ApplyWrites(ApplyWrites(files, a), b)
    decreases |b|
  {
    if b == [] {
      assert a + b == a;
    } else {
      var b' := b[..|b| - 1];
      assert (a + b)[..|a + b| - 1] == a + b';
      ApplyWritesAppend(files, a, b');
    }
  }

  /** Running one effect after another: the second happens only when the first passed. */
  function Then(a: Effect, b: Effect): (e: Effect)
    ensures a.outcome.Fail? ==> e == a
    ensures a.outcome.Pass? ==> e.writes == a.writes + b.writes && e.outcome == b.outcome
  {
    if a.outcome.Fail? then a else Effect(a.writes + b.writes, b.outcome)
  }

  /**
   * Attributes the library only ever reads: no operation of the model writes
   * them and no `Tick` changes them. A sensor's `num_values` and `decimals`
   * belong to its current mode; they change only when the driver publishes
   * the readings of a newly selected mode (`Sensors.Sensor.Publish`).
   */
  predicate ReadOnlyName(name: string) {
    name in {"address", "commands", "driver_name", "count_per_rot", "max_speed",
             "stop_actions", "modes", "num_values", "decimals", "max_brightness"}
  }

  /** Two file maps agree on every read-only attribute. */
  ghost predicate SameReadOnly(f: map<Path, string>, g: map<Path, string>) {
    forall p: Path :: ReadOnlyName(p.name) ==> Lookup(f, p) == Lookup(g, p)
  }

  ghost predicate WritesNoReadOnly(ws: seq<Write>) {
    forall i :: 0 <= i < |ws| ==> !ReadOnlyName(ws[i].path.name)
  }

  lemma {:induction false} ApplyWritesKeepsReadOnly(files: map<Path, string>, ws: seq<Write>)
    requires WritesNoReadOnly(ws)
    ensures SameReadOnly(files, ApplyWrites(files, ws))
    decreases |ws|
  {
    if ws != [] {
      var ws' := ws[..|ws| - 1];
      assert WritesNoReadOnly(ws') by {
        forall i | 0 <= i < |ws'| ensures !ReadOnlyName(ws'[i].path.name) {
          assert ws'[i] == ws[i];
        }
      }
      ApplyWritesKeepsReadOnly(files, ws');
      var w := ws[|ws| - 1];
      assert !ReadOnlyName(w.path.name);
      var g := ApplyWrites(files, ws');
      forall p: Path | ReadOnlyName(p.name)
        ensures Lookup(files, p) == Lookup(g[w.path := w.value], p)
      {
        assert p != w.path;
        assert Lookup(g[w.path := w.value], p) == Lookup(g, p);
      }
    }
  }

  lemma SameReadOnlyTransitive(f: map<Path, string>, g: map<Path, string>, h: map<Path, string>)
    requires SameReadOnly(f, g) && SameReadOnly(g, h)
    ensures SameReadOnly(f, h)
  {
  }

  /** The files before an effect, and the log before it, became the given ones by exactly the effect's writes. */
  ghost predicate Did(log0: seq<Write>, files0: map<Path, string>, log: seq<Write>, files: map<Path, string>, e: Effect) {
    log == log0 + e.writes && files == ApplyWrites(files0, e.writes)
  }

  /** Doing one effect and then, if it passed, another, did `Then` of the two. */
  lemma DidThen(log0: seq<Write>, files0: map<Path, string>, log1: seq<Write>, files1: map<Path, string>,
                log2: seq<Write>, files2: map<Path, string>, a: Effect, b: Effect)
    requires Did(log0, files0, log1, files1, a)
    requires a.outcome.Pass? ==> Did(log1, files1, log2, files2, b)
    requires a.outcome.Fail? ==> log2 == log1 && files2 == files1
    ensures Did(log0, files0, log2, files2, Then(a, b))
  {
    if a.outcome.Pass? {
      ApplyWritesAppend(files0, a.writes, b.writes);
    }
  }

  /** Running one effect after another is associative. */
  lemma ThenAssociative(a: Effect, b: Effect, c: Effect)
    ensures Then(Then(a, b), c) == Then(a, Then(b, c))
  {
  }

  /** Changing an attribute that is not read-only keeps every read-only one. */
  lemma UpdateKeepsReadOnly(files: map<Path, string>, p: Path, v: string)
    requires !ReadOnlyName(p.name)
    ensures SameReadOnly(files, files[p := v])
  {
    forall q: Path | ReadOnlyName(q.name) ensures Lookup(files, q) == Lookup(files[p := v], q) {
      assert q != p;
    }
  }

  /** The attribute files and the record of everything written to them. */
  class FileSystem {
    var files: map<Path, string>
    var log: seq<Write>

    constructor (initial: map<Path, string>)
      ensures files == initial && log == []
    {
      files := initial;
      log := [];
    }

    /** File.open(path, 'w') { |f| f.write(value) } */
    method Store(p: Path, value: string)
      modifies this
      ensures files == old(files)[p := value]
      ensures log == old(log) + [Write(p, value)]
    {
      files := files[p := value];
      log := log + [Write(p, value)];
    }

    /** The hardware publishes a new value of an attribute it maintains. */
    method Tick(p: Path, value: string)
      requires !ReadOnlyName(p.name)
      modifies this
      ensures files == old(files)[p := value]
      ensures log == old(log)
    {
      files := files[p := value];
    }
  }
}
