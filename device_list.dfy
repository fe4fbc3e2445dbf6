/**
 * Ev3::DeviceList: the detected devices of one kind keyed by their port
 * address. Lookup accepts an address String or a port Symbol such as `:outB`,
 * which the PORTS table turns into the address `ev3-ports:outB`.
 *
 * The Hash is an insertion-ordered list of distinct keys; a repeated key
 * keeps its first position and takes the latest value, as Ruby's Hash does.
 */
module DeviceLists {
  import opened Wrappers

  /** PORTS: port names (Symbols, by name) to their addresses. */
  const Ports: map<string, string> :=
    map["outA" := "ev3-ports:outA", "outB" := "ev3-ports:outB", "outC" := "ev3-ports:outC", "outD" := "ev3-ports:outD",
        "in1" := "ev3-ports:in1", "in2" := "ev3-ports:in2", "in3" := "ev3-ports:in3", "in4" := "ev3-ports:in4"]

  /** The argument of `[]`: a Symbol, a String, or nil. */
  datatype Key = Sym(name: string) | Str(text: string) | Nil

  /** A device's address: nil when its `address` attribute is missing. */
  type Address = Option<string>

  type Entries<D> = seq<(Address, D)>

  /** The addresses of the entries, in order. */
  function KeysOf<D>(es: Entries<D>): (ks: seq<Address>)
    ensures |ks| == |es| && forall i :: 0 <= i < |es| ==> ks[i] == es[i].0
  {
    seq(|es|, i requires 0 <= i < |es| => es[i].0)
  }

  predicate DistinctKeys<D>(es: Entries<D>) {
    forall i, j :: 0 <= i < j < |es| ==> es[i].0 != es[j].0
  }

  /** The position of an address among the keys. */
  function IndexOf(ks: seq<Address>, a: Address): (i: int)
    requires a in ks
    ensures 0 <= i < |ks| && ks[i] == a
  {
    if ks[0] == a then 0 else 1 + IndexOf(ks[1..], a)
  }

  /** Hash#[]=: replace the value of a present key in place, or append a new key. */
  function Insert<D>(es: Entries<D>, a: Address, d: D): (r: Entries<D>)
    requires DistinctKeys(es)
    ensures KeysOf(r) == if a in KeysOf(es) then KeysOf(es) else KeysOf(es) + [a]
    ensures |r| >= |es| && forall i :: 0 <= i < |es| ==> r[i] == if es[i].0 == a then (a, d) else es[i]
    ensures a !in KeysOf(es) ==> r[|es|] == (a, d)
  {
    if a in KeysOf(es) then
      var k := IndexOf(KeysOf(es), a);
      var r := es[k := (a, d)];
      assert KeysOf(r) == KeysOf(es);
      r
    else
      var r := es + [(a, d)];
      assert KeysOf(r) == KeysOf(es) + [a];
      r
  }

  lemma InsertKeepsDistinct<D>(es: Entries<D>, a: Address, d: D)
    requires DistinctKeys(es)
    ensures DistinctKeys(Insert(es, a, d))
  {
    var r := Insert(es, a, d);
    forall i, j | 0 <= i < j < |r| ensures r[i].0 != r[j].0 {
      assert KeysOf(r)[i] == r[i].0 && KeysOf(r)[j] == r[j].0;
      if j < |es| {
        assert KeysOf(es)[i] == es[i].0 && KeysOf(es)[j] == es[j].0;
      } else {
        assert r[i].0 == es[i].0;
      }
    }
  }

  /** `Hash[devices.map { |device| [device.address, device] }]`: every stored address is distinct, so `each` yields each pair once. */
  function FromPairs<D>(pairs: Entries<D>): (es: Entries<D>)
    ensures DistinctKeys(es)
    decreases |pairs|
  {
    if pairs == [] then []
    else
      var front := FromPairs(pairs[..|pairs| - 1]);
      InsertKeepsDistinct(front, pairs[|pairs| - 1].0, pairs[|pairs| - 1].1);
      Insert(front, pairs[|pairs| - 1].0, pairs[|pairs| - 1].1)
  }

  /** Hash#[] on the entries: nil when the key is absent. */
  function Find<D>(es: Entries<D>, a: Address): (r: Option<D>)
    decreases |es|
  {
    if es == [] then None
    else if es[0].0 == a then Some(es[0].1)
    else Find(es[1..], a)
  }

  /** Find gives a device exactly when the key is present, and in entries with distinct keys it is the one stored under it. */
  lemma {:induction false} FindDistinct<D>(es: Entries<D>, i: int)
    requires DistinctKeys(es) && 0 <= i < |es|
    ensures Find(es, es[i].0) == Some(es[i].1)
    decreases |es|
  {
    if i > 0 {
      assert es[1..][i - 1] == es[i];
      FindDistinct(es[1..], i - 1);
    }
  }

  lemma {:induction false} FindAbsent<D>(es: Entries<D>, a: Address)
    requires a !in KeysOf(es)
    ensures Find(es, a) == None
    decreases |es|
  {
    if es != [] {
      assert KeysOf(es) == [es[0].0] + KeysOf(es[1..]);
      FindAbsent(es[1..], a);
    }
  }

  /** The list has one entry per distinct address, and each address takes the last device given for it. */
  lemma {:induction false} FromPairsLastWins<D>(pairs: Entries<D>, i: int)
    requires 0 <= i < |pairs|
    requires forall j :: i < j < |pairs| ==> pairs[j].0 != pairs[i].0
    ensures pairs[i] in FromPairs(pairs)
    decreases |pairs|
  {
    var front := pairs[..|pairs| - 1];
    var last := pairs[|pairs| - 1];
    var es := FromPairs(front);
    var r := FromPairs(pairs);
    assert r == Insert(es, last.0, last.1);
    if i == |pairs| - 1 {
      if last.0 in KeysOf(es) {
        var k :| 0 <= k < |es| && KeysOf(es)[k] == last.0;
        assert r[k] == last;
      } else {
        assert r[|es|] == last;
      }
    } else {
      assert front[i] == pairs[i];
      forall j | i < j < |front| ensures front[j].0 != front[i].0 {
        assert front[j] == pairs[j];
      }
      FromPairsLastWins(front, i);
      var k :| 0 <= k < |es| && es[k] == pairs[i];
      assert r[k] == es[k];
    }
  }

  /** An address is stored exactly when some device has it. */
  lemma {:induction false} FromPairsKeys<D>(pairs: Entries<D>)
    ensures forall a :: a in KeysOf(FromPairs(pairs)) <==> a in KeysOf(pairs)
    decreases |pairs|
  {
    if pairs != [] {
      var front := pairs[..|pairs| - 1];
      FromPairsKeys(front);
      assert KeysOf(pairs) == KeysOf(front) + [pairs[|pairs| - 1].0];
    }
  }

  /** A device list: the entries `each` yields, in order. */
  datatype DeviceList<D> = DeviceList(entries: Entries<D>)

  /** `DeviceList.new(devices)`, given each device with its address. */
  function Create<D>(pairs: Entries<D>): (l: DeviceList<D>)
    ensures DistinctKeys(l.entries)
    ensures forall a :: a in KeysOf(l.entries) <==> a in KeysOf(pairs)
  {
    FromPairsKeys(pairs);
    DeviceList(FromPairs(pairs))
  }

  /** `each`: every stored (address, device) pair, in insertion order. */
  function Each<D>(l: DeviceList<D>): Entries<D> {
    l.entries
  }

  /** `[](address)`: an unknown port Symbol raises; a known one is looked up by its address. */
  function Get<D>(l: DeviceList<D>, key: Key): (r: Result<Option<D>>)
    ensures key.Sym? ==> (r.Failure? <==> key.name !in Ports)
    ensures r.Failure? ==> r.error == ArgumentError
    ensures key.Sym? && key.name in Ports ==> r == Success(Find(l.entries, Some(Ports[key.name])))
    ensures key.Str? ==> r == Success(Find(l.entries, Some(key.text)))
    ensures key.Nil? ==> r == Success(Find(l.entries, None))
  {
    match key
    case Sym(name) => if name in Ports then Success(Find(l.entries, Some(Ports[name]))) else Failure(ArgumentError)
    case Str(text) => Success(Find(l.entries, Some(text)))
    case Nil => Success(Find(l.entries, None))
  }

  /** A port Symbol and its address String find the same device. */
  lemma SymbolAndAddressAgree<D>(l: DeviceList<D>, name: string)
    requires name in Ports
    ensures Get(l, Sym(name)) == Get(l, Str(Ports[name]))
  {
  }

  lemma PortsExample()
    ensures Ports["outB"] == "ev3-ports:outB"
    ensures |Ports| == 8
  {
  }

  /** PORTS is injective: different ports have different addresses. */
  lemma PortsInjective(a: string, b: string)
    requires a in Ports && b in Ports && a != b
    ensures Ports[a] != Ports[b]
  {
    var k := |"ev3-ports:"|;
    assert Ports[a][k..] == a by {
      assert a in {"outA", "outB", "outC", "outD", "in1", "in2", "in3", "in4"};
    }
    assert Ports[b][k..] == b by {
      assert b in {"outA", "outB", "outC", "outD", "in1", "in2", "in3", "in4"};
    }
  }

  /** `[]` on a device list built from devices returns the last device given for that address, or nil when none has it. */
  lemma GetAfterCreate<D>(pairs: Entries<D>, i: int, a: string)
    requires 0 <= i < |pairs| && pairs[i].0 == Some(a)
    requires forall j :: i < j < |pairs| ==> pairs[j].0 != Some(a)
    ensures Get(Create(pairs), Str(a)) == Success(Some(pairs[i].1))
  {
    var es := Create(pairs).entries;
    FromPairsLastWins(pairs, i);
    var k :| 0 <= k < |es| && es[k] == pairs[i];
    FindDistinct(es, k);
  }

  lemma GetAbsentAfterCreate<D>(pairs: Entries<D>, a: string)
    requires Some(a) !in KeysOf(pairs)
    ensures Get(Create(pairs), Str(a)) == Success(None)
  {
    FindAbsent(Create(pairs).entries, Some(a));
  }
}
