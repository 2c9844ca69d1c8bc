/** What makes a unit. For an ONCE_PER_KEY node, the artifacts on the ports marked
  * `key`; for an ALWAYS node, artifact and generation of each bound source; and what
  * follows for runs. */
module Keys {
  import opened Base
  import opened Types
  import opened Strings
  import opened Scheduler
  import opened Moves
  import opened Safety
  import opened Accounting
  import opened Assemblies
  import opened Kernel
  import opened KernelRuns

  // ---------------------------------------------------------------- keys by ports

  predicate NoneMarked(ports: seq<Port>) {
    forall i :: 0 <= i < |ports| ==> !ports[i].key
  }

  predicate Marked(ports: seq<Port>, name: string) {
    exists i :: 0 <= i < |ports| && ports[i].name == name && ports[i].key
  }

  /** The artifacts on one port, in the order in which they are bound. */
  function ArtifactsOn(inputs: seq<NamedArtifact>, name: string): seq<string> {
    if inputs == [] then []
    else if inputs[0].name == name && inputs[0].artifact.Some? then
      [inputs[0].artifact.value] + ArtifactsOn(inputs[1..], name)
    else ArtifactsOn(inputs[1..], name)
  }

  /** The same artifacts on every port that is marked; on every port if none is. */
  ghost predicate SameOnKeys(ports: seq<Port>, a: seq<NamedArtifact>, b: seq<NamedArtifact>) {
    forall name :: NoneMarked(ports) || Marked(ports, name) ==> ArtifactsOn(a, name) == ArtifactsOn(b, name)
  }

  // ---------------------------------------------------------------- sorted pairs

  /** The values paired with one name, in order. */
  function ValuesOf(pairs: seq<(string, string)>, name: string): seq<string> {
    if pairs == [] then []
    else if pairs[0].0 == name then [pairs[0].1] + ValuesOf(pairs[1..], name)
    else ValuesOf(pairs[1..], name)
  }

  ghost predicate PairsAscend(pairs: seq<(string, string)>) {
    forall i, j :: 0 <= i < j < |pairs| ==> NameLe(pairs[i].0, pairs[j].0)
  }

  lemma {:induction false} InsertedValues(pair: (string, string), sorted: seq<(string, string)>, name: string)
    ensures ValuesOf(InsertPair(pair, sorted), name)
         == (if pair.0 == name then [pair.1] else []) + ValuesOf(sorted, name)
  {
    NameLeTotal(pair.0, pair.0);
    if sorted != [] && !NameLe(pair.0, sorted[0].0) {
      InsertedValues(pair, sorted[1..], name);
      assert InsertPair(pair, sorted)[1..] == InsertPair(pair, sorted[1..]);
    } else {
      assert ([pair] + sorted)[1..] == sorted;
    }
  }

  lemma {:induction false} InsertedAscends(pair: (string, string), sorted: seq<(string, string)>)
    requires PairsAscend(sorted)
    ensures PairsAscend(InsertPair(pair, sorted))
    ensures forall p :: p in InsertPair(pair, sorted) <==> p == pair || p in sorted
  {
    if sorted != [] {
      var rest := sorted[1..];
      assert sorted == [sorted[0]] + rest;
      if NameLe(pair.0, sorted[0].0) {
        forall i | 0 <= i < |sorted|
          ensures NameLe(pair.0, sorted[i].0)
        {
          NameLeTotal(sorted[i].0, sorted[i].0);
          if i > 0 {
            NameLeTransitive(pair.0, sorted[0].0, sorted[i].0);
          }
        }
      } else {
        NameLeTotal(pair.0, sorted[0].0);
        InsertedAscends(pair, rest);
        forall i | 0 <= i < |InsertPair(pair, rest)|
          ensures NameLe(sorted[0].0, InsertPair(pair, rest)[i].0)
        {
          assert InsertPair(pair, rest)[i] in InsertPair(pair, rest);
        }
      }
    }
  }

  /** Sorting pairs by name keeps, for each name, its values in their order. */
  lemma {:induction false} SortedValues(pairs: seq<(string, string)>, name: string)
    ensures ValuesOf(SortPairs(pairs), name) == ValuesOf(pairs, name)
  {
    if pairs != [] {
      SortedValues(pairs[1..], name);
      InsertedValues(pairs[0], SortPairs(pairs[1..]), name);
    }
  }

  lemma {:induction false} SortedAscend(pairs: seq<(string, string)>)
    ensures PairsAscend(SortPairs(pairs))
  {
    if pairs != [] {
      SortedAscend(pairs[1..]);
      InsertedAscends(pairs[0], SortPairs(pairs[1..]));
    }
  }

  lemma {:induction false} ValuesPresent(pairs: seq<(string, string)>, name: string)
    ensures ValuesOf(pairs, name) != [] <==> exists i :: 0 <= i < |pairs| && pairs[i].0 == name
  {
    if pairs != [] {
      ValuesPresent(pairs[1..], name);
      if i :| 0 <= i < |pairs[1..]| && pairs[1..][i].0 == name {
        assert pairs[i + 1].0 == name;
      }
      if i :| 0 <= i < |pairs| && pairs[i].0 == name {
        assert i > 0 ==> pairs[1..][i - 1].0 == name;
      }
    }
  }

  lemma FirstLeast(a: seq<(string, string)>, b: seq<(string, string)>)
    requires PairsAscend(b) && a != [] && b != [] && ValuesOf(a, a[0].0) == ValuesOf(b, a[0].0)
    ensures NameLe(b[0].0, a[0].0)
  {
    ValuesPresent(b, a[0].0);
    var i :| 0 <= i < |b| && b[i].0 == a[0].0;
    NameLeTotal(b[0].0, b[0].0);
  }

  /** Ascending pairs are determined by the values of each name. */
  lemma {:induction false} ValuesDetermine(a: seq<(string, string)>, b: seq<(string, string)>)
    requires PairsAscend(a) && PairsAscend(b) && forall name :: ValuesOf(a, name) == ValuesOf(b, name)
    ensures a == b
  {
    if a == [] || b == [] {
      var rest := a + b;
      assert rest != [] ==> ValuesOf(a, rest[0].0) == ValuesOf(b, rest[0].0);
    } else {
      FirstLeast(a, b);
      FirstLeast(b, a);
      NameLeAntisymmetric(a[0].0, b[0].0);
      assert ValuesOf(a, a[0].0) == ValuesOf(b, a[0].0);
      assert ValuesOf(a, a[0].0)[0] == a[0].1 && ValuesOf(b, b[0].0)[0] == b[0].1;
      forall name
        ensures ValuesOf(a[1..], name) == ValuesOf(b[1..], name)
      {
        SameTails(a, b, name);
      }
      ValuesDetermine(a[1..], b[1..]);
      assert a == [a[0]] + a[1..] && b == [b[0]] + b[1..];
    }
  }

  lemma SameTails(a: seq<(string, string)>, b: seq<(string, string)>, name: string)
    requires a != [] && b != [] && a[0] == b[0] && ValuesOf(a, name) == ValuesOf(b, name)
    ensures ValuesOf(a[1..], name) == ValuesOf(b[1..], name)
  {
    var head := if a[0].0 == name then [a[0].1] else [];
    assert ValuesOf(a[1..], name) == ValuesOf(a, name)[|head|..];
    assert ValuesOf(b[1..], name) == ValuesOf(b, name)[|head|..];
  }

  // ---------------------------------------------------------------- units by keys

  /** A key pairs with a name what is bound there, if the name is part of the key. */
  lemma {:induction false} PairedValues(ports: seq<Port>, inputs: seq<NamedArtifact>, name: string)
    ensures ValuesOf(KeyPairs(ports, inputs), name)
         == if NoneMarked(ports) || Marked(ports, name) then ArtifactsOn(inputs, name) else []
  {
    if inputs != [] {
      PairedValues(ports, inputs[1..], name);
      assert KeyPairs(ports, inputs) == [(inputs[0].name, Lead(inputs))] + KeyPairs(ports, inputs[1..])
          || KeyPairs(ports, inputs) == KeyPairs(ports, inputs[1..]);
    }
  }

  function Lead(inputs: seq<NamedArtifact>): string {
    if inputs != [] && inputs[0].artifact.Some? then inputs[0].artifact.value else ""
  }

  lemma SamePairsIff(ports: seq<Port>, a: seq<NamedArtifact>, b: seq<NamedArtifact>)
    ensures SortPairs(KeyPairs(ports, a)) == SortPairs(KeyPairs(ports, b)) <==> SameOnKeys(ports, a, b)
  {
    var x, y := SortPairs(KeyPairs(ports, a)), SortPairs(KeyPairs(ports, b));
    forall name
      ensures ValuesOf(x, name)
           == if NoneMarked(ports) || Marked(ports, name) then ArtifactsOn(a, name) else []
      ensures ValuesOf(y, name)
           == if NoneMarked(ports) || Marked(ports, name) then ArtifactsOn(b, name) else []
    {
      SortedValues(KeyPairs(ports, a), name);
      SortedValues(KeyPairs(ports, b), name);
      PairedValues(ports, a, name);
      PairedValues(ports, b, name);
    }
    if SameOnKeys(ports, a, b) {
      SortedAscend(KeyPairs(ports, a));
      SortedAscend(KeyPairs(ports, b));
      ValuesDetermine(x, y);
    }
  }

  /** Two input lists make one unit of an ONCE_PER_KEY node if and only if they hold
    * the same artifacts on the ports marked `key`, or on all if none is marked. */
  lemma KeyedUnitIff(slot: RunSlot, slot': RunSlot, node: AssemblyNode, cap: Capability, a: seq<NamedArtifact>,
                     b: seq<NamedArtifact>)
    requires EffectiveFiring(slot.run.policy, node.id, cap) == OncePerKey
    requires EffectiveFiring(slot'.run.policy, node.id, cap) == OncePerKey
    ensures UnitKeyOf(slot, node, cap, a).Some? && UnitKeyOf(slot', node, cap, b).Some?
    ensures UnitKeyOf(slot, node, cap, a) == UnitKeyOf(slot', node, cap, b) <==> SameOnKeys(cap.inputs, a, b)
  {
    SamePairsIff(cap.inputs, a, b);
  }

  // ---------------------------------------------------------------- units by deliveries

  function RowsOn(rows: seq<Row>, port: string): seq<Row> {
    if rows == [] then []
    else if rows[0].port == port then [rows[0]] + RowsOn(rows[1..], port)
    else RowsOn(rows[1..], port)
  }

  ghost predicate RowsAscend(rows: seq<Row>) {
    forall i, j :: 0 <= i < j < |rows| ==> NameLe(rows[i].port, rows[j].port)
  }

  lemma {:induction false} InsertedRows(row: Row, sorted: seq<Row>, port: string)
    ensures RowsOn(InsertRow(row, sorted), port) == (if row.port == port then [row] else []) + RowsOn(sorted, port)
  {
    NameLeTotal(row.port, row.port);
    if sorted != [] && !NameLe(row.port, sorted[0].port) {
      InsertedRows(row, sorted[1..], port);
      assert InsertRow(row, sorted)[1..] == InsertRow(row, sorted[1..]);
    } else {
      assert ([row] + sorted)[1..] == sorted;
    }
  }

  lemma {:induction false} InsertedRowsAscend(row: Row, sorted: seq<Row>)
    requires RowsAscend(sorted)
    ensures RowsAscend(InsertRow(row, sorted))
    ensures forall x :: x in InsertRow(row, sorted) <==> x == row || x in sorted
  {
    if sorted != [] {
      var rest := sorted[1..];
      assert sorted == [sorted[0]] + rest;
      if NameLe(row.port, sorted[0].port) {
        forall i | 0 <= i < |sorted|
          ensures NameLe(row.port, sorted[i].port)
        {
          if i > 0 {
            NameLeTransitive(row.port, sorted[0].port, sorted[i].port);
          }
        }
      } else {
        NameLeTotal(row.port, sorted[0].port);
        InsertedRowsAscend(row, rest);
        forall i | 0 <= i < |InsertRow(row, rest)|
          ensures NameLe(sorted[0].port, InsertRow(row, rest)[i].port)
        {
          assert InsertRow(row, rest)[i] in InsertRow(row, rest);
        }
      }
    }
  }

  /** Sorting rows by port keeps the rows of each port in their order. */
  lemma {:induction false} SortedRows(rows: seq<Row>, port: string)
    ensures RowsOn(SortRows(rows), port) == RowsOn(rows, port)
  {
    if rows != [] {
      SortedRows(rows[1..], port);
      InsertedRows(rows[0], SortRows(rows[1..]), port);
    }
  }

  lemma {:induction false} SortedRowsAscend(rows: seq<Row>)
    ensures RowsAscend(SortRows(rows))
  {
    if rows != [] {
      SortedRowsAscend(rows[1..]);
      InsertedRowsAscend(rows[0], SortRows(rows[1..]));
    }
  }

  lemma {:induction false} RowsPresent(rows: seq<Row>, port: string)
    ensures RowsOn(rows, port) != [] <==> exists i :: 0 <= i < |rows| && rows[i].port == port
  {
    if rows != [] {
      RowsPresent(rows[1..], port);
      if i :| 0 <= i < |rows[1..]| && rows[1..][i].port == port {
        assert rows[i + 1].port == port;
      }
      if i :| 0 <= i < |rows| && rows[i].port == port {
        assert i > 0 ==> rows[1..][i - 1].port == port;
      }
    }
  }

  lemma LeastRow(a: seq<Row>, b: seq<Row>)
    requires RowsAscend(b) && a != [] && b != [] && RowsOn(a, a[0].port) == RowsOn(b, a[0].port)
    ensures NameLe(b[0].port, a[0].port)
  {
    RowsPresent(b, a[0].port);
    var i :| 0 <= i < |b| && b[i].port == a[0].port;
    NameLeTotal(b[0].port, b[0].port);
  }

  lemma SameRowTails(a: seq<Row>, b: seq<Row>, port: string)
    requires a != [] && b != [] && a[0] == b[0] && RowsOn(a, port) == RowsOn(b, port)
    ensures RowsOn(a[1..], port) == RowsOn(b[1..], port)
  {
    var head := if a[0].port == port then [a[0]] else [];
    assert RowsOn(a[1..], port) == RowsOn(a, port)[|head|..];
    assert RowsOn(b[1..], port) == RowsOn(b, port)[|head|..];
  }

  lemma {:induction false} RowsDetermine(a: seq<Row>, b: seq<Row>)
    requires RowsAscend(a) && RowsAscend(b) && forall port :: RowsOn(a, port) == RowsOn(b, port)
    ensures a == b
  {
    if a == [] || b == [] {
      var rest := a + b;
      assert rest != [] ==> RowsOn(a, rest[0].port) == RowsOn(b, rest[0].port);
    } else {
      LeastRow(a, b);
      LeastRow(b, a);
      NameLeAntisymmetric(a[0].port, b[0].port);
      assert RowsOn(a, a[0].port)[0] == a[0] && RowsOn(b, b[0].port)[0] == b[0];
      forall port
        ensures RowsOn(a[1..], port) == RowsOn(b[1..], port)
      {
        SameRowTails(a, b, port);
      }
      RowsDetermine(a[1..], b[1..]);
      assert a == [a[0]] + a[1..] && b == [b[0]] + b[1..];
    }
  }

  /** Artifact and generation of each source bound to a port, in binding order. */
  function DeliveriesOn(slot: RunSlot, bs: seq<Binding>, inputs: seq<NamedArtifact>, port: string): seq<(string, nat)> {
    if bs == [] then []
    else if bs[0].toPort == port && ArtifactNamed(inputs, port).Some? then
      [(ArtifactNamed(inputs, port).value, Generation(slot, bs[0]))] + DeliveriesOn(slot, bs[1..], inputs, port)
    else DeliveriesOn(slot, bs[1..], inputs, port)
  }

  function RowsFor(port: string, deliveries: seq<(string, nat)>): (r: seq<Row>)
    ensures |r| == |deliveries|
    ensures forall i :: 0 <= i < |r| ==> r[i] == Row(port, deliveries[i].0, deliveries[i].1)
  {
    if deliveries == [] then []
    else [Row(port, deliveries[0].0, deliveries[0].1)] + RowsFor(port, deliveries[1..])
  }

  lemma {:induction false} RowsAreDeliveries(slot: RunSlot, bs: seq<Binding>, inputs: seq<NamedArtifact>, port: string)
    requires DeliveryRows(slot, bs, inputs).Some?
    ensures RowsOn(DeliveryRows(slot, bs, inputs).value, port) == RowsFor(port, DeliveriesOn(slot, bs, inputs, port))
  {
    if bs != [] {
      RowsAreDeliveries(slot, bs[1..], inputs, port);
      var rows := DeliveryRows(slot, bs, inputs).value;
      assert rows[1..] == DeliveryRows(slot, bs[1..], inputs).value;
    }
  }

  lemma RowsForInjective(port: string, a: seq<(string, nat)>, b: seq<(string, nat)>)
    ensures RowsFor(port, a) == RowsFor(port, b) <==> a == b
  {
    if RowsFor(port, a) == RowsFor(port, b) {
      forall i | 0 <= i < |a|
        ensures a[i] == b[i]
      {
        assert RowsFor(port, a)[i] == RowsFor(port, b)[i];
      }
    }
  }

  /** On every port the bound sources supply the same artifacts in the same generations. */
  ghost predicate SameDeliveries(slot: RunSlot, a: seq<NamedArtifact>, slot': RunSlot, b: seq<NamedArtifact>,
                                 node: AssemblyNode) {
    forall port ::
      DeliveriesOn(slot, BoundTo(slot, node), a, port) == DeliveriesOn(slot', BoundTo(slot', node), b, port)
  }

  ghost predicate SameRowsOn(x: seq<Row>, y: seq<Row>) {
    forall port :: RowsOn(x, port) == RowsOn(y, port)
  }

  lemma SameRowsIff(x: seq<Row>, y: seq<Row>)
    ensures SortRows(x) == SortRows(y) <==> SameRowsOn(x, y)
  {
    if SortRows(x) == SortRows(y) {
      forall port
        ensures RowsOn(x, port) == RowsOn(y, port)
      {
        SortedRows(x, port);
        SortedRows(y, port);
      }
    } else if SameRowsOn(x, y) {
      forall port
        ensures RowsOn(SortRows(x), port) == RowsOn(SortRows(y), port)
      {
        SortedRows(x, port);
        SortedRows(y, port);
      }
      SortedRowsAscend(x);
      SortedRowsAscend(y);
      RowsDetermine(SortRows(x), SortRows(y));
    }
  }

  lemma SameOnPort(slot: RunSlot, a: seq<NamedArtifact>, slot': RunSlot, b: seq<NamedArtifact>, node: AssemblyNode,
                   port: string)
    requires DeliveryRows(slot, BoundTo(slot, node), a).Some? && DeliveryRows(slot', BoundTo(slot', node), b).Some?
    ensures RowsOn(DeliveryRows(slot, BoundTo(slot, node), a).value, port)
         == RowsOn(DeliveryRows(slot', BoundTo(slot', node), b).value, port)
       <==> DeliveriesOn(slot, BoundTo(slot, node), a, port) == DeliveriesOn(slot', BoundTo(slot', node), b, port)
  {
    RowsAreDeliveries(slot, BoundTo(slot, node), a, port);
    RowsAreDeliveries(slot', BoundTo(slot', node), b, port);
    RowsForInjective(port, DeliveriesOn(slot, BoundTo(slot, node), a, port),
                     DeliveriesOn(slot', BoundTo(slot', node), b, port));
  }

  /** Two moments make one unit of an ALWAYS node if and only if its bound sources
    * supply the same artifacts in the same generations. */
  lemma DeliveryUnitIff(slot: RunSlot, slot': RunSlot, node: AssemblyNode, cap: Capability, a: seq<NamedArtifact>,
                        b: seq<NamedArtifact>)
    requires EffectiveFiring(slot.run.policy, node.id, cap) == Always
    requires EffectiveFiring(slot'.run.policy, node.id, cap) == Always
    requires UnitKeyOf(slot, node, cap, a).Some? && UnitKeyOf(slot', node, cap, b).Some?
    ensures UnitKeyOf(slot, node, cap, a) == UnitKeyOf(slot', node, cap, b) <==> SameDeliveries(slot, a, slot', b, node)
  {
    hide DeliveryRows, DeliveriesOn, SortRows, RowsOn;
    var x := DeliveryRows(slot, BoundTo(slot, node), a).value;
    var y := DeliveryRows(slot', BoundTo(slot', node), b).value;
    SameRowsIff(x, y);
    if SameDeliveries(slot, a, slot', b, node) {
      forall port
        ensures RowsOn(x, port) == RowsOn(y, port)
      {
        SameOnPort(slot, a, slot', b, node, port);
      }
    } else if SortRows(x) == SortRows(y) {
      forall port
        ensures DeliveriesOn(slot, BoundTo(slot, node), a, port) == DeliveriesOn(slot', BoundTo(slot', node), b, port)
      {
        SameOnPort(slot, a, slot', b, node, port);
      }
    }
  }

  // ---------------------------------------------------------------- other inputs do not fire again

  /** A node whose unit is done is not ready again, whatever has changed, as long as
    * its key ports hold what they held. */
  lemma QuietOnSameKeys(modules: seq<ModuleSlot>, slot: RunSlot, slot': RunSlot, node: AssemblyNode, cap: Capability)
    requires CapabilityFor(modules, node) == Some(cap)
    requires EffectiveFiring(slot.run.policy, node.id, cap) == OncePerKey && slot'.run.policy == slot.run.policy
    requires CurrentUnit(modules, slot, node).Some? && CurrentUnit(modules, slot, node).value.unit in slot.doneUnits
    requires slot.doneUnits <= slot'.doneUnits
    requires ResolveInputs(slot', node).Some? ==>
      SameOnKeys(cap.inputs, ResolveInputs(slot, node).value, ResolveInputs(slot', node).value)
    ensures ReadyUnit(modules, slot', node).None?
  {
    if ResolveInputs(slot', node).Some? {
      KeyedUnitIff(slot, slot', node, cap, ResolveInputs(slot, node).value, ResolveInputs(slot', node).value);
    }
  }

  lemma {:induction false} ReplaceOther(inputs: seq<NamedArtifact>, input: NamedArtifact, name: string)
    requires name != input.name
    ensures ArtifactNamed(Replace(inputs, input), name) == ArtifactNamed(inputs, name)
  {
    if inputs != [] {
      if inputs[0].name != input.name {
        ReplaceOther(inputs[1..], input, name);
      } else {
        assert ([input] + inputs[1..])[1..] == inputs[1..];
      }
    }
  }

  /** The resolved artifacts of a port whose bindings read the same. */
  lemma {:induction false} SameArtifactsOn(inputs: seq<NamedArtifact>, inputs': seq<NamedArtifact>,
                                           latest: map<string, Derivation>, bs: seq<Binding>, name: string)
    requires ResolveAll(inputs, latest, bs).Some? && ResolveAll(inputs', latest, bs).Some?
    requires forall b :: b in bs && b.toPort == name ==>
      ResolveBinding(inputs', latest, b) == ResolveBinding(inputs, latest, b)
    ensures ArtifactsOn(ResolveAll(inputs', latest, bs).value, name)
         == ArtifactsOn(ResolveAll(inputs, latest, bs).value, name)
  {
    if bs != [] {
      assert bs[0] in bs;
      assert ResolveAll(inputs, latest, bs).value[1..] == ResolveAll(inputs, latest, bs[1..]).value;
      assert ResolveAll(inputs', latest, bs).value[1..] == ResolveAll(inputs', latest, bs[1..]).value;
      SameArtifactsOn(inputs, inputs', latest, bs[1..], name);
    }
  }

  /** Injecting an input that is bound to no key port of a finished node does not
    * make it ready. */
  lemma InjectionQuiet(modules: seq<ModuleSlot>, slot: RunSlot, node: AssemblyNode, cap: Capability,
                       input: NamedArtifact)
    requires CapabilityFor(modules, node) == Some(cap)
    requires EffectiveFiring(slot.run.policy, node.id, cap) == OncePerKey && !NoneMarked(cap.inputs)
    requires CurrentUnit(modules, slot, node).Some? && CurrentUnit(modules, slot, node).value.unit in slot.doneUnits
    requires input.name != ""
    requires forall b :: b in slot.run.assembly.bindings && b.toNode == node.id && b.input == input.name ==>
      !Marked(cap.inputs, b.toPort)
    ensures ReadyUnit(modules, Inject(slot, input), node).None?
  {
    var slot' := Inject(slot, input);
    var bs := BoundTo(slot, node);
    if ResolveInputs(slot', node).Some? {
      forall name | Marked(cap.inputs, name)
        ensures ArtifactsOn(ResolveInputs(slot', node).value, name)
             == ArtifactsOn(ResolveInputs(slot, node).value, name)
      {
        forall b | b in bs && b.toPort == name
          ensures ResolveBinding(slot'.run.inputs, slot.latest, b) == ResolveBinding(slot.run.inputs, slot.latest, b)
        {
          if b.input != "" {
            ReplaceOther(slot.run.inputs, input, b.input);
          }
        }
        SameArtifactsOn(slot.run.inputs, slot'.run.inputs, slot.latest, bs, name);
      }
    }
    QuietOnSameKeys(modules, slot, slot', node, cap);
  }

  // ---------------------------------------------------------------- over runs

  /** A unit of an ONCE_PER_KEY node is the key of its inputs. */
  ghost predicate KeyedBy(base: World, policy: Option<ExecutionPolicy>, node: AssemblyNode,
                          inputs: seq<NamedArtifact>, unit: UnitKey) {
    var cap := CapabilityFor(base.modules, node);
    cap.Some? && EffectiveFiring(policy, node.id, cap.value) == OncePerKey ==>
      unit == KeyedUnit(node.id, SortPairs(KeyPairs(cap.value.inputs, inputs)))
  }

  lemma ReadyKeyed(base: World, world: World, slot: RunSlot, c: Candidate)
    requires Grows(base, world) && IsReady(world.modules, slot, c)
    ensures KeyedBy(base, slot.run.policy, c.node, c.inputs, c.unit)
  {
    if CapabilityFor(base.modules, c.node).Some? {
      CapabilityStable(base, world, c.node);
    }
  }

  ghost predicate ItemKeyed(base: World, policy: Option<ExecutionPolicy>, id: WorkId, item: WorkItem) {
    id.unit == item.unit && item.id == id && KeyedBy(base, policy, item.node, item.inputs, item.unit)
  }

  ghost predicate AllKeyed(base: World, log: RunLog) {
    var slot := log.slot;
    && (forall id :: id in slot.claimed ==> ItemKeyed(base, slot.run.policy, id, slot.claimed[id]))
    && (forall i :: 0 <= i < |log.derivations| ==>
          var d := log.derivations[i]; KeyedBy(base, slot.run.policy, d.node, d.inputs, d.work.unit))
  }

  lemma TakeKeyed(base: World, world: World, log: RunLog, c: Candidate, now: int)
    requires AllKeyed(base, log) && Grows(base, world) && IsReady(world.modules, log.slot, c)
    ensures AllKeyed(base, log.(slot := Take(log.slot, c, now)))
  {
    hide KeyedBy;
    ReadyKeyed(base, world, log.slot, c);
  }

  lemma CommitKeyed(base: World, log: RunLog, id: WorkId, outputs: seq<NamedArtifact>)
    requires AllKeyed(base, log) && id in log.slot.claimed
    ensures AllKeyed(base, CommitUnit(log, id, outputs))
  {
    hide KeyedBy;
    assert ItemKeyed(base, log.slot.run.policy, id, log.slot.claimed[id]);
  }

  /** Moves that neither claim nor commit. */
  lemma OthersKeyed(base: World, log: RunLog, m: Move)
    requires AllKeyed(base, log) && !m.MTake? && !m.MCommit?
    ensures AllKeyed(base, Apply(log, m))
  {
    hide KeyedBy;
    var log' := Apply(log, m);
    forall id | id in log'.slot.claimed
      ensures ItemKeyed(base, log'.slot.run.policy, id, log'.slot.claimed[id])
    {
      assert ItemKeyed(base, log.slot.run.policy, id, log.slot.claimed[id]);
    }
  }

  lemma MoveKeyed(base: World, log: RunLog, s: Step)
    requires AllKeyed(base, log) && Grows(base, s.world) && Enabled(s.world, log.slot, s.move)
    ensures AllKeyed(base, Apply(log, s.move))
  {
    hide AllKeyed, Take, CommitUnit;
    match s.move
    case MTake(c, now) => TakeKeyed(base, s.world, log, c, now);
    case MCommit(id, outputs) => CommitKeyed(base, log, id, outputs);
    case _ => OthersKeyed(base, log, s.move);
  }

  lemma {:induction false} AlwaysKeyed(base: World, start: RunLog, steps: seq<Step>)
    requires Fresh(start) && IsRun(start, steps) && forall i :: 0 <= i < |steps| ==> Grows(base, steps[i].world)
    ensures AllKeyed(base, RunSteps(start, steps))
  {
    if steps != [] {
      var front, last := steps[..|steps| - 1], steps[|steps| - 1];
      AlwaysKeyed(base, start, front);
      assert EnabledAfter(start, front, last);
      MoveKeyed(base, RunSteps(start, front), last);
    }
  }

  lemma KeysDiffer(base: World, log: RunLog, i: nat, j: nat, cap: Capability)
    requires AllKeyed(base, log) && CommittedOnce(log) && i < j < |log.derivations|
    requires log.derivations[i].node == log.derivations[j].node
    requires CapabilityFor(base.modules, log.derivations[i].node) == Some(cap)
    requires EffectiveFiring(log.slot.run.policy, log.derivations[i].node.id, cap) == OncePerKey
    ensures !SameOnKeys(cap.inputs, log.derivations[i].inputs, log.derivations[j].inputs)
  {
    var d, e := log.derivations[i], log.derivations[j];
    SamePairsIff(cap.inputs, d.inputs, e.inputs);
    assert OfThisRun(log.slot, d) && OfThisRun(log.slot, e);
    assert KeyedBy(base, log.slot.run.policy, d.node, d.inputs, d.work.unit);
    assert KeyedBy(base, log.slot.run.policy, e.node, e.inputs, e.work.unit);
  }

  /** Once per key: in any history, two derivations of one ONCE_PER_KEY node of a run
    * differ in what they read on some port that is part of the key. */
  lemma OncePerKeyHolds(config: Config, calls: seq<Call>, r: string) returns (base: World)
    requires r in After(config, calls).runs
    ensures Grows(base, WorldOf(After(config, calls)))
    ensures var log := LogOf(After(config, calls), r);
      && Capable(base, log.slot.run.assembly.nodes)
      && forall i, j :: 0 <= i < j < |log.derivations| && log.derivations[i].node == log.derivations[j].node ==>
           var cap := CapabilityFor(base.modules, log.derivations[i].node);
           cap.Some? && EffectiveFiring(log.slot.run.policy, log.derivations[i].node.id, cap.value) == OncePerKey ==>
             !SameOnKeys(cap.value.inputs, log.derivations[i].inputs, log.derivations[j].inputs)
  {
    base := KeyedHistory(config, calls, r);
    var log := LogOf(After(config, calls), r);
    forall i, j | 0 <= i < j < |log.derivations| && log.derivations[i].node == log.derivations[j].node
      ensures var cap := CapabilityFor(base.modules, log.derivations[i].node);
        cap.Some? && EffectiveFiring(log.slot.run.policy, log.derivations[i].node.id, cap.value) == OncePerKey ==>
          !SameOnKeys(cap.value.inputs, log.derivations[i].inputs, log.derivations[j].inputs)
    {
      var cap := CapabilityFor(base.modules, log.derivations[i].node);
      if cap.Some? && EffectiveFiring(log.slot.run.policy, log.derivations[i].node.id, cap.value) == OncePerKey {
        KeysDiffer(base, log, i, j, cap.value);
      }
    }
  }

  lemma KeyedHistory(config: Config, calls: seq<Call>, r: string) returns (base: World)
    requires r in After(config, calls).runs
    ensures var log := LogOf(After(config, calls), r);
      && AllKeyed(base, log) && CommittedOnce(log) && Grows(base, WorldOf(After(config, calls)))
      && Capable(base, log.slot.run.assembly.nodes)
  {
    hide Fresh;
    var start, steps;
    base, start, steps := StepsOf(config, calls, r);
    AlwaysKeyed(base, start, steps);
    AlwaysAccounted(start, steps);
  }
}
