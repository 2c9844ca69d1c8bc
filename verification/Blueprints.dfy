/** What an assembly has to be for `start_run` to accept it, place by place: nodes,
  * ports, inputs and bindings by their indices, without the lookups that check it. */
module Blueprints {
  import opened Base
  import opened Types
  import opened Scheduler
  import opened Moves
  import opened Safety
  import opened Assemblies
  import opened Kernel
  import opened KernelRuns
  import opened Commits

  // ---------------------------------------------------------------- coordinates

  /** The j-th capability of the i-th module is at the node's exact coordinate. */
  ghost predicate Offers(modules: seq<ModuleSlot>, n: AssemblyNode, i: int, j: int) {
    && 0 <= i < |modules| && 0 <= j < |modules[i].manifest.capabilities|
    && modules[i].manifest.name == n.mod && modules[i].manifest.version == n.version
    && modules[i].manifest.capabilities[j].name == n.capability
  }

  ghost predicate OnlyAt(modules: seq<ModuleSlot>, n: AssemblyNode, i: int, j: int) {
    Offers(modules, n, i, j) && forall k, l :: Offers(modules, n, k, l) ==> k == i && l == j
  }

  lemma {:induction false} OfferingNone(caps: seq<Capability>, name: string)
    ensures Offering(caps, name) == [] <==> forall j :: 0 <= j < |caps| ==> caps[j].name != name
  {
    if caps != [] {
      OfferingNone(caps[1..], name);
      assert caps == [caps[0]] + caps[1..];
    }
  }

  lemma {:induction false} OfferingOne(caps: seq<Capability>, name: string) returns (j: nat)
    requires |Offering(caps, name)| == 1
    ensures j < |caps| && caps[j].name == name && Offering(caps, name) == [caps[j]]
    ensures forall k :: 0 <= k < |caps| && caps[k].name == name ==> k == j
  {
    if caps[0].name == name {
      OfferingNone(caps[1..], name);
      j := 0;
      forall k | 0 < k < |caps|
        ensures caps[k].name != name
      {
        assert caps[1..][k - 1] == caps[k];
      }
    } else {
      var rest := OfferingOne(caps[1..], name);
      j := rest + 1;
      forall k | 0 <= k < |caps| && caps[k].name == name
        ensures k == j
      {
        assert caps[1..][k - 1] == caps[k];
      }
    }
  }

  lemma {:induction false} OfferingUnique(caps: seq<Capability>, name: string, j: nat)
    requires j < |caps| && caps[j].name == name && forall k :: 0 <= k < |caps| && caps[k].name == name ==> k == j
    ensures Offering(caps, name) == [caps[j]]
  {
    var rest := caps[1..];
    forall k | 0 <= k < |rest|
      ensures rest[k] == caps[k + 1]
    {
    }
    if j == 0 {
      OfferingNone(rest, name);
    } else {
      OfferingUnique(rest, name, j - 1);
    }
  }

  lemma OffersLater(modules: seq<ModuleSlot>, n: AssemblyNode, i: int, j: int)
    requires modules != [] && i >= 0
    ensures Offers(modules[1..], n, i, j) <==> Offers(modules, n, i + 1, j)
  {
  }

  function Own(modules: seq<ModuleSlot>, n: AssemblyNode): seq<Capability>
    requires modules != []
  {
    var m := modules[0].manifest;
    if m.name == n.mod && m.version == n.version then Offering(m.capabilities, n.capability) else []
  }

  lemma OwnNone(modules: seq<ModuleSlot>, n: AssemblyNode)
    requires modules != []
    ensures Own(modules, n) == [] <==> forall j :: !Offers(modules, n, 0, j)
  {
    var caps := modules[0].manifest.capabilities;
    OfferingNone(caps, n.capability);
    if Own(modules, n) != [] {
      var j :| 0 <= j < |caps| && caps[j].name == n.capability;
      assert Offers(modules, n, 0, j);
    }
  }

  lemma {:induction false} ProvidersNone(modules: seq<ModuleSlot>, n: AssemblyNode)
    ensures Providers(modules, n) == [] <==> forall i, j :: !Offers(modules, n, i, j)
  {
    if modules != [] {
      assert Providers(modules, n) == Own(modules, n) + Providers(modules[1..], n);
      ProvidersNone(modules[1..], n);
      OwnNone(modules, n);
      if Providers(modules, n) == [] {
        forall i, j
          ensures !Offers(modules, n, i, j)
        {
          if i > 0 {
            OffersLater(modules, n, i - 1, j);
          }
        }
      } else if Own(modules, n) == [] {
        var i, j :| Offers(modules[1..], n, i, j);
        OffersLater(modules, n, i, j);
      }
    }
  }

  lemma {:induction false} ProvidersOne(modules: seq<ModuleSlot>, n: AssemblyNode) returns (i: nat, j: nat)
    requires |Providers(modules, n)| == 1
    ensures OnlyAt(modules, n, i, j) && Providers(modules, n) == [modules[i].manifest.capabilities[j]]
  {
    var own, rest := Own(modules, n), Providers(modules[1..], n);
    assert Providers(modules, n) == own + rest;
    if own != [] {
      assert rest == [];
      ProvidersNone(modules[1..], n);
      var at := OfferingOne(modules[0].manifest.capabilities, n.capability);
      i, j := 0, at;
      forall k, l | Offers(modules, n, k, l)
        ensures k == i && l == j
      {
        if k > 0 {
          OffersLater(modules, n, k - 1, l);
        }
      }
    } else {
      var k, l := ProvidersOne(modules[1..], n);
      OffersLater(modules, n, k, l);
      i, j := k + 1, l;
      OfferingNone(modules[0].manifest.capabilities, n.capability);
      forall x, y | Offers(modules, n, x, y)
        ensures x == i && y == j
      {
        if x > 0 {
          OffersLater(modules, n, x - 1, y);
        }
      }
    }
  }

  lemma {:induction false} ProvidersUnique(modules: seq<ModuleSlot>, n: AssemblyNode, i: int, j: int)
    requires OnlyAt(modules, n, i, j)
    ensures Providers(modules, n) == [modules[i].manifest.capabilities[j]]
  {
    var own, rest := Own(modules, n), Providers(modules[1..], n);
    assert Providers(modules, n) == own + rest;
    if i == 0 {
      forall k, l
        ensures !Offers(modules[1..], n, k, l)
      {
        if k >= 0 {
          OffersLater(modules, n, k, l);
        }
      }
      ProvidersNone(modules[1..], n);
      forall k | 0 <= k < |modules[0].manifest.capabilities|
                 && modules[0].manifest.capabilities[k].name == n.capability
        ensures k == j
      {
        assert Offers(modules, n, 0, k);
      }
      OfferingUnique(modules[0].manifest.capabilities, n.capability, j);
    } else {
      OffersLater(modules, n, i - 1, j);
      forall k, l | Offers(modules[1..], n, k, l)
        ensures k == i - 1 && l == j
      {
        OffersLater(modules, n, k, l);
      }
      ProvidersUnique(modules[1..], n, i - 1, j);
      OfferingNone(modules[0].manifest.capabilities, n.capability);
      if own != [] {
        var k :| 0 <= k < |modules[0].manifest.capabilities|
                 && modules[0].manifest.capabilities[k].name == n.capability;
        assert Offers(modules, n, 0, k);
        assert false;
      }
    }
  }

  /** A node resolves to a capability if and only if that is the only one at its exact
    * coordinate, over all registered modules. */
  lemma ResolvesIff(modules: seq<ModuleSlot>, n: AssemblyNode, cap: Capability)
    ensures CapabilityFor(modules, n) == Some(cap)
       <==> exists i, j :: OnlyAt(modules, n, i, j) && modules[i].manifest.capabilities[j] == cap
  {
    if CapabilityFor(modules, n) == Some(cap) {
      var i, j := ProvidersOne(modules, n);
    }
    if i, j :| OnlyAt(modules, n, i, j) && modules[i].manifest.capabilities[j] == cap {
      ProvidersUnique(modules, n, i, j);
    }
  }

  // ---------------------------------------------------------------- ports, inputs, bindings

  ghost predicate GoodPorts(ports: seq<Port>) {
    && (forall p :: 0 <= p < |ports| ==>
          && ports[p].name != "" && |ports[p].traits| > 0
          && forall t :: 0 <= t < |ports[p].traits| ==> ports[p].traits[t] != "")
    && (forall p, q :: 0 <= p < q < |ports| ==> ports[p].name != ports[q].name)
  }

  ghost predicate GoodNode(modules: seq<ModuleSlot>, n: AssemblyNode) {
    var cap := CapabilityFor(modules, n);
    n.id != "" && cap.Some? && GoodPorts(cap.value.inputs) && GoodPorts(cap.value.outputs)
  }

  /** The p-th input port of the i-th node has these names. */
  ghost predicate InPort(modules: seq<ModuleSlot>, nodes: seq<AssemblyNode>, i: int, p: int, node: string,
                         port: string) {
    && 0 <= i < |nodes| && nodes[i].id == node && CapabilityFor(modules, nodes[i]).Some?
    && 0 <= p < |CapabilityFor(modules, nodes[i]).value.inputs|
    && CapabilityFor(modules, nodes[i]).value.inputs[p].name == port
  }

  ghost predicate OutPort(modules: seq<ModuleSlot>, nodes: seq<AssemblyNode>, i: int, p: int, node: string,
                          port: string) {
    && 0 <= i < |nodes| && nodes[i].id == node && CapabilityFor(modules, nodes[i]).Some?
    && 0 <= p < |CapabilityFor(modules, nodes[i]).value.outputs|
    && CapabilityFor(modules, nodes[i]).value.outputs[p].name == port
  }

  ghost predicate GoodInputs(traits: map<string, set<string>>, inputs: seq<NamedArtifact>) {
    && (forall k :: 0 <= k < |inputs| ==>
          inputs[k].name != "" && inputs[k].artifact.Some? && inputs[k].artifact.value in traits)
    && (forall k, l :: 0 <= k < l < |inputs| ==> inputs[k].name != inputs[l].name)
  }

  /** The binding reads a run input that carries what the port asks for. */
  ghost predicate ReadsInput(world: World, inputs: seq<NamedArtifact>, b: Binding, port: Port, k: int) {
    && b.input != "" && b.fromNode == "" && b.fromPort == ""
    && 0 <= k < |inputs| && inputs[k].name == b.input
    && inputs[k].artifact.Some? && inputs[k].artifact.value in world.traits
    && forall t :: 0 <= t < |port.traits| ==> port.traits[t] in world.traits[inputs[k].artifact.value]
  }

  /** The binding reads an output port that promises what the port asks for. */
  ghost predicate ReadsOutput(modules: seq<ModuleSlot>, nodes: seq<AssemblyNode>, b: Binding, port: Port, s: int,
                              q: int) {
    && b.input == "" && OutPort(modules, nodes, s, q, b.fromNode, b.fromPort)
    && forall t :: 0 <= t < |port.traits| ==>
         port.traits[t] in CapabilityFor(modules, nodes[s]).value.outputs[q].traits
  }

  ghost predicate GoodBinding(world: World, nodes: seq<AssemblyNode>, inputs: seq<NamedArtifact>, b: Binding) {
    exists i, p :: InPort(world.modules, nodes, i, p, b.toNode, b.toPort) &&
      var port := CapabilityFor(world.modules, nodes[i]).value.inputs[p];
      (exists k :: ReadsInput(world, inputs, b, port, k))
      || exists s, q :: ReadsOutput(world.modules, nodes, b, port, s, q)
  }

  /** Every required input port is bound, and only ports marked `multiple` twice. */
  ghost predicate PortsBound(bindings: seq<Binding>, node: string, ports: seq<Port>) {
    forall p :: 0 <= p < |ports| ==>
      && (ports[p].optional || exists i :: 0 <= i < |bindings| && Binds(bindings[i], node, ports[p].name))
      && (ports[p].multiple || forall i, j :: 0 <= i < j < |bindings| ==>
            !(Binds(bindings[i], node, ports[p].name) && Binds(bindings[j], node, ports[p].name)))
  }

  predicate Binds(b: Binding, node: string, port: string) {
    b.toNode == node && b.toPort == port
  }

  ghost predicate GoodTerminal(modules: seq<ModuleSlot>, assembly: Assembly) {
    assembly.terminal.Some? && exists i, p ::
      && OutPort(modules, assembly.nodes, i, p, assembly.terminal.value.node, assembly.terminal.value.port)
      && !CapabilityFor(modules, assembly.nodes[i]).value.outputs[p].multiple
  }

  /** All that is asked of an assembly but that it has no cycle. */
  ghost predicate Acceptable(world: World, assembly: Assembly, inputs: seq<NamedArtifact>) {
    && assembly.id != "" && |assembly.nodes| > 0
    && (forall i :: 0 <= i < |assembly.nodes| ==> GoodNode(world.modules, assembly.nodes[i]))
    && (forall i, j :: 0 <= i < j < |assembly.nodes| ==> assembly.nodes[i].id != assembly.nodes[j].id)
    && GoodTerminal(world.modules, assembly) && GoodInputs(world.traits, inputs)
    && (forall b :: 0 <= b < |assembly.bindings| ==>
          GoodBinding(world, assembly.nodes, inputs, assembly.bindings[b]))
    && (forall i :: 0 <= i < |assembly.nodes| ==>
          PortsBound(assembly.bindings, assembly.nodes[i].id,
                     CapabilityFor(world.modules, assembly.nodes[i]).value.inputs))
  }

  // ---------------------------------------------------------------- and the lookups agree

  lemma GoodPortsIff(ports: seq<Port>)
    ensures PortsTyped(ports) <==> GoodPorts(ports)
  {
  }

  lemma {:induction false} FindsNode(nodes: seq<AssemblyNode>, i: nat)
    requires i < |nodes| && DistinctNodeIds(nodes)
    ensures FindNode(nodes, nodes[i].id) == Some(nodes[i])
  {
    if i > 0 {
      FindsNode(nodes[1..], i - 1);
    }
  }

  lemma {:induction false} FindsPort(ports: seq<Port>, p: nat)
    requires p < |ports| && forall q, r :: 0 <= q < r < |ports| ==> ports[q].name != ports[r].name
    ensures FindPort(ports, ports[p].name) == Some(ports[p])
  {
    if p > 0 {
      FindsPort(ports[1..], p - 1);
    }
  }

  ghost predicate GoodNodes(modules: seq<ModuleSlot>, nodes: seq<AssemblyNode>) {
    DistinctNodeIds(nodes) && forall i :: 0 <= i < |nodes| ==> GoodNode(modules, nodes[i])
  }

  lemma InPortFound(modules: seq<ModuleSlot>, nodes: seq<AssemblyNode>, node: string, port: string)
    requires GoodNodes(modules, nodes)
    ensures forall i, p :: InPort(modules, nodes, i, p, node, port) ==>
      InputPort(modules, nodes, node, port) == Some(CapabilityFor(modules, nodes[i]).value.inputs[p])
    ensures InputPort(modules, nodes, node, port).Some? ==> exists i, p :: InPort(modules, nodes, i, p, node, port)
  {
    forall i, p | InPort(modules, nodes, i, p, node, port)
      ensures InputPort(modules, nodes, node, port) == Some(CapabilityFor(modules, nodes[i]).value.inputs[p])
    {
      FindsNode(nodes, i);
      assert GoodNode(modules, nodes[i]);
      FindsPort(CapabilityFor(modules, nodes[i]).value.inputs, p);
    }
    if InputPort(modules, nodes, node, port).Some? {
      var n := FindNode(nodes, node).value;
      var i :| 0 <= i < |nodes| && nodes[i] == n;
      var ports := CapabilityFor(modules, n).value.inputs;
      var p :| 0 <= p < |ports| && ports[p] == FindPort(ports, port).value;
      assert InPort(modules, nodes, i, p, node, port);
    }
  }

  lemma OutPortFound(modules: seq<ModuleSlot>, nodes: seq<AssemblyNode>, node: string, port: string)
    requires GoodNodes(modules, nodes)
    ensures forall i, p :: OutPort(modules, nodes, i, p, node, port) ==>
      OutputPort(modules, nodes, node, port) == Some(CapabilityFor(modules, nodes[i]).value.outputs[p])
    ensures OutputPort(modules, nodes, node, port).Some? ==> exists i, p :: OutPort(modules, nodes, i, p, node, port)
  {
    forall i, p | OutPort(modules, nodes, i, p, node, port)
      ensures OutputPort(modules, nodes, node, port) == Some(CapabilityFor(modules, nodes[i]).value.outputs[p])
    {
      FindsNode(nodes, i);
      assert GoodNode(modules, nodes[i]);
      FindsPort(CapabilityFor(modules, nodes[i]).value.outputs, p);
    }
    if OutputPort(modules, nodes, node, port).Some? {
      var n := FindNode(nodes, node).value;
      var i :| 0 <= i < |nodes| && nodes[i] == n;
      var ports := CapabilityFor(modules, n).value.outputs;
      var p :| 0 <= p < |ports| && ports[p] == FindPort(ports, port).value;
      assert OutPort(modules, nodes, i, p, node, port);
    }
  }

  lemma {:induction false} FirstOfName(inputs: seq<NamedArtifact>, k: nat)
    requires k < |inputs| && forall i, j :: 0 <= i < j < |inputs| ==> inputs[i].name != inputs[j].name
    ensures FirstNamed(inputs, inputs[k].name) == Some(inputs[k])
  {
    if k > 0 {
      FirstOfName(inputs[1..], k - 1);
    }
  }

  lemma InputReadIff(world: World, inputs: seq<NamedArtifact>, b: Binding, port: Port)
    requires GoodInputs(world.traits, inputs) && b.input != ""
    ensures (exists k :: ReadsInput(world, inputs, b, port, k))
       <==> !IsUpstream(b) && ArtifactNamed(inputs, b.input).Some?
            && Carries(world.traits, ArtifactNamed(inputs, b.input).value, port.traits)
  {
    if k :| ReadsInput(world, inputs, b, port, k) {
      FirstOfName(inputs, k);
    }
    if !IsUpstream(b) && ArtifactNamed(inputs, b.input).Some?
       && Carries(world.traits, ArtifactNamed(inputs, b.input).value, port.traits) {
      var found := FirstNamed(inputs, b.input).value;
      var k :| 0 <= k < |inputs| && inputs[k] == found;
      assert ReadsInput(world, inputs, b, port, k);
    }
  }

  lemma OutputReadIff(modules: seq<ModuleSlot>, nodes: seq<AssemblyNode>, b: Binding, port: Port)
    requires GoodNodes(modules, nodes) && b.input == ""
    ensures (exists s, q :: ReadsOutput(modules, nodes, b, port, s, q))
       <==> OutputPort(modules, nodes, b.fromNode, b.fromPort).Some?
            && Covers(OutputPort(modules, nodes, b.fromNode, b.fromPort).value.traits, port.traits)
  {
    OutPortFound(modules, nodes, b.fromNode, b.fromPort);
    if OutputPort(modules, nodes, b.fromNode, b.fromPort).Some?
       && Covers(OutputPort(modules, nodes, b.fromNode, b.fromPort).value.traits, port.traits) {
      var s, q :| OutPort(modules, nodes, s, q, b.fromNode, b.fromPort);
      assert ReadsOutput(modules, nodes, b, port, s, q);
    }
    if s, q :| ReadsOutput(modules, nodes, b, port, s, q) {
      assert OutPort(modules, nodes, s, q, b.fromNode, b.fromPort);
    }
  }

  lemma FromNamed(modules: seq<ModuleSlot>, nodes: seq<AssemblyNode>, b: Binding)
    requires GoodNodes(modules, nodes) && OutputPort(modules, nodes, b.fromNode, b.fromPort).Some?
    ensures IsUpstream(b)
  {
    OutPortFound(modules, nodes, b.fromNode, b.fromPort);
    var s, q :| OutPort(modules, nodes, s, q, b.fromNode, b.fromPort);
    assert GoodNode(modules, nodes[s]);
  }

  lemma GoodBindingIff(world: World, nodes: seq<AssemblyNode>, inputs: seq<NamedArtifact>, b: Binding)
    requires GoodNodes(world.modules, nodes) && GoodInputs(world.traits, inputs)
    ensures BindingValid(world, nodes, inputs, b) <==> GoodBinding(world, nodes, inputs, b)
  {
    hide GoodNodes, GoodInputs, CapabilityFor;
    InPortFound(world.modules, nodes, b.toNode, b.toPort);
    var target := InputPort(world.modules, nodes, b.toNode, b.toPort);
    if target.Some? {
      if b.input != "" {
        InputReadIff(world, inputs, b, target.value);
      } else {
        OutputReadIff(world.modules, nodes, b, target.value);
        if OutputPort(world.modules, nodes, b.fromNode, b.fromPort).Some? {
          FromNamed(world.modules, nodes, b);
        }
      }
    }
  }

  lemma {:induction false} BoundNever(bindings: seq<Binding>, node: string, port: string)
    ensures BindingCount(bindings, node, port) == 0
       <==> forall i :: 0 <= i < |bindings| ==> !Binds(bindings[i], node, port)
  {
    if bindings != [] {
      BoundNever(bindings[1..], node, port);
      assert bindings == [bindings[0]] + bindings[1..];
    }
  }

  lemma {:induction false} BoundTwice(bindings: seq<Binding>, node: string, port: string)
    ensures BindingCount(bindings, node, port) > 1
       <==> exists i, j :: 0 <= i < j < |bindings| && Binds(bindings[i], node, port) && Binds(bindings[j], node, port)
  {
    if bindings != [] {
      var rest := bindings[1..];
      BoundTwice(rest, node, port);
      BoundNever(rest, node, port);
      if i, j :| 0 <= i < j < |rest| && Binds(rest[i], node, port) && Binds(rest[j], node, port) {
        assert Binds(bindings[i + 1], node, port) && Binds(bindings[j + 1], node, port);
      }
      if Binds(bindings[0], node, port) && BindingCount(rest, node, port) > 0 {
        var j :| 0 <= j < |rest| && Binds(rest[j], node, port);
        assert Binds(bindings[0], node, port) && Binds(bindings[j + 1], node, port);
      }
      if i, j :| 0 <= i < j < |bindings| && Binds(bindings[i], node, port) && Binds(bindings[j], node, port) {
        assert Binds(rest[j - 1], node, port);
        assert i > 0 ==> Binds(rest[i - 1], node, port);
      }
    }
  }

  lemma PortsBoundIff(modules: seq<ModuleSlot>, bindings: seq<Binding>, n: AssemblyNode)
    requires CapabilityFor(modules, n).Some?
    ensures ArityValid(modules, bindings, n)
       <==> PortsBound(bindings, n.id, CapabilityFor(modules, n).value.inputs)
  {
    var ports := CapabilityFor(modules, n).value.inputs;
    forall p | 0 <= p < |ports|
      ensures BindingCount(bindings, n.id, ports[p].name) == 0
         <==> forall i :: 0 <= i < |bindings| ==> !Binds(bindings[i], n.id, ports[p].name)
      ensures BindingCount(bindings, n.id, ports[p].name) > 1
         <==> exists i, j :: 0 <= i < j < |bindings| && Binds(bindings[i], n.id, ports[p].name)
                             && Binds(bindings[j], n.id, ports[p].name)
    {
      BoundNever(bindings, n.id, ports[p].name);
      BoundTwice(bindings, n.id, ports[p].name);
    }
  }

  lemma GoodTerminalIff(modules: seq<ModuleSlot>, assembly: Assembly)
    requires GoodNodes(modules, assembly.nodes)
    ensures TerminalValid(modules, assembly) <==> GoodTerminal(modules, assembly)
  {
    if assembly.terminal.Some? {
      var t := assembly.terminal.value;
      OutPortFound(modules, assembly.nodes, t.node, t.port);
      if TerminalValid(modules, assembly) {
        var i, p :| OutPort(modules, assembly.nodes, i, p, t.node, t.port);
      }
    }
  }

  lemma GoodNodeIff(modules: seq<ModuleSlot>, n: AssemblyNode)
    ensures NodeValid(modules, n) <==> GoodNode(modules, n)
  {
    var cap := CapabilityFor(modules, n);
    if cap.Some? {
      GoodPortsIff(cap.value.inputs);
      GoodPortsIff(cap.value.outputs);
    }
  }

  /** `start_run` accepts exactly the acceptable assemblies without a cycle. */
  lemma AcceptableIff(world: World, assembly: Assembly, inputs: seq<NamedArtifact>)
    ensures AssemblyFault(world, assembly, inputs).None?
       <==> Acceptable(world, assembly, inputs) && Acyclic(assembly.bindings)
  {
    hide GoodNode, NodeValid, GoodBinding, BindingValid, ArityValid, PortsBound, GoodTerminal, TerminalValid,
      CapabilityFor, Acyclic, GoodNodes;
    var nodes := assembly.nodes;
    forall i | 0 <= i < |nodes|
      ensures NodeValid(world.modules, nodes[i]) <==> GoodNode(world.modules, nodes[i])
    {
      GoodNodeIff(world.modules, nodes[i]);
    }
    assert InputsValid(world.traits, inputs) <==> GoodInputs(world.traits, inputs);
    if DistinctNodeIds(nodes) && (forall i :: 0 <= i < |nodes| ==> GoodNode(world.modules, nodes[i])) {
      assert GoodNodes(world.modules, nodes) by { AreGood(world.modules, nodes); }
      GoodTerminalIff(world.modules, assembly);
      forall i | 0 <= i < |nodes|
        ensures CapabilityFor(world.modules, nodes[i]).Some?
        ensures ArityValid(world.modules, assembly.bindings, nodes[i])
           <==> PortsBound(assembly.bindings, nodes[i].id, CapabilityFor(world.modules, nodes[i]).value.inputs)
      {
        assert CapabilityFor(world.modules, nodes[i]).Some? by { GoodResolves(world.modules, nodes[i]); }
        PortsBoundIff(world.modules, assembly.bindings, nodes[i]);
      }
      if GoodInputs(world.traits, inputs) {
        forall b | 0 <= b < |assembly.bindings|
          ensures BindingValid(world, nodes, inputs, assembly.bindings[b])
             <==> GoodBinding(world, nodes, inputs, assembly.bindings[b])
        {
          GoodBindingIff(world, nodes, inputs, assembly.bindings[b]);
        }
      }
    }
  }

  /** The first run input at fault is whole but for its artifact, which is not stored. */
  ghost predicate FirstNotStored(traits: map<string, set<string>>, inputs: seq<NamedArtifact>, n: int) {
    && 0 <= n < |inputs| && inputs[n].name != "" && (forall k :: 0 <= k < n ==> inputs[k].name != inputs[n].name)
    && inputs[n].artifact.Some? && inputs[n].artifact.value !in traits && GoodInputs(traits, inputs[..n])
  }

  lemma {:induction false} InputNotStoredIff(traits: map<string, set<string>>, inputs: seq<NamedArtifact>, n: nat)
    requires n <= |inputs| && GoodInputs(traits, inputs[..n])
    ensures InputFault(traits, inputs, n) == Some(NotFound) <==> exists m :: FirstNotStored(traits, inputs, m)
    decreases |inputs| - n
  {
    GoodAt(traits, inputs, n);
    if n < |inputs| {
      if GoodInputs(traits, inputs[..n + 1]) {
        GoodAt(traits, inputs, n + 1);
        InputNotStoredIff(traits, inputs, n + 1);
      } else {
        forall m | n < m < |inputs|
          ensures !FirstNotStored(traits, inputs, m)
        {
          if GoodInputs(traits, inputs[..m]) {
            GoodUpTo(traits, inputs, n + 1, m);
          }
        }
        if inputs[n].name != "" && inputs[n].artifact.Some? && inputs[n].artifact.value in traits
           && forall k :: 0 <= k < n ==> inputs[k].name != inputs[n].name {
          StillGood(traits, inputs, n);
        }
        assert forall m :: FirstNotStored(traits, inputs, m) ==> m == n;
        assert InputFault(traits, inputs, n) == Some(NotFound) <==> FirstNotStored(traits, inputs, n);
      }
    }
  }

  lemma GoodAt(traits: map<string, set<string>>, inputs: seq<NamedArtifact>, n: nat)
    requires n <= |inputs| && GoodInputs(traits, inputs[..n])
    ensures forall k :: 0 <= k < n ==>
      inputs[k].name != "" && inputs[k].artifact.Some? && inputs[k].artifact.value in traits
    ensures forall k, l :: 0 <= k < l < n ==> inputs[k].name != inputs[l].name
  {
    forall k | 0 <= k < n
      ensures inputs[..n][k] == inputs[k]
    {
    }
  }

  lemma GoodUpTo(traits: map<string, set<string>>, inputs: seq<NamedArtifact>, n: nat, m: nat)
    requires n <= m <= |inputs| && GoodInputs(traits, inputs[..m])
    ensures GoodInputs(traits, inputs[..n])
  {
    assert inputs[..m][..n] == inputs[..n];
  }

  lemma StillGood(traits: map<string, set<string>>, inputs: seq<NamedArtifact>, n: nat)
    requires n < |inputs| && GoodInputs(traits, inputs[..n]) && inputs[n].name != "" && inputs[n].artifact.Some?
    requires inputs[n].artifact.value in traits && forall k :: 0 <= k < n ==> inputs[k].name != inputs[n].name
    ensures GoodInputs(traits, inputs[..n + 1])
  {
    assert inputs[..n + 1] == inputs[..n] + [inputs[n]];
  }

  /** An assembly is refused as naming something unknown exactly when ids, nodes and terminal are good
    * and the first run input at fault is one whose artifact is not stored; all else is Invalid. */
  lemma NotFoundIff(world: World, assembly: Assembly, inputs: seq<NamedArtifact>)
    ensures AssemblyFault(world, assembly, inputs) == Some(NotFound)
       <==> assembly.id != "" && |assembly.nodes| > 0 && GoodNodes(world.modules, assembly.nodes)
            && GoodTerminal(world.modules, assembly) && exists n :: FirstNotStored(world.traits, inputs, n)
    ensures AssemblyFault(world, assembly, inputs) in {None, Some(NotFound), Some(Invalid)}
  {
    hide GoodNode, NodeValid, GoodTerminal, TerminalValid, ValidAssembly, InputFault;
    var nodes := assembly.nodes;
    forall i | 0 <= i < |nodes|
      ensures NodeValid(world.modules, nodes[i]) <==> GoodNode(world.modules, nodes[i])
    {
      GoodNodeIff(world.modules, nodes[i]);
    }
    if GoodNodes(world.modules, nodes) {
      GoodTerminalIff(world.modules, assembly);
    }
    assert GoodInputs(world.traits, inputs[..0]);
    InputNotStoredIff(world.traits, inputs, 0);
  }

  lemma AreGood(modules: seq<ModuleSlot>, nodes: seq<AssemblyNode>)
    requires DistinctNodeIds(nodes) && forall i :: 0 <= i < |nodes| ==> GoodNode(modules, nodes[i])
    ensures GoodNodes(modules, nodes)
  {
  }

  lemma GoodResolves(modules: seq<ModuleSlot>, n: AssemblyNode)
    requires GoodNode(modules, n)
    ensures CapabilityFor(modules, n).Some?
  {
  }

  // ---------------------------------------------------------------- what claimed work is given

  /** One input for each binding of the node, on the port it is bound to. */
  ghost predicate InputsBound(bindings: seq<Binding>, node: AssemblyNode, inputs: seq<NamedArtifact>) {
    var bs := BindingsTo(bindings, node.id);
    |inputs| == |bs| && forall i :: 0 <= i < |bs| ==> inputs[i].name == bs[i].toPort && inputs[i].artifact.Some?
  }

  ghost predicate AllBound(log: RunLog) {
    var bindings := log.slot.run.assembly.bindings;
    && (forall id :: id in log.slot.claimed ==>
          InputsBound(bindings, log.slot.claimed[id].node, log.slot.claimed[id].inputs))
    && (forall i :: 0 <= i < |log.derivations| ==>
          InputsBound(bindings, log.derivations[i].node, log.derivations[i].inputs))
  }

  lemma ReadyBound(modules: seq<ModuleSlot>, slot: RunSlot, c: Candidate)
    requires IsReady(modules, slot, c)
    ensures InputsBound(slot.run.assembly.bindings, c.node, c.inputs)
  {
    var bs := BoundTo(slot, c.node);
    forall i | 0 <= i < |bs|
      ensures c.inputs[i].name == bs[i].toPort && c.inputs[i].artifact.Some?
    {
      assert ResolveBinding(slot.run.inputs, slot.latest, bs[i]).Some?;
    }
  }

  lemma TakeBound(modules: seq<ModuleSlot>, log: RunLog, c: Candidate, now: int)
    requires AllBound(log) && IsReady(modules, log.slot, c)
    ensures AllBound(log.(slot := Take(log.slot, c, now)))
  {
    hide InputsBound;
    ReadyBound(modules, log.slot, c);
  }

  lemma CommitBound(log: RunLog, id: WorkId, outputs: seq<NamedArtifact>)
    requires AllBound(log) && id in log.slot.claimed
    ensures AllBound(CommitUnit(log, id, outputs))
  {
    hide InputsBound;
  }

  lemma OthersBound(log: RunLog, m: Move)
    requires AllBound(log) && !m.MTake? && !m.MCommit?
    ensures AllBound(Apply(log, m))
  {
    hide InputsBound;
  }

  lemma {:induction false} AlwaysBound(start: RunLog, steps: seq<Step>)
    requires Fresh(start) && IsRun(start, steps)
    ensures AllBound(RunSteps(start, steps))
  {
    if steps != [] {
      hide AllBound, Fresh, CommitAllowed, CommitUnit, Take;
      var front, last := steps[..|steps| - 1], steps[|steps| - 1];
      var log := RunSteps(start, front);
      AlwaysBound(start, front);
      assert EnabledAfter(start, front, last);
      match last.move
      case MTake(c, now) => TakeBound(last.world.modules, log, c, now);
      case MCommit(id, outputs) =>
        AllowedHeld(last.world, log.slot, id, outputs);
        CommitBound(log, id, outputs);
      case _ => OthersBound(log, last.move);
    }
  }

  lemma {:induction false} CountBound(bindings: seq<Binding>, node: AssemblyNode, inputs: seq<NamedArtifact>,
                                      port: string)
    requires InputsBound(bindings, node, inputs)
    ensures CountNamed(inputs, port) == BindingCount(bindings, node.id, port)
  {
    if bindings != [] {
      if bindings[0].toNode == node.id {
        assert BindingsTo(bindings, node.id)[1..] == BindingsTo(bindings[1..], node.id);
        CountBound(bindings[1..], node, inputs[1..], port);
      } else {
        CountBound(bindings[1..], node, inputs, port);
      }
    }
  }

  /** A node whose ports are bound as asked is given inputs as asked. */
  lemma BoundIsServed(modules: seq<ModuleSlot>, bindings: seq<Binding>, node: AssemblyNode, inputs: seq<NamedArtifact>)
    requires ArityValid(modules, bindings, node) && InputsBound(bindings, node, inputs)
    ensures PortsServed(CapabilityFor(modules, node).value.inputs, inputs)
  {
    hide CountNamed, BindingCount;
    var ports := CapabilityFor(modules, node).value.inputs;
    forall p | 0 <= p < |ports|
      ensures CountNamed(inputs, ports[p].name) == BindingCount(bindings, node.id, ports[p].name)
    {
      CountBound(bindings, node, inputs, ports[p].name);
    }
    ArityIsServed(ports, inputs);
  }

  /** In any history, work is handed out with an input on every required port, and with
    * two only on ports marked `multiple`. */
  lemma ClaimedServed(config: Config, calls: seq<Call>, r: string, id: WorkId) returns (base: World)
    requires r in After(config, calls).runs && id in After(config, calls).runs[r].claimed
    ensures Grows(base, WorldOf(After(config, calls)))
    ensures var item := After(config, calls).runs[r].claimed[id];
      var cap := CapabilityFor(base.modules, item.node);
      cap.Some? && PortsServed(cap.value.inputs, item.inputs)
  {
    hide Fresh, ValidAssembly, AllBound;
    var start, steps;
    base, start, steps := StepsOf(config, calls, r);
    AlwaysBound(start, steps);
    KernelRunsAreSound(config, calls, r);
    var slot := After(config, calls).runs[r];
    ClaimIsServed(base, slot, start.slot.run.inputs, LogOf(After(config, calls), r), id);
  }

  lemma ClaimIsServed(base: World, slot: RunSlot, inputs: seq<NamedArtifact>, log: RunLog, id: WorkId)
    requires ValidAssembly(base, slot.run.assembly, inputs) && log.slot == slot && AllBound(log) && ClaimsNamed(slot)
    requires id in slot.claimed
    ensures var cap := CapabilityFor(base.modules, slot.claimed[id].node);
      cap.Some? && PortsServed(cap.value.inputs, slot.claimed[id].inputs)
  {
    var nodes, item := slot.run.assembly.nodes, slot.claimed[id];
    var i :| 0 <= i < |nodes| && nodes[i] == item.node;
    assert NodeValid(base.modules, nodes[i]) && ArityValid(base.modules, slot.run.assembly.bindings, nodes[i]);
    BoundIsServed(base.modules, slot.run.assembly.bindings, item.node, item.inputs);
  }
}
