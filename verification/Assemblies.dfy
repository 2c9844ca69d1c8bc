/** What `validate_assembly` demands of an assembly, said declaratively. The
  * method that checks it, depth-first search included, is in module `Validation`. */
module Assemblies {
  import opened Base
  import opened Types
  import opened Scheduler
  import opened Moves

  predicate PortsTyped(ports: seq<Port>) {
    && (forall i :: 0 <= i < |ports| ==> ports[i].name != "" && ports[i].traits != [] && "" !in ports[i].traits)
    && (forall i, j :: 0 <= i < j < |ports| ==> ports[i].name != ports[j].name)
  }

  predicate NodeValid(modules: seq<ModuleSlot>, node: AssemblyNode) {
    var cap := CapabilityFor(modules, node);
    node.id != "" && cap.Some? && PortsTyped(cap.value.inputs) && PortsTyped(cap.value.outputs)
  }

  function FindNode(nodes: seq<AssemblyNode>, id: string): (r: Option<AssemblyNode>)
    ensures r.Some? ==> r.value in nodes && r.value.id == id
    ensures r.None? <==> forall i :: 0 <= i < |nodes| ==> nodes[i].id != id
  {
    if nodes == [] then None
    else if nodes[0].id == id then Some(nodes[0])
    else FindNode(nodes[1..], id)
  }

  /** The input port of the named node, if node, capability and port exist. */
  function InputPort(modules: seq<ModuleSlot>, nodes: seq<AssemblyNode>, node: string, port: string): Option<Port> {
    var n := FindNode(nodes, node);
    if n.None? then None
    else
      var cap := CapabilityFor(modules, n.value);
      if cap.None? then None else FindPort(cap.value.inputs, port)
  }

  function OutputPort(modules: seq<ModuleSlot>, nodes: seq<AssemblyNode>, node: string, port: string): Option<Port> {
    var n := FindNode(nodes, node);
    if n.None? then None
    else
      var cap := CapabilityFor(modules, n.value);
      if cap.None? then None else FindPort(cap.value.outputs, port)
  }

  predicate TerminalValid(modules: seq<ModuleSlot>, assembly: Assembly) {
    assembly.terminal.Some? &&
    var port := OutputPort(modules, assembly.nodes, assembly.terminal.value.node, assembly.terminal.value.port);
    port.Some? && !port.value.multiple
  }

  predicate InputsValid(traits: map<string, set<string>>, inputs: seq<NamedArtifact>) {
    && (forall i :: 0 <= i < |inputs| ==>
          inputs[i].name != "" && inputs[i].artifact.Some? && inputs[i].artifact.value in traits)
    && (forall i, j :: 0 <= i < j < |inputs| ==> inputs[i].name != inputs[j].name)
  }

  predicate Covers(have: seq<string>, need: seq<string>) {
    forall i :: 0 <= i < |need| ==> need[i] in have
  }

  predicate IsUpstream(b: Binding) {
    b.fromNode != "" || b.fromPort != ""
  }

  predicate BindingValid(world: World, nodes: seq<AssemblyNode>, inputs: seq<NamedArtifact>, b: Binding) {
    var target := InputPort(world.modules, nodes, b.toNode, b.toPort);
    && target.Some? && IsUpstream(b) == (b.input == "")
    && if b.input != "" then
         var a := ArtifactNamed(inputs, b.input);
         a.Some? && Carries(world.traits, a.value, target.value.traits)
       else
         var source := OutputPort(world.modules, nodes, b.fromNode, b.fromPort);
         source.Some? && Covers(source.value.traits, target.value.traits)
  }

  function BindingCount(bindings: seq<Binding>, node: string, port: string): nat {
    if bindings == [] then 0
    else
      var here := if bindings[0].toNode == node && bindings[0].toPort == port then 1 else 0;
      here + BindingCount(bindings[1..], node, port)
  }

  predicate ArityValid(modules: seq<ModuleSlot>, bindings: seq<Binding>, node: AssemblyNode) {
    var cap := CapabilityFor(modules, node);
    cap.Some? && forall i :: 0 <= i < |cap.value.inputs| ==>
      var n := BindingCount(bindings, node.id, cap.value.inputs[i].name);
      (n == 0 ==> cap.value.inputs[i].optional) && (n > 1 ==> cap.value.inputs[i].multiple)
  }

  /** Every upstream binding goes from a lower to a higher rank. */
  ghost predicate IsRank(bindings: seq<Binding>, rank: map<string, nat>) {
    forall i :: 0 <= i < |bindings| && bindings[i].input == "" ==>
      Lookup(rank, bindings[i].fromNode, 0) < Lookup(rank, bindings[i].toNode, 0)
  }

  ghost predicate Acyclic(bindings: seq<Binding>) {
    exists rank: map<string, nat> :: IsRank(bindings, rank)
  }

  /** Everything but the cycle check. */
  predicate WellBound(world: World, assembly: Assembly, inputs: seq<NamedArtifact>) {
    && assembly.id != "" && assembly.nodes != []
    && (forall i :: 0 <= i < |assembly.nodes| ==> NodeValid(world.modules, assembly.nodes[i]))
    && DistinctNodeIds(assembly.nodes)
    && TerminalValid(world.modules, assembly)
    && InputsValid(world.traits, inputs)
    && (forall i :: 0 <= i < |assembly.bindings| ==>
          BindingValid(world, assembly.nodes, inputs, assembly.bindings[i]))
    && (forall i :: 0 <= i < |assembly.nodes| ==>
          ArityValid(world.modules, assembly.bindings, assembly.nodes[i]))
  }

  /** The first run input at fault, in order. */
  function InputFault(traits: map<string, set<string>>, inputs: seq<NamedArtifact>, n: nat): (r: Option<KernelError>)
    requires n <= |inputs|
    ensures r in {None, Some(Invalid), Some(NotFound)}
    decreases |inputs| - n
  {
    if n == |inputs| then None
    else if inputs[n].name == "" || (exists i :: 0 <= i < n && inputs[i].name == inputs[n].name) then Some(Invalid)
    else if inputs[n].artifact.None? then Some(Invalid)
    else if inputs[n].artifact.value !in traits then Some(NotFound)
    else InputFault(traits, inputs, n + 1)
  }

  lemma {:induction false} NoInputFault(traits: map<string, set<string>>, inputs: seq<NamedArtifact>, n: nat)
    requires n <= |inputs| && InputsValid(traits, inputs[..n])
    ensures InputFault(traits, inputs, n).None? <==> InputsValid(traits, inputs)
    decreases |inputs| - n
  {
    if n == |inputs| {
      assert inputs[..n] == inputs;
    } else if InputFault(traits, inputs, n) == InputFault(traits, inputs, n + 1) && inputs[n].artifact.Some?
              && inputs[n].name != "" && inputs[n].artifact.value in traits
              && !exists i :: 0 <= i < n && inputs[i].name == inputs[n].name {
      assert InputsValid(traits, inputs[..n + 1]) by {
        assert inputs[..n + 1] == inputs[..n] + [inputs[n]];
        forall i | 0 <= i < n
          ensures inputs[..n][i] == inputs[i]
        {
        }
      }
      NoInputFault(traits, inputs, n + 1);
    }
  }

  /** The checks made before the run inputs are looked at. */
  predicate GraphValid(modules: seq<ModuleSlot>, assembly: Assembly) {
    && assembly.id != "" && assembly.nodes != []
    && (forall i :: 0 <= i < |assembly.nodes| ==> NodeValid(modules, assembly.nodes[i]))
    && DistinctNodeIds(assembly.nodes) && TerminalValid(modules, assembly)
  }

  /** Why `start_run` refuses an assembly; nothing exactly when it is valid. */
  ghost function AssemblyFault(world: World, assembly: Assembly, inputs: seq<NamedArtifact>): (r: Option<KernelError>)
    ensures r.None? <==> ValidAssembly(world, assembly, inputs)
  {
    NoInputFault(world.traits, inputs, 0);
    if !GraphValid(world.modules, assembly) then Some(Invalid)
    else if InputFault(world.traits, inputs, 0).Some? then InputFault(world.traits, inputs, 0)
    else if !ValidAssembly(world, assembly, inputs) then Some(Invalid)
    else None
  }

  ghost predicate ValidAssembly(world: World, assembly: Assembly, inputs: seq<NamedArtifact>) {
    WellBound(world, assembly, inputs) && Acyclic(assembly.bindings)
  }

  /** Every node resolves to one capability. */
  ghost predicate Capable(base: World, nodes: seq<AssemblyNode>) {
    forall n :: n in nodes ==> CapabilityFor(base.modules, n).Some?
  }

  lemma ValidCapable(base: World, assembly: Assembly, inputs: seq<NamedArtifact>)
    requires ValidAssembly(base, assembly, inputs)
    ensures Capable(base, assembly.nodes)
  {
    forall n | n in assembly.nodes
      ensures CapabilityFor(base.modules, n).Some?
    {
      var i :| 0 <= i < |assembly.nodes| && assembly.nodes[i] == n;
      assert NodeValid(base.modules, assembly.nodes[i]);
    }
  }

  // ---------------------------------------------------------------- how a world may grow

  lemma {:induction false} ProvidersGrow(old_: seq<ModuleSlot>, new_: seq<ModuleSlot>, node: AssemblyNode)
    requires |old_| <= |new_|
    requires forall i :: 0 <= i < |old_| ==> new_[i].manifest == old_[i].manifest
    ensures Providers(old_, node) <= Providers(new_, node)
  {
    if old_ != [] {
      forall i | 0 <= i < |old_[1..]|
        ensures new_[1..][i].manifest == old_[1..][i].manifest
      {
        assert new_[1..][i] == new_[i + 1] && old_[1..][i] == old_[i + 1];
      }
      ProvidersGrow(old_[1..], new_[1..], node);
    }
  }

  /** Registering more modules never changes what a resolved node resolves to:
    * at worst the coordinate becomes ambiguous and resolves to nothing. */
  lemma CapabilityStable(world: World, world': World, node: AssemblyNode)
    requires Grows(world, world') && CapabilityFor(world.modules, node).Some?
    ensures CapabilityFor(world'.modules, node) in {None, CapabilityFor(world.modules, node)}
  {
    ProvidersGrow(world.modules, world'.modules, node);
  }

  lemma CarriesStable(world: World, world': World, artifact: string, needed: seq<string>)
    requires Grows(world, world') && Carries(world.traits, artifact, needed)
    ensures Carries(world'.traits, artifact, needed)
  {
  }
}
