/** Where the inputs of a derivation come from, and what traits they carry. */
module Provenance {
  import opened Base
  import opened Types
  import opened Scheduler
  import opened Moves
  import opened Safety
  import opened Accounting
  import opened Assemblies

  // ---------------------------------------------------------------- provenance

  /** `artifact` is the first output of the binding's port in one of the first
    * `n` derivations, by the binding's source node. */
  ghost predicate CameFrom(ds: seq<Derivation>, n: nat, b: Binding, artifact: Option<string>)
    requires n <= |ds|
  {
    exists k :: 0 <= k < n && ds[k].node.id == b.fromNode
      && artifact.Some? && ArtifactNamed(ds[k].outputs, b.fromPort) == artifact
  }

  /** One input per binding of the node, and each upstream one has an earlier
    * derivation behind it. */
  ghost predicate Sourced(bindings: seq<Binding>, ds: seq<Derivation>, n: nat, node: AssemblyNode,
                          inputs: seq<NamedArtifact>)
    requires n <= |ds|
  {
    var bs := BindingsTo(bindings, node.id);
    && |inputs| == |bs|
    && forall j :: 0 <= j < |bs| ==>
         inputs[j].name == bs[j].toPort && (bs[j].input == "" ==> CameFrom(ds, n, bs[j], inputs[j].artifact))
  }

  ghost predicate AllSourced(log: RunLog) {
    var bindings, ds := log.slot.run.assembly.bindings, log.derivations;
    && (forall i :: 0 <= i < |ds| ==> Sourced(bindings, ds, i, ds[i].node, ds[i].inputs))
    && (forall id :: id in log.slot.claimed ==>
          Sourced(bindings, ds, |ds|, log.slot.claimed[id].node, log.slot.claimed[id].inputs))
  }

  lemma SourcedGrows(bindings: seq<Binding>, ds: seq<Derivation>, n: nat, d: Derivation, m: nat, node: AssemblyNode,
                     inputs: seq<NamedArtifact>)
    requires n <= |ds| && n <= m <= |ds| + 1
    requires Sourced(bindings, ds, n, node, inputs)
    ensures Sourced(bindings, ds + [d], m, node, inputs)
  {
    var bs := BindingsTo(bindings, node.id);
    forall j | 0 <= j < |bs| && bs[j].input == ""
      ensures CameFrom(ds + [d], m, bs[j], inputs[j].artifact)
    {
      var k :| 0 <= k < n && ds[k].node.id == bs[j].fromNode
               && inputs[j].artifact.Some? && ArtifactNamed(ds[k].outputs, bs[j].fromPort) == inputs[j].artifact;
      assert (ds + [d])[k] == ds[k];
    }
  }

  lemma ReadySourced(world: World, log: RunLog, c: Candidate)
    requires Booked(log) && IsReady(world.modules, log.slot, c)
    ensures Sourced(log.slot.run.assembly.bindings, log.derivations, |log.derivations|, c.node, c.inputs)
  {
    var slot, ds := log.slot, log.derivations;
    var bs := BoundTo(slot, c.node);
    forall j | 0 <= j < |bs| && bs[j].input == ""
      ensures CameFrom(ds, |ds|, bs[j], c.inputs[j].artifact)
    {
      assert c.inputs[j] == NamedArtifact(bs[j].toPort, ResolveBinding(slot.run.inputs, slot.latest, bs[j]));
      assert bs[j].fromNode in slot.latest;
      assert LastOf(ds, bs[j].fromNode) == Some(slot.latest[bs[j].fromNode]);
    }
  }

  lemma SourcedKept(world: World, log: RunLog, m: Move)
    requires AllSourced(log) && Booked(log) && Enabled(world, log.slot, m)
    ensures AllSourced(Apply(log, m))
  {
    match m
    case MTake(c, now) => ReadySourced(world, log, c);
    case MCommit(id, outputs) => CommitSourced(log, id, outputs);
    case _ =>
  }

  lemma CommitSourced(log: RunLog, id: WorkId, outputs: seq<NamedArtifact>)
    requires AllSourced(log) && id in log.slot.claimed
    ensures AllSourced(CommitUnit(log, id, outputs))
  {
    var item := log.slot.claimed[id];
    var log' := CommitUnit(log, id, outputs);
    SourcedAfter(log.slot.run.assembly.bindings, log.derivations, DerivationOf(item, outputs),
                 log.slot.claimed, log'.slot.claimed, id);
    assert log'.slot.run.assembly == log.slot.run.assembly;
  }

  lemma SourcedAfter(bindings: seq<Binding>, ds: seq<Derivation>, d: Derivation,
                     claimed: map<WorkId, WorkItem>, claimed': map<WorkId, WorkItem>, id: WorkId)
    requires forall i :: 0 <= i < |ds| ==> Sourced(bindings, ds, i, ds[i].node, ds[i].inputs)
    requires forall c :: c in claimed ==> Sourced(bindings, ds, |ds|, claimed[c].node, claimed[c].inputs)
    requires id in claimed && d.node == claimed[id].node && d.inputs == claimed[id].inputs
    requires claimed' == claimed - {id}
    ensures forall i :: 0 <= i < |ds + [d]| ==>
      Sourced(bindings, ds + [d], i, (ds + [d])[i].node, (ds + [d])[i].inputs)
    ensures forall c :: c in claimed' ==>
      Sourced(bindings, ds + [d], |ds + [d]|, claimed'[c].node, claimed'[c].inputs)
  {
    SourcedGrows(bindings, ds, |ds|, d, |ds|, d.node, d.inputs);
    DerivationsSourced(bindings, ds, d);
    ClaimsSourced(bindings, ds, d, claimed);
  }

  lemma DerivationsSourced(bindings: seq<Binding>, ds: seq<Derivation>, d: Derivation)
    requires forall i :: 0 <= i < |ds| ==> Sourced(bindings, ds, i, ds[i].node, ds[i].inputs)
    ensures forall i :: 0 <= i < |ds| ==> Sourced(bindings, ds + [d], i, ds[i].node, ds[i].inputs)
  {
    forall i | 0 <= i < |ds|
      ensures Sourced(bindings, ds + [d], i, ds[i].node, ds[i].inputs)
    {
      SourcedGrows(bindings, ds, i, d, i, ds[i].node, ds[i].inputs);
    }
  }

  lemma ClaimsSourced(bindings: seq<Binding>, ds: seq<Derivation>, d: Derivation, claimed: map<WorkId, WorkItem>)
    requires forall id :: id in claimed ==> Sourced(bindings, ds, |ds|, claimed[id].node, claimed[id].inputs)
    ensures forall id :: id in claimed ==> Sourced(bindings, ds + [d], |ds| + 1, claimed[id].node, claimed[id].inputs)
  {
    forall id | id in claimed
      ensures Sourced(bindings, ds + [d], |ds| + 1, claimed[id].node, claimed[id].inputs)
    {
      SourcedGrows(bindings, ds, |ds|, d, |ds| + 1, claimed[id].node, claimed[id].inputs);
    }
  }

  /** Provenance in every run: each upstream input of the i-th derivation is the
    * first output of that port in an earlier derivation of the source node. */
  lemma {:induction false} AlwaysSourced(start: RunLog, steps: seq<Step>)
    requires Fresh(start) && IsRun(start, steps)
    ensures AllSourced(RunSteps(start, steps))
  {
    if steps != [] {
      var front, last := steps[..|steps| - 1], steps[|steps| - 1];
      AlwaysSourced(start, front);
      AlwaysAccounted(start, front);
      SourcedKept(last.world, RunSteps(start, front), last.move);
    }
  }

  // ---------------------------------------------------------------- typing

  /** The registry and the artifact store only grow along the run. */
  ghost predicate GrowingRun(base: World, steps: seq<Step>, world: World) {
    Grows(base, world) && WorldsGrow(steps, world) && forall i :: 0 <= i < |steps| ==> Grows(base, steps[i].world)
  }

  /** An injected artifact carries what every port it is bound to needs. */
  ghost predicate InjectionFits(base: World, nodes: seq<AssemblyNode>, bindings: seq<Binding>, s: Step) {
    s.move.MInject? && s.move.input.artifact.Some? ==>
      forall i :: 0 <= i < |bindings| && bindings[i].input == s.move.input.name && bindings[i].input != "" ==>
        var port := InputPort(base.modules, nodes, bindings[i].toNode, bindings[i].toPort);
        port.Some? ==> Carries(s.world.traits, s.move.input.artifact.value, port.value.traits)
  }

  /** The artifact a binding resolves to carries all traits of its target port. */
  ghost predicate BindingTyped(base: World, now: World, slot: RunSlot, b: Binding) {
    var a := ResolveBinding(slot.run.inputs, slot.latest, b);
    var port := InputPort(base.modules, slot.run.assembly.nodes, b.toNode, b.toPort);
    port.Some? && (a.Some? ==> Carries(now.traits, a.value, port.value.traits))
  }

  /** Every input carries the traits its port requires. */
  ghost predicate InputsTyped(base: World, now: World, nodes: seq<AssemblyNode>, node: string,
                              inputs: seq<NamedArtifact>) {
    forall j :: 0 <= j < |inputs| ==>
      var port := InputPort(base.modules, nodes, node, inputs[j].name);
      port.Some? && inputs[j].artifact.Some? && Carries(now.traits, inputs[j].artifact.value, port.value.traits)
  }

  ghost predicate ClaimsTyped(base: World, now: World, slot: RunSlot) {
    forall id :: id in slot.claimed ==>
      InputsTyped(base, now, slot.run.assembly.nodes, slot.claimed[id].node.id, slot.claimed[id].inputs)
  }

  /** Every stored output of a latest derivation carries its port's traits. */
  ghost predicate LatestTyped(base: World, now: World, slot: RunSlot) {
    forall n, port :: n in slot.latest && ArtifactNamed(slot.latest[n].outputs, port).Some? ==>
      OutputTyped(base, now, slot, n, port)
  }

  ghost predicate OutputTyped(base: World, now: World, slot: RunSlot, n: string, port: string) {
    var p := OutputPort(base.modules, slot.run.assembly.nodes, n, port);
    p.Some? && n in slot.latest && ArtifactNamed(slot.latest[n].outputs, port).Some?
    && Carries(now.traits, ArtifactNamed(slot.latest[n].outputs, port).value, p.value.traits)
  }

  ghost predicate RunInputsTyped(base: World, now: World, slot: RunSlot) {
    forall b :: b in slot.run.assembly.bindings && b.input != "" && ArtifactNamed(slot.run.inputs, b.input).Some? ==>
      var port := InputPort(base.modules, slot.run.assembly.nodes, b.toNode, b.toPort);
      port.Some? && Carries(now.traits, ArtifactNamed(slot.run.inputs, b.input).value, port.value.traits)
  }

  ghost predicate Typed(base: World, now: World, slot: RunSlot) {
    LatestTyped(base, now, slot) && RunInputsTyped(base, now, slot) && ClaimsTyped(base, now, slot)
  }

  /** The upstream bindings of a valid assembly fit: targets exist and sources
    * guarantee what targets need. */
  ghost predicate BindingsFit(base: World, assembly: Assembly) {
    && DistinctNodeIds(assembly.nodes)
    && (forall i :: 0 <= i < |assembly.nodes| ==> CapabilityFor(base.modules, assembly.nodes[i]).Some?)
    && forall b :: b in assembly.bindings ==>
         var target := InputPort(base.modules, assembly.nodes, b.toNode, b.toPort);
         target.Some? && (b.input == "" ==>
           var source := OutputPort(base.modules, assembly.nodes, b.fromNode, b.fromPort);
           source.Some? && Covers(source.value.traits, target.value.traits))
  }

  lemma ValidFits(base: World, assembly: Assembly, inputs: seq<NamedArtifact>)
    requires WellBound(base, assembly, inputs)
    ensures BindingsFit(base, assembly)
  {
    forall b | b in assembly.bindings
      ensures BindingValid(base, assembly.nodes, inputs, b)
    {
    }
  }

  lemma ResolvedTyped(base: World, now: World, slot: RunSlot, b: Binding)
    requires BindingsFit(base, slot.run.assembly) && b in slot.run.assembly.bindings
    requires LatestTyped(base, now, slot) && RunInputsTyped(base, now, slot)
    ensures BindingTyped(base, now, slot, b)
  {
    if b.input == "" && ResolveBinding(slot.run.inputs, slot.latest, b).Some? {
      assert OutputTyped(base, now, slot, b.fromNode, b.fromPort);
    }
  }

  lemma TypedGrows(base: World, now: World, later: World, slot: RunSlot)
    requires Typed(base, now, slot) && Grows(now, later)
    ensures Typed(base, later, slot)
  {
    forall n, port | n in slot.latest && ArtifactNamed(slot.latest[n].outputs, port).Some?
      ensures OutputTyped(base, later, slot, n, port)
    {
      assert OutputTyped(base, now, slot, n, port);
    }
  }

  lemma TakeTyped(base: World, world: World, slot: RunSlot, c: Candidate, at: int)
    requires BindingsFit(base, slot.run.assembly) && Typed(base, world, slot)
    requires IsReady(world.modules, slot, c)
    ensures Typed(base, world, Take(slot, c, at))
    ensures InputsTyped(base, world, slot.run.assembly.nodes, c.node.id, c.inputs)
  {
    var bs := BoundTo(slot, c.node);
    forall j | 0 <= j < |c.inputs|
      ensures var port := InputPort(base.modules, slot.run.assembly.nodes, c.node.id, c.inputs[j].name);
        port.Some? && c.inputs[j].artifact.Some? && Carries(world.traits, c.inputs[j].artifact.value, port.value.traits)
    {
      assert c.inputs[j] == NamedArtifact(bs[j].toPort, ResolveBinding(slot.run.inputs, slot.latest, bs[j]));
      assert bs[j] in bs;
      ResolvedTyped(base, world, slot, bs[j]);
    }
    TakeKeepsTypes(base, world, slot, c, at);
  }

  lemma TakeKeepsTypes(base: World, world: World, slot: RunSlot, c: Candidate, at: int)
    requires Typed(base, world, slot)
    requires InputsTyped(base, world, slot.run.assembly.nodes, c.node.id, c.inputs)
    ensures Typed(base, world, Take(slot, c, at))
  {
    var slot' := Take(slot, c, at);
    forall n, port | n in slot.latest && ArtifactNamed(slot.latest[n].outputs, port).Some?
      ensures OutputTyped(base, world, slot', n, port)
    {
      assert OutputTyped(base, world, slot, n, port);
    }
  }

  lemma CommittedFits(base: World, world: World, slot: RunSlot, id: WorkId, outputs: seq<NamedArtifact>, port: string)
    requires BindingsFit(base, slot.run.assembly) && Grows(base, world)
    requires id in slot.claimed && slot.claimed[id].node in slot.run.assembly.nodes
    requires CommitAllowed(world, slot, id, outputs) && ArtifactNamed(outputs, port).Some?
    ensures var p := OutputPort(base.modules, slot.run.assembly.nodes, slot.claimed[id].node.id, port);
      p.Some? && Carries(world.traits, ArtifactNamed(outputs, port).value, p.value.traits)
  {
    var node := slot.claimed[id].node;
    CapabilityStable(base, world, node);
    assert FindNode(slot.run.assembly.nodes, node.id) == Some(node);
    var o := FirstNamed(outputs, port).value;
    var k :| 0 <= k < |outputs| && outputs[k] == o;
    assert FitsPort(world.traits, CapabilityFor(world.modules, node).value.outputs, outputs[k]);
  }

  /** A commit that passes output validation leaves typed outputs behind. */
  lemma CommitTyped(base: World, world: World, log: RunLog, id: WorkId, outputs: seq<NamedArtifact>)
    requires BindingsFit(base, log.slot.run.assembly) && Typed(base, world, log.slot)
    requires Grows(base, world) && ClaimsNamed(log.slot) && CommitAllowed(world, log.slot, id, outputs)
    ensures Typed(base, world, CommitUnit(log, id, outputs).slot)
  {
    var slot, slot' := log.slot, CommitUnit(log, id, outputs).slot;
    LatestGrowsTyped(base, world, slot, slot', id, outputs);
    CommitKeepsInputs(base, world, slot, slot');
  }

  lemma LatestGrowsTyped(base: World, world: World, slot: RunSlot, slot': RunSlot, id: WorkId,
                         outputs: seq<NamedArtifact>)
    requires BindingsFit(base, slot.run.assembly) && LatestTyped(base, world, slot) && Grows(base, world)
    requires id in slot.claimed && slot.claimed[id].node in slot.run.assembly.nodes
    requires CommitAllowed(world, slot, id, outputs)
    requires slot'.run.assembly == slot.run.assembly
    requires slot'.latest == slot.latest[slot.claimed[id].node.id := DerivationOf(slot.claimed[id], outputs)]
    ensures LatestTyped(base, world, slot')
  {
    forall n, port | n in slot'.latest && ArtifactNamed(slot'.latest[n].outputs, port).Some?
      ensures OutputTyped(base, world, slot', n, port)
    {
      if n == slot.claimed[id].node.id {
        CommittedFits(base, world, slot, id, outputs, port);
      } else {
        assert OutputTyped(base, world, slot, n, port);
      }
    }
  }

  lemma CommitKeepsInputs(base: World, world: World, slot: RunSlot, slot': RunSlot)
    requires RunInputsTyped(base, world, slot) && ClaimsTyped(base, world, slot)
    requires slot'.run.assembly == slot.run.assembly && slot'.run.inputs == slot.run.inputs
    requires forall id :: id in slot'.claimed ==> id in slot.claimed && slot'.claimed[id] == slot.claimed[id]
    ensures RunInputsTyped(base, world, slot') && ClaimsTyped(base, world, slot')
  {
  }

  lemma {:induction false} ReplacedInput(inputs: seq<NamedArtifact>, input: NamedArtifact, name: string)
    ensures ArtifactNamed(Replace(inputs, input), name)
         == if name == input.name then input.artifact else ArtifactNamed(inputs, name)
  {
    if inputs != [] && inputs[0].name != input.name {
      ReplacedInput(inputs[1..], input, name);
    }
  }

  lemma InjectTyped(base: World, world: World, slot: RunSlot, input: NamedArtifact)
    requires BindingsFit(base, slot.run.assembly) && Typed(base, world, slot)
    requires InjectionFits(base, slot.run.assembly.nodes, slot.run.assembly.bindings, Step(world, MInject(input)))
    ensures Typed(base, world, Inject(slot, input))
  {
    var slot' := Inject(slot, input);
    forall n, port | n in slot.latest && ArtifactNamed(slot.latest[n].outputs, port).Some?
      ensures OutputTyped(base, world, slot', n, port)
    {
      assert OutputTyped(base, world, slot, n, port);
    }
    forall b | b in slot.run.assembly.bindings && b.input != "" && ArtifactNamed(slot'.run.inputs, b.input).Some?
      ensures var port := InputPort(base.modules, slot.run.assembly.nodes, b.toNode, b.toPort);
        port.Some? && Carries(world.traits, ArtifactNamed(slot'.run.inputs, b.input).value, port.value.traits)
    {
      ReplacedInput(slot.run.inputs, input, b.input);
      var i :| 0 <= i < |slot.run.assembly.bindings| && slot.run.assembly.bindings[i] == b;
    }
  }

  /** The check `inject_input` does not make is the one typing needs: a run whose
    * inputs fit still fits after an injection exactly when the injected artifact
    * carries what every port bound to that input requires. */
  lemma InjectionTypedIff(base: World, world: World, slot: RunSlot, input: NamedArtifact)
    requires BindingsFit(base, slot.run.assembly) && RunInputsTyped(base, world, slot)
    requires input.name != "" && input.artifact.Some?
    ensures RunInputsTyped(base, world, Inject(slot, input))
       <==> InjectionFits(base, slot.run.assembly.nodes, slot.run.assembly.bindings, Step(world, MInject(input)))
  {
    var slot' := Inject(slot, input);
    forall b | b in slot.run.assembly.bindings && b.input != ""
      ensures ArtifactNamed(slot'.run.inputs, b.input)
           == if b.input == input.name then input.artifact else ArtifactNamed(slot.run.inputs, b.input)
    {
      ReplacedInput(slot.run.inputs, input, b.input);
    }
  }

  lemma OtherMovesTyped(base: World, world: World, log: RunLog, m: Move)
    requires Typed(base, world, log.slot) && Enabled(world, log.slot, m)
    requires m.MRenew? || m.MDrop? || m.MStall? || m.MCancel?
    ensures Typed(base, world, Apply(log, m).slot)
  {
    var slot, slot' := log.slot, Apply(log, m).slot;
    forall n, port | n in slot.latest && ArtifactNamed(slot.latest[n].outputs, port).Some?
      ensures OutputTyped(base, world, slot', n, port)
    {
      assert OutputTyped(base, world, slot, n, port);
    }
  }

  lemma TypedKept(base: World, world: World, log: RunLog, m: Move)
    requires BindingsFit(base, log.slot.run.assembly) && Typed(base, world, log.slot)
    requires Grows(base, world) && ClaimsNamed(log.slot) && Enabled(world, log.slot, m)
    requires InjectionFits(base, log.slot.run.assembly.nodes, log.slot.run.assembly.bindings, Step(world, m))
    ensures Typed(base, world, Apply(log, m).slot)
  {
    match m
    case MTake(c, at) => TakeTyped(base, world, log.slot, c, at);
    case MCommit(id, outputs) => CommitTyped(base, world, log, id, outputs);
    case MInject(input) => InjectTyped(base, world, log.slot, input);
    case _ => OtherMovesTyped(base, world, log, m);
  }

  lemma FreshTyped(base: World, log: RunLog)
    requires Fresh(log) && WellBound(base, log.slot.run.assembly, log.slot.run.inputs)
    ensures Typed(base, base, log.slot)
  {
    forall b | b in log.slot.run.assembly.bindings
      ensures BindingValid(base, log.slot.run.assembly.nodes, log.slot.run.inputs, b)
    {
    }
  }

  lemma TypedStep(base: World, log: RunLog, s: Step, later: World)
    requires BindingsFit(base, log.slot.run.assembly) && Typed(base, s.world, log.slot)
    requires Grows(base, s.world) && Grows(s.world, later) && ClaimsNamed(log.slot)
    requires Enabled(s.world, log.slot, s.move)
    requires InjectionFits(base, log.slot.run.assembly.nodes, log.slot.run.assembly.bindings, s)
    ensures Typed(base, later, Apply(log, s.move).slot)
  {
    TypedKept(base, s.world, log, s.move);
    TypedGrows(base, s.world, later, Apply(log, s.move).slot);
  }

  lemma GrowingPrefix(base: World, steps: seq<Step>, world: World)
    requires steps != [] && GrowingRun(base, steps, world)
    ensures var last := steps[|steps| - 1].world;
      GrowingRun(base, steps[..|steps| - 1], last) && Grows(base, last) && Grows(last, world)
  {
  }

  /** Typing in every run of a validated assembly whose injections fit: every
    * input of every claimed item carries all traits its port requires. */
  lemma {:induction false} AlwaysTyped(base: World, start: RunLog, steps: seq<Step>, world: World)
    requires Fresh(start) && WellBound(base, start.slot.run.assembly, start.slot.run.inputs)
    requires IsRun(start, steps) && GrowingRun(base, steps, world)
    requires forall i :: 0 <= i < |steps| ==>
      InjectionFits(base, start.slot.run.assembly.nodes, start.slot.run.assembly.bindings, steps[i])
    ensures Typed(base, world, RunSteps(start, steps).slot)
  {
    if steps == [] {
      FreshTyped(base, start);
      TypedGrows(base, base, world, start.slot);
    } else {
      var front, last := steps[..|steps| - 1], steps[|steps| - 1];
      GrowingPrefix(base, steps, world);
      AlwaysTyped(base, start, front, last.world);
      AlwaysSafe(start, front);
      FrozenRun(start, front);
      ValidFits(base, start.slot.run.assembly, start.slot.run.inputs);
      TypedStep(base, RunSteps(start, front), last, world);
    }
  }

  // ---------------------------------------------------------------- call by call

  ghost predicate CallFits(base: World, world: World, assembly: Assembly, call: RunCall) {
    call.RInject? ==> InjectionFits(base, assembly.nodes, assembly.bindings, Step(world, MInject(call.input)))
  }

  ghost predicate SafelyTyped(base: World, world: World, assembly: Assembly, slot: RunSlot) {
    Typed(base, world, slot) && Safe(slot) && slot.run.assembly == assembly
  }

  /** A call that injects nothing unfit keeps its run typed. */
  lemma ServeTyped(base: World, world: World, log: RunLog, call: RunCall)
    requires BindingsFit(base, log.slot.run.assembly) && Typed(base, world, log.slot) && Safe(log.slot)
    requires Grows(base, world) && Accepted(world, log, call) && CallFits(base, world, log.slot.run.assembly, call)
    ensures Typed(base, world, Serve(world, log, call).slot)
  {
    var assembly := log.slot.run.assembly;
    var inv := (l: RunLog) => SafelyTyped(base, world, assembly, l.slot);
    forall l: RunLog, m | inv(l) && Enabled(world, l.slot, m) && Makes(log.slot, call, l.slot, m)
      ensures inv(Apply(l, m))
    {
      TypedKept(base, world, l, m);
      SafetyKept(world, l, m);
      MoveFreezes(l, m);
    }
    ServeKeeps(inv, world, log, call);
  }
}
