/** The cut keeps validity: given typed seeds, the kernel accepts the cut of any
  * assembly it accepts; so a resumption is never refused as invalid. */
module CutValidity {
  import opened Base
  import opened Types
  import opened Strings
  import opened Scheduler
  import opened Moves
  import opened Safety
  import opened Accounting
  import opened Assemblies
  import opened Provenance
  import opened NoStall
  import opened Integrity
  import opened KernelRuns
  import opened Cut
  import opened Materialization
  import opened Seeds
  import opened CutMeaning
  import opened Resumption
  import Validation

  // ---------------------------------------------------------------- any cut

  /** Every crossing port has a seed that carries the port's traits. */
  ghost predicate SeedsTyped(base: World, world: World, assembly: Assembly, kept: set<string>,
                             inputs: seq<NamedArtifact>) {
    forall b :: b in assembly.bindings && Crosses(kept, b) ==> SeedTyped(base, world, assembly, inputs, b)
  }

  ghost predicate SeedTyped(base: World, world: World, assembly: Assembly, inputs: seq<NamedArtifact>, b: Binding) {
    var seed := ArtifactNamed(inputs, SeedName(b.fromNode, b.fromPort));
    var source := OutputPort(base.modules, assembly.nodes, b.fromNode, b.fromPort);
    source.Some? && seed.Some? && Carries(world.traits, seed.value, source.value.traits)
  }

  /** The run inputs that kept nodes read are as they were. */
  ghost predicate InputsKept(assembly: Assembly, kept: set<string>, inputs: seq<NamedArtifact>,
                             inputs': seq<NamedArtifact>) {
    forall b :: b in assembly.bindings && b.toNode in kept && b.input != "" ==>
      ArtifactNamed(inputs', b.input) == ArtifactNamed(inputs, b.input)
  }

  /** Kept nodes have the ports they had when the assembly was validated. */
  lemma KeptPorts(base: World, world: World, nodes: seq<AssemblyNode>, kept: set<string>, node: string, port: string)
    requires Unambiguous(base, world, nodes) && node in kept
    ensures InputPort(world.modules, NodesIn(nodes, kept), node, port) == InputPort(base.modules, nodes, node, port)
    ensures OutputPort(world.modules, NodesIn(nodes, kept), node, port) == OutputPort(base.modules, nodes, node, port)
  {
    FindKept(nodes, kept, node);
    if FindNode(nodes, node).Some? {
      assert FindNode(nodes, node).value in nodes;
    }
  }

  lemma CoveredCarries(traits: map<string, set<string>>, artifact: string, have: seq<string>, need: seq<string>)
    requires Carries(traits, artifact, have) && Covers(have, need)
    ensures Carries(traits, artifact, need)
  {
    forall i | 0 <= i < |need|
      ensures need[i] in traits[artifact]
    {
      var j :| 0 <= j < |have| && have[j] == need[i];
    }
  }

  lemma CutBindingValid(base: World, world: World, assembly: Assembly, inputs: seq<NamedArtifact>, kept: set<string>,
                        inputs': seq<NamedArtifact>, b: Binding)
    requires BindingValid(base, assembly.nodes, inputs, b) && Grows(base, world)
    requires Unambiguous(base, world, assembly.nodes)
    requires b.toNode in kept && (b.input != "" ==> ArtifactNamed(inputs', b.input) == ArtifactNamed(inputs, b.input))
    requires Crosses(kept, b) ==> SeedTyped(base, world, assembly, inputs', b)
    ensures BindingValid(world, NodesIn(assembly.nodes, kept), inputs', CutBinding(kept, b))
  {
    KeptPorts(base, world, assembly.nodes, kept, b.toNode, b.toPort);
    var target := InputPort(base.modules, assembly.nodes, b.toNode, b.toPort).value;
    if b.input != "" {
      CarriesStable(base, world, ArtifactNamed(inputs, b.input).value, target.traits);
    } else if b.fromNode in kept {
      KeptPorts(base, world, assembly.nodes, kept, b.fromNode, b.fromPort);
    } else {
      var source := OutputPort(base.modules, assembly.nodes, b.fromNode, b.fromPort).value;
      CoveredCarries(world.traits, ArtifactNamed(inputs', SeedName(b.fromNode, b.fromPort)).value, source.traits,
                     target.traits);
    }
  }

  lemma {:induction false} KeptCount(bindings: seq<Binding>, kept: set<string>, node: string, port: string)
    requires node in kept
    ensures BindingCount(CutBindings(bindings, kept), node, port) == BindingCount(bindings, node, port)
  {
    if bindings != [] {
      var front, last := bindings[..|bindings| - 1], bindings[|bindings| - 1];
      KeptCount(front, kept, node, port);
      assert bindings == front + [last];
      Validation.CountAppended(front, last, node, port);
      if last.toNode in kept {
        Validation.CountAppended(CutBindings(front, kept), CutBinding(kept, last), node, port);
      } else {
        assert CutBindings(front, kept) + [] == CutBindings(front, kept);
      }
    }
  }

  lemma {:induction false} KeptDistinct(nodes: seq<AssemblyNode>, kept: set<string>)
    requires DistinctNodeIds(nodes)
    ensures DistinctNodeIds(NodesIn(nodes, kept))
  {
    if nodes != [] {
      var tail := nodes[1..];
      forall i, j | 0 <= i < j < |tail|
        ensures tail[i].id != tail[j].id
      {
        assert tail[i] == nodes[i + 1] && tail[j] == nodes[j + 1];
      }
      KeptDistinct(tail, kept);
      forall n | n in NodesIn(tail, kept)
        ensures n.id != nodes[0].id
      {
        var i :| 0 <= i < |tail| && tail[i] == n;
        assert tail[i] == nodes[i + 1];
      }
    }
  }

  lemma CutArityValid(base: World, world: World, assembly: Assembly, kept: set<string>, n: AssemblyNode)
    requires ArityValid(base.modules, assembly.bindings, n) && n.id in kept
    requires CapabilityFor(world.modules, n) == CapabilityFor(base.modules, n)
    ensures ArityValid(world.modules, CutBindings(assembly.bindings, kept), n)
  {
    var cap := CapabilityFor(base.modules, n).value;
    forall i | 0 <= i < |cap.inputs|
      ensures BindingCount(CutBindings(assembly.bindings, kept), n.id, cap.inputs[i].name)
           == BindingCount(assembly.bindings, n.id, cap.inputs[i].name)
    {
      KeptCount(assembly.bindings, kept, n.id, cap.inputs[i].name);
    }
  }

  lemma CutNodeValid(base: World, world: World, assembly: Assembly, inputs: seq<NamedArtifact>, kept: set<string>,
                     n: AssemblyNode)
    requires WellBound(base, assembly, inputs) && Unambiguous(base, world, assembly.nodes)
    requires n in NodesIn(assembly.nodes, kept)
    ensures NodeValid(world.modules, n) && ArityValid(world.modules, CutBindings(assembly.bindings, kept), n)
  {
    var i :| 0 <= i < |assembly.nodes| && assembly.nodes[i] == n;
    assert NodeValid(base.modules, assembly.nodes[i]) && ArityValid(base.modules, assembly.bindings, assembly.nodes[i]);
    CutArityValid(base, world, assembly, kept, n);
  }

  lemma CutGraph(base: World, world: World, assembly: Assembly, inputs: seq<NamedArtifact>, kept: set<string>)
    requires WellBound(base, assembly, inputs) && Unambiguous(base, world, assembly.nodes)
    requires assembly.terminal.value.node in kept
    ensures var nodes := NodesIn(assembly.nodes, kept);
      && nodes != [] && DistinctNodeIds(nodes)
      && TerminalValid(world.modules, assembly.(nodes := nodes, bindings := CutBindings(assembly.bindings, kept)))
      && forall i :: 0 <= i < |nodes| ==>
           NodeValid(world.modules, nodes[i])
           && ArityValid(world.modules, CutBindings(assembly.bindings, kept), nodes[i])
  {
    var nodes := NodesIn(assembly.nodes, kept);
    KeptDistinct(assembly.nodes, kept);
    KeptPorts(base, world, assembly.nodes, kept, assembly.terminal.value.node, assembly.terminal.value.port);
    forall i | 0 <= i < |nodes|
      ensures NodeValid(world.modules, nodes[i])
      ensures ArityValid(world.modules, CutBindings(assembly.bindings, kept), nodes[i])
    {
      CutNodeValid(base, world, assembly, inputs, kept, nodes[i]);
    }
  }

  lemma CutBindingsValid(base: World, world: World, assembly: Assembly, inputs: seq<NamedArtifact>, kept: set<string>,
                         inputs': seq<NamedArtifact>)
    requires WellBound(base, assembly, inputs) && Grows(base, world) && Unambiguous(base, world, assembly.nodes)
    requires InputsKept(assembly, kept, inputs, inputs') && SeedsTyped(base, world, assembly, kept, inputs')
    ensures forall c :: c in CutBindings(assembly.bindings, kept) ==>
      BindingValid(world, NodesIn(assembly.nodes, kept), inputs', c)
  {
    forall c | c in CutBindings(assembly.bindings, kept)
      ensures BindingValid(world, NodesIn(assembly.nodes, kept), inputs', c)
    {
      CutFrom(assembly.bindings, kept, c);
      var b :| b in assembly.bindings && b.toNode in kept && c == CutBinding(kept, b);
      CutBindingValid(base, world, assembly, inputs, kept, inputs', b);
    }
  }

  lemma WellBoundFrom(world: World, a: Assembly, inputs: seq<NamedArtifact>)
    requires a.id != "" && a.nodes != [] && DistinctNodeIds(a.nodes) && TerminalValid(world.modules, a)
    requires InputsValid(world.traits, inputs)
    requires forall i :: 0 <= i < |a.nodes| ==>
      NodeValid(world.modules, a.nodes[i]) && ArityValid(world.modules, a.bindings, a.nodes[i])
    requires forall b :: b in a.bindings ==> BindingValid(world, a.nodes, inputs, b)
    ensures WellBound(world, a, inputs)
  {
  }

  lemma PartialCutValid(base: World, world: World, assembly: Assembly, inputs: seq<NamedArtifact>, kept: set<string>,
                        inputs': seq<NamedArtifact>)
    requires WellBound(base, assembly, inputs) && Grows(base, world) && Unambiguous(base, world, assembly.nodes)
    requires assembly.terminal.value.node in kept && InputsValid(world.traits, inputs')
    requires InputsKept(assembly, kept, inputs, inputs') && SeedsTyped(base, world, assembly, kept, inputs')
    ensures WellBound(world, PartialCut(assembly, kept).assembly, inputs')
  {
    CutGraph(base, world, assembly, inputs, kept);
    CutBindingsValid(base, world, assembly, inputs, kept, inputs');
    WellBoundFrom(world, PartialCut(assembly, kept).assembly, inputs');
  }

  lemma CutAcyclic(bindings: seq<Binding>, kept: set<string>)
    requires Acyclic(bindings)
    ensures Acyclic(CutBindings(bindings, kept))
  {
    var rank: map<string, nat> :| IsRank(bindings, rank);
    CutRanked(bindings, kept, rank);
  }

  /** For every validated assembly, accepted plan and typed seeds, the kernel
    * accepts the cut, now or after the registry has grown. */
  lemma CutKeepsValidity(base: World, world: World, assembly: Assembly, inputs: seq<NamedArtifact>, plan: NodePlan,
                         inputs': seq<NamedArtifact>)
    requires ValidAssembly(base, assembly, inputs) && Grows(base, world) && Unambiguous(base, world, assembly.nodes)
    requires CutFor(assembly, plan).Some? && InputsValid(world.traits, inputs')
    requires var kept := KeptFor(assembly, plan).value;
      InputsKept(assembly, kept, inputs, inputs') && SeedsTyped(base, world, assembly, kept, inputs')
    ensures ValidAssembly(world, CutFor(assembly, plan).value.assembly, inputs')
  {
    var kept := KeptFor(assembly, plan).value;
    WellBoundEnds(base, assembly, inputs);
    CutIsPartial(assembly, plan);
    TerminalKept(assembly, plan);
    PartialCutValid(base, world, assembly, inputs, kept, inputs');
    CutAcyclic(assembly.bindings, kept);
  }

  // ---------------------------------------------------------------- a resumption

  /** Every dropped node has committed, and on every port a kept node reads. */
  ghost predicate FrontierCommitted(slot: RunSlot, kept: set<string>) {
    && (forall id :: id in NodeIds(slot.run.assembly.nodes) - kept ==> id in slot.latest)
    && (forall b :: b in slot.run.assembly.bindings && Crosses(kept, b) && b.fromNode in slot.latest ==>
          ArtifactNamed(slot.latest[b.fromNode].outputs, b.fromPort).Some?)
  }

  lemma {:induction false} OutputsCollected(node: string, outputs: seq<NamedArtifact>, acc: seq<NamedArtifact>)
    requires forall i :: 0 <= i < |outputs| ==> outputs[i].artifact.Some?
    ensures AddOutputs(node, outputs, acc).Some?
    decreases |outputs|
  {
    if outputs != [] {
      var name := SeedName(node, outputs[0].name);
      OutputsCollected(node, outputs[1..],
                       if outputs[0].name == "" || FirstNamed(acc, name).Some? then acc
                       else acc + [NamedArtifact(name, outputs[0].artifact)]);
    }
  }

  /** All artifacts of the outputs are stored. */
  lemma {:induction false} SeedsCollected(traits: map<string, set<string>>, nodes: seq<string>, ds: seq<Derivation>,
                                          acc: seq<NamedArtifact>)
    requires DerivationsStored(traits, ds) && ItemsStored(traits, acc) && NamesFilled(acc)
    requires forall i :: 0 <= i < |nodes| ==> LastOf(ds, nodes[i]).Some?
    ensures var r := AddNodes(nodes, ds, acc);
      r.Some? && ItemsStored(traits, r.value) && NamesFilled(r.value)
    decreases |nodes|
  {
    if nodes != [] {
      var last := LastOf(ds, nodes[0]).value;
      var i :| 0 <= i < |ds| && ds[i] == last;
      assert ItemsStored(traits, ds[i].outputs);
      OutputsCollected(nodes[0], last.outputs, acc);
      OutputsStay(traits, nodes[0], last.outputs, acc);
      SeedsCollected(traits, nodes[1..], ds, AddOutputs(nodes[0], last.outputs, acc).value);
    }
  }

  ghost predicate NamesFilled(items: seq<NamedArtifact>) {
    forall i :: 0 <= i < |items| ==> items[i].name != ""
  }

  lemma {:induction false} OutputsStay(traits: map<string, set<string>>, node: string, outputs: seq<NamedArtifact>,
                                       acc: seq<NamedArtifact>)
    requires ItemsStored(traits, outputs) && ItemsStored(traits, acc) && NamesFilled(acc)
    requires AddOutputs(node, outputs, acc).Some?
    ensures ItemsStored(traits, AddOutputs(node, outputs, acc).value)
    ensures NamesFilled(AddOutputs(node, outputs, acc).value)
    decreases |outputs|
  {
    if outputs != [] {
      var name := SeedName(node, outputs[0].name);
      SeedNamesAreSeeds(node, outputs[0].name);
      OutputsStay(traits, node, outputs[1..],
                  if outputs[0].name == "" || FirstNamed(acc, name).Some? then acc
                  else acc + [NamedArtifact(name, outputs[0].artifact)]);
    }
  }

  lemma MergedValid(traits: map<string, set<string>>, base: seq<NamedArtifact>, seeds: seq<NamedArtifact>)
    requires ItemsStored(traits, base) && NamesFilled(base) && ItemsStored(traits, seeds) && NamesFilled(seeds)
    ensures InputsValid(traits, Merged(base, seeds))
  {
    MergedFinds(base, seeds, "");
    var inputs := Merged(base, seeds);
    forall i | 0 <= i < |inputs|
      ensures inputs[i].name != "" && inputs[i].artifact.Some? && inputs[i].artifact.value in traits
    {
      assert inputs[i] in base || inputs[i] in seeds;
    }
  }

  /** What a prior run has to look like: started whole from a validated assembly,
    * nothing injected, in a registry that kept its coordinates unambiguous. */
  ghost predicate WholeRun(base: World, start: RunLog, steps: seq<Step>, world: World) {
    var run := start.slot.run;
    && Fresh(start) && ValidAssembly(base, run.assembly, run.inputs)
    && SlashFree(run.assembly.nodes) && NoSeedInputs(run.inputs)
    && IsRun(start, steps) && GrowingRun(base, steps, world) && AllOk(FromBase(base), start, steps)
    && Unambiguous(base, world, run.assembly.nodes)
    && forall i :: 0 <= i < |steps| ==> !steps[i].move.MInject?
  }

  lemma {:induction false} InputsAsStarted(start: RunLog, steps: seq<Step>)
    requires forall i :: 0 <= i < |steps| ==> !steps[i].move.MInject?
    ensures RunSteps(start, steps).slot.run.inputs == start.slot.run.inputs
  {
    if steps != [] {
      InputsAsStarted(start, steps[..|steps| - 1]);
    }
  }

  /** The facts about the prior run that the resumption rests on. */
  ghost predicate Resumable(base: World, world: World, log: RunLog) {
    var run := log.slot.run;
    && ValidAssembly(base, run.assembly, run.inputs) && Grows(base, world)
    && Unambiguous(base, world, run.assembly.nodes)
    && SlashFree(run.assembly.nodes) && NoSeedInputs(run.inputs)
    && Referenced(world, log) && LatestTyped(base, world, log.slot) && Booked(log)
  }

  lemma WholeRunResumable(base: World, start: RunLog, steps: seq<Step>, world: World)
    requires WholeRun(base, start, steps, world)
    ensures Resumable(base, world, RunSteps(start, steps))
  {
    InputsAsStarted(start, steps);
    FrozenRun(start, steps);
    AlwaysReferenced(base, start, steps, world);
    AlwaysTyped(base, start, steps, world);
    AlwaysAccounted(start, steps);
  }

  lemma SeedsAvailable(base: World, world: World, log: RunLog, kept: set<string>)
    requires Resumable(base, world, log) && FrontierCommitted(log.slot, kept)
    ensures var seeds := SeedsOf(log.derivations, NodeIds(log.slot.run.assembly.nodes) - kept);
      seeds.Some? && ItemsStored(world.traits, seeds.value) && NamesFilled(seeds.value)
  {
    var dropped := NodeIds(log.slot.run.assembly.nodes) - kept;
    var nodes := Listing(dropped);
    forall i | 0 <= i < |nodes|
      ensures LastOf(log.derivations, nodes[i]).Some?
    {
      assert nodes[i] in dropped;
    }
    SeedsCollected(world.traits, nodes, log.derivations, []);
  }

  lemma CrossingSeeded(base: World, world: World, log: RunLog, kept: set<string>, b: Binding)
    requires Resumable(base, world, log) && FrontierCommitted(log.slot, kept)
    requires b in log.slot.run.assembly.bindings && Crosses(kept, b)
    requires SeedsOf(log.derivations, NodeIds(log.slot.run.assembly.nodes) - kept).Some?
    ensures SeedTyped(base, world, log.slot.run.assembly,
                      Merged(log.slot.run.inputs,
                             SeedsOf(log.derivations, NodeIds(log.slot.run.assembly.nodes) - kept).value), b)
  {
    var run := log.slot.run;
    UpstreamPortNamed(base, run.assembly, run.inputs, b);
    KnownNode(run.assembly.nodes, b.fromNode);
    SeedValue(log.derivations, NodeIds(run.assembly.nodes) - kept, run.inputs, b.fromNode, b.fromPort);
    assert b.fromNode in log.slot.latest;
    assert LastOf(log.derivations, b.fromNode) == Some(log.slot.latest[b.fromNode]);
    assert OutputTyped(base, world, log.slot, b.fromNode, b.fromPort);
  }

  /** Over the merged inputs: all that the cut's validity needs. */
  lemma ResumedInputsValid(base: World, world: World, log: RunLog, kept: set<string>)
    requires Resumable(base, world, log) && FrontierCommitted(log.slot, kept)
    ensures var run := log.slot.run;
      var seeds := SeedsOf(log.derivations, NodeIds(run.assembly.nodes) - kept);
      && seeds.Some?
      && InputsValid(world.traits, Merged(run.inputs, seeds.value))
      && InputsKept(run.assembly, kept, run.inputs, Merged(run.inputs, seeds.value))
      && SeedsTyped(base, world, run.assembly, kept, Merged(run.inputs, seeds.value))
  {
    var run := log.slot.run;
    SeedsAvailable(base, world, log, kept);
    var dropped := NodeIds(run.assembly.nodes) - kept;
    var seeds := SeedsOf(log.derivations, dropped).value;
    MergedValid(world.traits, run.inputs, seeds);
    forall b | b in run.assembly.bindings && b.toNode in kept && b.input != ""
      ensures ArtifactNamed(Merged(run.inputs, seeds), b.input) == ArtifactNamed(run.inputs, b.input)
    {
      RunInputNamed(base, run.assembly, run.inputs, b);
      InputValue(log.derivations, dropped, run.inputs, b.input);
    }
    forall b | b in run.assembly.bindings && Crosses(kept, b)
      ensures SeedTyped(base, world, run.assembly, Merged(run.inputs, seeds), b)
    {
      CrossingSeeded(base, world, log, kept, b);
    }
  }

  lemma NoneMissing(base: World, world: World, assembly: Assembly, kept: set<string>, inputs: seq<NamedArtifact>)
    requires SeedsTyped(base, world, assembly, kept, inputs) && InputsValid(world.traits, inputs)
    ensures SeedsPresent(PartialCut(assembly, kept), inputs)
  {
    var seeds := CutSeeds(assembly.bindings, kept);
    SeedsExact(assembly.bindings, kept);
    forall i | 0 <= i < |seeds|
      ensures SeedProvided(inputs, SeedName(seeds[i].fromNode, seeds[i].fromPort))
    {
      assert FromCrossing(assembly.bindings, kept, seeds[i]);
      var j :| 0 <= j < |assembly.bindings| && Crosses(kept, assembly.bindings[j])
               && SeedOf(assembly.bindings[j]) == seeds[i];
      assert SeedTyped(base, world, assembly, inputs, assembly.bindings[j]);
      OneEachFirstIsLast(inputs, SeedName(seeds[i].fromNode, seeds[i].fromPort));
    }
  }

  lemma ResumedIs(log: RunLog, after: string)
    requires DistinctNodeIds(log.slot.run.assembly.nodes) && NoSeedInputs(log.slot.run.inputs)
    requires CutFor(log.slot.run.assembly, PlanAfter(after)).Some?
    requires var assembly := log.slot.run.assembly;
      var kept := KeptFor(assembly, PlanAfter(after)).value;
      var seeds := SeedsOf(log.derivations, NodeIds(assembly.nodes) - kept);
      seeds.Some? && SeedsPresent(PartialCut(assembly, kept), Merged(log.slot.run.inputs, seeds.value))
    ensures ResumedStart(log, after).Some?
  {
    DroppedNodes(log.slot.run.assembly, after);
    AllNonSeed(log.slot.run.inputs);
  }

  lemma ResumableAccepted(base: World, world: World, log: RunLog, after: string)
    requires Resumable(base, world, log) && CutFor(log.slot.run.assembly, PlanAfter(after)).Some?
    requires FrontierCommitted(log.slot, KeptFor(log.slot.run.assembly, PlanAfter(after)).value)
    ensures var resumed := ResumedStart(log, after);
      resumed.Some? && ValidAssembly(world, resumed.value.assembly, resumed.value.inputs)
  {
    var assembly := log.slot.run.assembly;
    var kept := KeptFor(assembly, PlanAfter(after)).value;
    ResumedInputsValid(base, world, log, kept);
    var inputs := Merged(log.slot.run.inputs, SeedsOf(log.derivations, NodeIds(assembly.nodes) - kept).value);
    NoneMissing(base, world, assembly, kept, inputs);
    ResumedIs(log, after);
    ResumedParts(log, after);
    WellBoundEnds(base, assembly, log.slot.run.inputs);
    CutIsPartial(assembly, PlanAfter(after));
    CutKeepsValidity(base, world, assembly, log.slot.run.inputs, PlanAfter(after), inputs);
  }

  /** Resuming after a node of a whole, injection-free run whose dropped nodes
    * have committed what kept nodes read: the framework accepts it, and the
    * kernel finds nothing wrong with what it is asked to start. */
  lemma ResumeNeverRefused(base: World, start: RunLog, steps: seq<Step>, world: World, after: string)
    requires WholeRun(base, start, steps, world) && CutFor(start.slot.run.assembly, PlanAfter(after)).Some?
    requires FrontierCommitted(RunSteps(start, steps).slot, KeptFor(start.slot.run.assembly, PlanAfter(after)).value)
    ensures var resumed := ResumedStart(RunSteps(start, steps), after);
      resumed.Some? && ValidAssembly(world, resumed.value.assembly, resumed.value.inputs)
  {
    FrozenRun(start, steps);
    WholeRunResumable(base, start, steps, world);
    ResumableAccepted(base, world, RunSteps(start, steps), after);
  }
}
