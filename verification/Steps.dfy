/** What a host knows of its plugins and keeps in its memo store, and how both
  * relate to what is committed. */
module Steps {
  import opened Base
  import opened Types
  import opened Strings
  import opened Scheduler
  import opened Moves
  import opened Safety
  import opened Accounting
  import opened Assemblies
  import opened Provenance
  import opened NoStall
  import opened Integrity
  import opened KernelRuns
  import opened Evaluator
  import opened Memo
  import opened Driving

  /** One output of a plugin: its port, its content address and its contracts. */
  datatype StepArtifact = StepArtifact(port: string, id: string, traits: set<string>)

  /** A plugin computes from the step's key alone; none is a failed step. */
  datatype Plugin = Plugin(digest: string, execute: MemoKey -> Option<seq<StepArtifact>>)

  datatype MemoRecord = MemoRecord(
    key: MemoKey, nodeId: string, outputs: map<string, string>, sourceRun: string, sourceWork: WorkId)

  function NamedOf(outs: seq<StepArtifact>): (r: seq<NamedArtifact>)
    ensures |r| == |outs| && forall i :: 0 <= i < |r| ==> r[i] == NamedArtifact(outs[i].port, Some(outs[i].id))
  {
    if outs == [] then [] else [NamedArtifact(outs[0].port, Some(outs[0].id))] + NamedOf(outs[1..])
  }

  /** What a step sees on its ports: the last artifact of each name. */
  function StepInputs(items: seq<NamedArtifact>): map<string, string> {
    if items == [] then map[]
    else
      var front, last := StepInputs(items[..|items| - 1]), items[|items| - 1];
      if last.artifact.Some? then front[last.name := last.artifact.value] else front
  }

  /** The memo key leaves nothing out that the step sees. */
  lemma {:induction false} KeySeesAll(items: seq<NamedArtifact>)
    requires Filled(items)
    ensures PortMap(items) == StepInputs(items)
  {
    if items != [] {
      KeySeesAll(items[..|items| - 1]);
    }
  }

  function KeyFor(digest: string, w: WorkItem): MemoKey {
    MemoKey(w.node.mod, w.node.version, digest, w.node.capability, PortMap(w.inputs))
  }

  /** What the step hands to the plugin. */
  function StepFor(digest: string, node: AssemblyNode, inputs: seq<NamedArtifact>): MemoKey {
    MemoKey(node.mod, node.version, digest, node.capability, StepInputs(inputs))
  }

  type Plugins = map<string, Plugin>

  /** What executing a node on these inputs produces. */
  function Outcome(plugins: Plugins, node: AssemblyNode, inputs: seq<NamedArtifact>): Option<seq<StepArtifact>> {
    if node.mod in plugins then plugins[node.mod].execute(StepFor(plugins[node.mod].digest, node, inputs)) else None
  }

  function Execution(plugins: Plugins, w: WorkItem): Option<seq<StepArtifact>> {
    Outcome(plugins, w.node, w.inputs)
  }

  /** First write of an address wins. */
  function Put(world: World, o: StepArtifact): World {
    if o.id in world.traits then world else world.(traits := world.traits[o.id := o.traits])
  }

  lemma PutGrows(world: World, o: StepArtifact)
    ensures Grows(world, Put(world, o))
  {
  }

  // ---------------------------------------------------------------- the memo store is sound

  ghost predicate RecordSound(plugins: Plugins, key: MemoKey, record: MemoRecord) {
    && record.key == key && key.mod in plugins && key.digest == plugins[key.mod].digest
    && var result := plugins[key.mod].execute(key);
    && result.Some? && Filled(NamedOf(result.value)) && record.outputs == PortMap(NamedOf(result.value))
  }

  /** Every record holds what executing its unit produces. */
  ghost predicate MemoSound(plugins: Plugins, memo: map<MemoKey, MemoRecord>) {
    forall key :: key in memo ==> RecordSound(plugins, key, memo[key])
  }

  /** A hit commits, port for port, the last outputs of the execution it saves. */
  lemma HitIsExecution(plugins: Plugins, memo: map<MemoKey, MemoRecord>, w: WorkItem)
    requires MemoSound(plugins, memo) && Filled(w.inputs) && w.node.mod in plugins
    requires KeyFor(plugins[w.node.mod].digest, w) in memo
    ensures Execution(plugins, w).Some? && Filled(NamedOf(Execution(plugins, w).value))
    ensures RecordOutputs(memo[KeyFor(plugins[w.node.mod].digest, w)].outputs)
         == HitOutputs(NamedOf(Execution(plugins, w).value))
  {
    KeySeesAll(w.inputs);
    var key := KeyFor(plugins[w.node.mod].digest, w);
    assert RecordSound(plugins, key, memo[key]);
  }

  /** The outputs are those of an execution, or of a hit on it. */
  ghost predicate AsExecuted(plugins: Plugins, node: AssemblyNode, inputs: seq<NamedArtifact>,
                             outputs: seq<NamedArtifact>) {
    var result := Outcome(plugins, node, inputs);
    && result.Some?
    && (outputs == NamedOf(result.value)
        || (Filled(NamedOf(result.value)) && outputs == HitOutputs(NamedOf(result.value))))
  }

  /** The plugins give each node of the assembly one artifact per output name,
    * or the same one first and last. */
  ghost predicate SingleValued(plugins: Plugins, assembly: Assembly) {
    forall node, inputs :: node in assembly.nodes && Outcome(plugins, node, inputs).Some? ==>
      FirstIsLast(NamedOf(Outcome(plugins, node, inputs).value))
  }

  ghost predicate NamesDiffer(outs: seq<StepArtifact>) {
    forall i, j :: 0 <= i < j < |outs| ==> outs[i].port != outs[j].port
  }

  /** Distinct output names are enough. */
  lemma DistinctIsSingleValued(plugins: Plugins, assembly: Assembly)
    requires forall node, inputs :: node in assembly.nodes && Outcome(plugins, node, inputs).Some? ==>
      NamesDiffer(Outcome(plugins, node, inputs).value)
    ensures SingleValued(plugins, assembly)
  {
    forall node, inputs | node in assembly.nodes && Outcome(plugins, node, inputs).Some?
      ensures FirstIsLast(NamedOf(Outcome(plugins, node, inputs).value))
    {
      var outs := Outcome(plugins, node, inputs).value;
      assert NamesDiffer(outs);
      DistinctFirstIsLast(NamedOf(outs));
    }
  }

  /** What one unit commits with a memo store and without supplies the same
    * artifact on every port. */
  lemma UnitTransparent(plugins: Plugins, assembly: Assembly, node: AssemblyNode, inputs: seq<NamedArtifact>,
                        outputs: seq<NamedArtifact>)
    requires SingleValued(plugins, assembly) && node in assembly.nodes && AsExecuted(plugins, node, inputs, outputs)
    ensures SamePorts(outputs, NamedOf(Outcome(plugins, node, inputs).value))
  {
    var executed := NamedOf(Outcome(plugins, node, inputs).value);
    if outputs != executed {
      HitIsTransparent(executed);
    }
  }

  // ---------------------------------------------------------------- what the plugins mean

  /** What the plugins make of a node: the behaviour a pipeline of theirs has. */
  function Produced(plugins: Plugins, node: AssemblyNode, inputs: seq<NamedArtifact>): seq<NamedArtifact> {
    var outs := Outcome(plugins, node, inputs);
    if outs.Some? then NamedOf(outs.value) else []
  }

  /** The program that the pipeline is, run with these plugins. */
  function ProgramOf(plugins: Plugins, assembly: Assembly, inputs: seq<NamedArtifact>,
                     rank: map<string, nat>): Program {
    Program(assembly, inputs, (n: AssemblyNode, items: seq<NamedArtifact>) => Produced(plugins, n, items), rank)
  }

  /** The program's nodes behave as their plugins do. */
  ghost predicate Means(p: Program, plugins: Plugins) {
    forall n, items :: p.f(n, items) == Produced(plugins, n, items)
  }

  lemma ProgramMeans(plugins: Plugins, assembly: Assembly, inputs: seq<NamedArtifact>, rank: map<string, nat>)
    ensures Means(ProgramOf(plugins, assembly, inputs, rank), plugins)
  {
  }

  // ---------------------------------------------------------------- genuine runs

  lemma {:induction false} PortNamed(ports: seq<Port>, name: string)
    requires PortsTyped(ports) && FindPort(ports, name).Some?
    ensures name != ""
  {
  }

  ghost predicate BindingsNamed(base: World, assembly: Assembly) {
    && (forall i :: 0 <= i < |assembly.nodes| ==> NodeValid(base.modules, assembly.nodes[i]))
    && forall b :: b in assembly.bindings ==> b.toPort != ""
  }

  lemma ValidNamed(base: World, assembly: Assembly, inputs: seq<NamedArtifact>)
    requires WellBound(base, assembly, inputs)
    ensures BindingsNamed(base, assembly)
  {
    forall b | b in assembly.bindings
      ensures b.toPort != ""
    {
      assert BindingValid(base, assembly.nodes, inputs, b);
      var n := FindNode(assembly.nodes, b.toNode).value;
      assert NodeValid(base.modules, n);
      PortNamed(CapabilityFor(base.modules, n).value.inputs, b.toPort);
    }
  }

  /** What the drive loop uses of a genuine run. */
  ghost predicate Driveable(base: World, world: World, r: string, log: RunLog) {
    && Safe(log.slot) && Accounted(log) && Referenced(world, log) && AllSourced(log)
    && log.slot.run.id == r && DistinctNodeIds(log.slot.run.assembly.nodes)
    && Grows(base, world) && BindingsNamed(base, log.slot.run.assembly)
  }

  lemma GenuineDriveable(world: World, r: string, log: RunLog) returns (base: World)
    requires Genuine(world, r, log)
    ensures Driveable(base, world, r, log)
  {
    var b: World, start: RunLog :| Origin(world, r, log, b, start);
    base := b;
    OriginSound(world, r, log, base, start);
    var steps: seq<Step> :| Leads(FromBase(base), world, start, steps, log);
    AlwaysReferenced(base, start, steps, world);
    FrozenRun(start, steps);
    ValidNamed(base, start.slot.run.assembly, start.slot.run.inputs);
  }

  /** Claimed inputs have names and artifacts. */
  lemma ClaimsFilled(world: World, r: string, log: RunLog)
    requires Genuine(world, r, log) && "" !in world.traits
    ensures forall id :: id in log.slot.claimed ==> Filled(log.slot.claimed[id].inputs)
  {
    var base := GenuineDriveable(world, r, log);
    forall id | id in log.slot.claimed
      ensures Filled(log.slot.claimed[id].inputs)
    {
      var w := log.slot.claimed[id];
      var bs := BindingsTo(log.slot.run.assembly.bindings, w.node.id);
      assert Sourced(log.slot.run.assembly.bindings, log.derivations, |log.derivations|, w.node, w.inputs);
      assert ItemsStored(world.traits, w.inputs);
      forall i | 0 <= i < |w.inputs|
        ensures w.inputs[i].name != "" && w.inputs[i].artifact.Some? && w.inputs[i].artifact.value != ""
      {
        assert bs[i] in bs;
      }
    }
  }

  lemma FittingFilled(traits: map<string, set<string>>, cap: Capability, outputs: seq<NamedArtifact>)
    requires PortsTyped(cap.outputs) && "" !in traits && OutputFault(traits, cap, outputs).None?
    ensures Filled(outputs)
  {
    forall i | 0 <= i < |outputs|
      ensures outputs[i].name != "" && outputs[i].artifact.Some? && outputs[i].artifact.value != ""
    {
      assert FitsPort(traits, cap.outputs, outputs[i]);
      PortNamed(cap.outputs, outputs[i].name);
    }
  }

  lemma ClaimedCapability(base: World, world: World, r: string, log: RunLog, id: WorkId)
    requires Driveable(base, world, r, log) && id in log.slot.claimed
    requires CapabilityFor(world.modules, log.slot.claimed[id].node).Some?
    ensures PortsTyped(CapabilityFor(world.modules, log.slot.claimed[id].node).value.outputs)
  {
    var node := log.slot.claimed[id].node;
    var k :| 0 <= k < |log.slot.run.assembly.nodes| && log.slot.run.assembly.nodes[k] == node;
    assert NodeValid(base.modules, log.slot.run.assembly.nodes[k]);
    CapabilityStable(base, world, node);
  }

  lemma FaultFree(world: World, slot: RunSlot, id: WorkId, nodeId: string, outputs: seq<NamedArtifact>)
    requires id in slot.claimed && CommitFault(world, slot, id, nodeId, outputs).None?
    ensures var cap := CapabilityFor(world.modules, slot.claimed[id].node);
      cap.Some? && OutputFault(world.traits, cap.value, outputs).None?
  {
  }

  /** Outputs a commit accepts have names and artifacts. */
  lemma CommittedFilled(base: World, world: World, r: string, log: RunLog, id: WorkId, nodeId: string,
                        outputs: seq<NamedArtifact>)
    requires Driveable(base, world, r, log) && "" !in world.traits && id in log.slot.claimed
    requires CommitFault(world, log.slot, id, nodeId, outputs).None?
    ensures Filled(outputs)
  {
    FaultFree(world, log.slot, id, nodeId, outputs);
    ClaimedCapability(base, world, r, log, id);
    FittingFilled(world.traits, CapabilityFor(world.modules, log.slot.claimed[id].node).value, outputs);
  }

  // ---------------------------------------------------------------- reliable plugins

  /** The run's validation, its rank and what every address stands for. */
  datatype Target = Target(base: World, rank: map<string, nat>, contentOf: string -> set<string>)

  /** An address determines its contents: no hash collision is in play. */
  ghost predicate AddressesHonest(t: Target, world: World) {
    forall id :: id in world.traits ==> world.traits[id] == t.contentOf(id)
  }

  ghost predicate GoodStep(t: Target, accepts: StepArtifact -> bool, assembly: Assembly, n: AssemblyNode,
                           outs: seq<StepArtifact>) {
    var cap := CapabilityFor(t.base.modules, n);
    && cap.Some? && ArityFits(cap.value.outputs, NamedOf(outs)) && Filled(NamedOf(outs))
    && Supplies(assembly, n.id, NamedOf(outs))
    && forall i :: 0 <= i < |outs| ==> GoodOutput(t, accepts, cap.value, outs[i])
  }

  ghost predicate GoodOutput(t: Target, accepts: StepArtifact -> bool, cap: Capability, o: StepArtifact) {
    var p := FindPort(cap.outputs, o.port);
    accepts(o) && o.traits == t.contentOf(o.id) && p.Some? && forall c :: c in p.value.traits ==> c in o.traits
  }

  /** Total plugins with valid outputs: whatever a node of the assembly is given,
    * its plugin produces outputs that fit the node's ports. */
  ghost predicate Reliable(t: Target, plugins: Plugins, accepts: StepArtifact -> bool, assembly: Assembly) {
    forall w: WorkItem :: w.node in assembly.nodes ==>
      w.node.mod in plugins && Execution(plugins, w).Some?
      && GoodStep(t, accepts, assembly, w.node, Execution(plugins, w).value)
  }

  ghost predicate AllStored(world: World, outs: seq<StepArtifact>) {
    forall i :: 0 <= i < |outs| ==> outs[i].id in world.traits
  }

  lemma {:induction false} StoredOutputsFit(t: Target, accepts: StepArtifact -> bool, world: World, cap: Capability,
                                            outs: seq<StepArtifact>)
    requires AddressesHonest(t, world) && AllStored(world, outs)
    requires forall i :: 0 <= i < |outs| ==> GoodOutput(t, accepts, cap, outs[i])
    ensures OutputFault(world.traits, cap, NamedOf(outs)).None?
  {
    var outputs := NamedOf(outs);
    forall i | 0 <= i < |outputs|
      ensures FitsPort(world.traits, cap.outputs, outputs[i])
    {
      assert GoodOutput(t, accepts, cap, outs[i]);
      var p := FindPort(cap.outputs, outs[i].port).value;
      forall k | 0 <= k < |p.traits|
        ensures p.traits[k] in world.traits[outs[i].id]
      {
        assert p.traits[k] in p.traits;
      }
    }
  }

  /** Executed outputs let the run go on, once they are stored. */
  lemma ExecutedGood(t: Target, plugins: Plugins, accepts: StepArtifact -> bool, world: World, slot: RunSlot,
                     w: WorkItem)
    requires Reliable(t, plugins, accepts, slot.run.assembly) && w.node in slot.run.assembly.nodes
    requires AddressesHonest(t, world) && Unambiguous(t.base, world, slot.run.assembly.nodes)
    requires AllStored(world, Execution(plugins, w).value)
    ensures GoodOutputs(world, slot, w, NamedOf(Execution(plugins, w).value))
  {
    assert GoodStep(t, accepts, slot.run.assembly, w.node, Execution(plugins, w).value);
    var cap := CapabilityFor(t.base.modules, w.node).value;
    StoredOutputsFit(t, accepts, world, cap, Execution(plugins, w).value);
  }

  lemma HitSupplies(assembly: Assembly, node: string, outputs: seq<NamedArtifact>)
    requires Filled(outputs) && Supplies(assembly, node, outputs)
    ensures Supplies(assembly, node, HitOutputs(outputs))
  {
    forall port
      ensures ArtifactNamed(outputs, port).Some? ==> ArtifactNamed(HitOutputs(outputs), port).Some?
    {
      HitPort(outputs, port);
      FirstIffLast(outputs, port);
    }
  }

  /** So do the outputs of a hit whose artifacts are all stored. */
  lemma HitGood(t: Target, plugins: Plugins, accepts: StepArtifact -> bool, world: World, slot: RunSlot, w: WorkItem)
    requires Reliable(t, plugins, accepts, slot.run.assembly) && w.node in slot.run.assembly.nodes
    requires AddressesHonest(t, world) && Unambiguous(t.base, world, slot.run.assembly.nodes)
    requires ItemsStored(world.traits, HitOutputs(NamedOf(Execution(plugins, w).value)))
    ensures GoodOutputs(world, slot, w, HitOutputs(NamedOf(Execution(plugins, w).value)))
  {
    var outs := Execution(plugins, w).value;
    var outputs := NamedOf(outs);
    assert GoodStep(t, accepts, slot.run.assembly, w.node, outs);
    var cap := CapabilityFor(t.base.modules, w.node).value;
    HitSupplies(slot.run.assembly, w.node.id, outputs);
    HitFits(t, accepts, world, cap, outs);
  }

  lemma {:induction false} HitFits(t: Target, accepts: StepArtifact -> bool, world: World, cap: Capability,
                                   outs: seq<StepArtifact>)
    requires AddressesHonest(t, world) && Filled(NamedOf(outs)) && ArityFits(cap.outputs, NamedOf(outs))
    requires forall i :: 0 <= i < |outs| ==> GoodOutput(t, accepts, cap, outs[i])
    requires ItemsStored(world.traits, HitOutputs(NamedOf(outs)))
    ensures ArityFits(cap.outputs, HitOutputs(NamedOf(outs)))
    ensures OutputFault(world.traits, cap, HitOutputs(NamedOf(outs))).None?
  {
    var outputs, hit := NamedOf(outs), HitOutputs(NamedOf(outs));
    forall i | 0 <= i < |cap.outputs|
      ensures var n := CountNamed(hit, cap.outputs[i].name);
        (n == 0 ==> cap.outputs[i].optional) && (n > 1 ==> cap.outputs[i].multiple)
    {
      HitCounts(outputs, cap.outputs[i].name);
    }
    forall i | 0 <= i < |hit|
      ensures FitsPort(world.traits, cap.outputs, hit[i])
    {
      HitAmong(outputs, i);
      var j :| 0 <= j < |outputs| && outputs[j] == hit[i];
      assert GoodOutput(t, accepts, cap, outs[j]);
      var p := FindPort(cap.outputs, outs[j].port).value;
      assert forall k :: 0 <= k < |p.traits| ==> p.traits[k] in p.traits;
    }
  }

  /** A hit commits some of the outputs that were recorded. */
  lemma HitAmong(outputs: seq<NamedArtifact>, i: nat)
    requires Filled(outputs) && i < |HitOutputs(outputs)|
    ensures HitOutputs(outputs)[i] in outputs
  {
    var port := Listing(PortMap(outputs).Keys)[i];
    PortMapIsLast(outputs, port);
    FirstIffLast(outputs, port);
  }
}
