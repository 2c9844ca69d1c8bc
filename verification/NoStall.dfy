/** No spurious stall: a converging run of a validated assembly, all of whose
  * nodes fire once, never stalls and never runs out of steps unless a unit
  * failed for good. It stays running, with work ready or in flight, until it
  * completes or is cancelled. */
module NoStall {
  import opened Base
  import opened Types
  import opened Scheduler
  import opened Moves
  import opened Safety
  import opened Accounting
  import opened Assemblies
  import opened Provenance

  // ---------------------------------------------------------------- the setting

  ghost predicate FiresOnce(base: World, run: Run) {
    forall n :: n in run.assembly.nodes ==>
      var cap := CapabilityFor(base.modules, n);
      cap.Some? && EffectiveFiring(run.policy, n.id, cap.value) == Once
  }

  /** A converging run: validated, not open, firing once, with a step per node. */
  ghost predicate Setting(base: World, rank: map<string, nat>, slot: RunSlot) {
    var run := slot.run;
    && WellBound(base, run.assembly, run.inputs) && IsRank(run.assembly.bindings, rank)
    && FiresOnce(base, run) && !IsOpen(run) && |run.assembly.nodes| <= run.maxSteps
  }

  /** The part of the setting that stays as it was frozen. */
  ghost predicate Frozen(base: World, rank: map<string, nat>, run: Run) {
    && DistinctNodeIds(run.assembly.nodes) && BindingsFit(base, run.assembly)
    && IsRank(run.assembly.bindings, rank) && TerminalValid(base.modules, run.assembly)
    && FiresOnce(base, run) && !IsOpen(run) && |run.assembly.nodes| <= run.maxSteps
  }

  /** Each node still resolves to the capability it was validated with. */
  ghost predicate Unambiguous(base: World, world: World, nodes: seq<AssemblyNode>) {
    forall n :: n in nodes ==> CapabilityFor(world.modules, n) == CapabilityFor(base.modules, n)
  }

  ghost predicate Supplies(assembly: Assembly, node: string, outputs: seq<NamedArtifact>) {
    && (forall b :: b in assembly.bindings && b.input == "" && b.fromNode == node ==>
          ArtifactNamed(outputs, b.fromPort).Some?)
    && (assembly.terminal.Some? && assembly.terminal.value.node == node ==>
          ArtifactNamed(outputs, assembly.terminal.value.port).Some?)
  }

  /** No unit fails for good, and commits supply every port somebody reads. */
  ghost predicate Cooperative(base: World, slot: RunSlot, s: Step) {
    && Unambiguous(base, s.world, slot.run.assembly.nodes)
    && (s.move.MDrop? && s.move.id in slot.claimed ==>
          !s.move.terminal && slot.claimed[s.move.id].attempt < slot.maxAttempts)
    && (s.move.MCommit? && s.move.id in slot.claimed ==>
          Supplies(slot.run.assembly, slot.claimed[s.move.id].node.id, s.move.outputs))
  }

  ghost predicate CooperativeRun(base: World, start: RunLog, steps: seq<Step>) {
    forall i :: 0 <= i < |steps| ==> Cooperative(base, RunSteps(start, steps[..i]).slot, steps[i])
  }

  // ---------------------------------------------------------------- the invariant

  /** Done units are exactly the committed nodes. */
  ghost predicate DoneIsCommitted(slot: RunSlot) {
    && (forall u :: u in slot.doneUnits ==> u.OnceUnit? && u.node in slot.latest)
    && (forall n :: n in slot.latest ==> OnceUnit(n) in slot.doneUnits)
    && (forall id :: id in slot.claimed ==> slot.claimed[id].unit.OnceUnit?)
  }

  ghost predicate LatestSupplies(slot: RunSlot) {
    forall n :: n in slot.latest ==>
      n in NodeIds(slot.run.assembly.nodes) && Supplies(slot.run.assembly, n, slot.latest[n].outputs)
  }

  ghost predicate InputsPresent(run: Run) {
    forall b :: b in run.assembly.bindings && b.input != "" ==> ArtifactNamed(run.inputs, b.input).Some?
  }

  ghost predicate NotFinished(slot: RunSlot) {
    && slot.run.state in {Running, Completed, Cancelled}
    && (slot.run.state == Running && slot.run.assembly.terminal.Some? ==>
          slot.run.assembly.terminal.value.node !in slot.latest)
    && slot.run.steps == |slot.latest.Keys|
  }

  ghost predicate Healthy(slot: RunSlot) {
    DoneIsCommitted(slot) && LatestSupplies(slot) && InputsPresent(slot.run) && NotFinished(slot)
  }

  // ---------------------------------------------------------------- something is ready

  lemma OnceKey(base: World, modules: seq<ModuleSlot>, slot: RunSlot, n: AssemblyNode)
    requires FiresOnce(base, slot.run) && n in slot.run.assembly.nodes
    requires CapabilityFor(modules, n) == CapabilityFor(base.modules, n)
    ensures var c := CurrentUnit(modules, slot, n); c.Some? ==> c.value.unit == OnceUnit(n.id)
    ensures ResolveInputs(slot, n).Some? ==> CurrentUnit(modules, slot, n).Some?
  {
  }

  /** An undone node is ready, or one of its ancestors is. */
  lemma {:induction false} SomeAncestorReady(base: World, rank: map<string, nat>, world: World, slot: RunSlot,
                                             n: AssemblyNode)
    returns (m: AssemblyNode)
    requires Frozen(base, rank, slot.run) && Unambiguous(base, world, slot.run.assembly.nodes)
    requires Healthy(slot) && slot.claimed == map[]
    requires n in slot.run.assembly.nodes && n.id !in slot.latest
    ensures m in slot.run.assembly.nodes && ReadyUnit(world.modules, slot, m).Some?
    decreases Lookup(rank, n.id, 0)
  {
    var bs := BoundTo(slot, n);
    if b :| b in bs && b.input == "" && b.fromNode !in slot.latest {
      var source := FindNode(slot.run.assembly.nodes, b.fromNode).value;
      var i :| 0 <= i < |slot.run.assembly.bindings| && slot.run.assembly.bindings[i] == b;
      m := SomeAncestorReady(base, rank, world, slot, source);
    } else {
      m := n;
      forall i | 0 <= i < |bs|
        ensures ResolveBinding(slot.run.inputs, slot.latest, bs[i]).Some?
      {
        assert bs[i] in bs;
        if bs[i].input == "" {
          assert Supplies(slot.run.assembly, bs[i].fromNode, slot.latest[bs[i].fromNode].outputs);
        }
      }
      OnceKey(base, world.modules, slot, n);
    }
  }

  lemma NeverShouldStall(base: World, rank: map<string, nat>, world: World, slot: RunSlot)
    requires Frozen(base, rank, slot.run) && Unambiguous(base, world, slot.run.assembly.nodes)
    requires Healthy(slot) && slot.run.state == Running
    ensures slot.claimed != map[] || AnyReady(world.modules, slot)
    ensures !ShouldStall(world.modules, slot)
  {
    if slot.claimed == map[] {
      var terminal := FindNode(slot.run.assembly.nodes, slot.run.assembly.terminal.value.node).value;
      var m := SomeAncestorReady(base, rank, world, slot, terminal);
      var i :| 0 <= i < |slot.run.assembly.nodes| && slot.run.assembly.nodes[i] == m;
      assert ReadyUnit(world.modules, slot, slot.run.assembly.nodes[i]).Some?;
    }
  }

  // ---------------------------------------------------------------- kept by every move

  lemma TakeHealthy(base: World, world: World, slot: RunSlot, c: Candidate, now: int)
    requires FiresOnce(base, slot.run) && Unambiguous(base, world, slot.run.assembly.nodes)
    requires Healthy(slot) && c.node in slot.run.assembly.nodes && IsReady(world.modules, slot, c)
    ensures Healthy(Take(slot, c, now))
  {
    OnceKey(base, world.modules, slot, c.node);
    assert c.unit == OnceUnit(c.node.id);
    TakeOnce(slot, c, now);
  }

  lemma TakeOnce(slot: RunSlot, c: Candidate, now: int)
    requires Healthy(slot) && c.unit.OnceUnit?
    ensures Healthy(Take(slot, c, now))
  {
  }

  lemma {:induction false} InputsStay(inputs: seq<NamedArtifact>, input: NamedArtifact, name: string)
    requires ArtifactNamed(inputs, name).Some? && input.artifact.Some?
    ensures ArtifactNamed(Replace(inputs, input), name).Some?
  {
    if inputs[0].name != input.name && inputs[0].name != name {
      InputsStay(inputs[1..], input, name);
    }
  }

  lemma InjectHealthy(slot: RunSlot, input: NamedArtifact)
    requires Healthy(slot) && input.artifact.Some?
    ensures Healthy(Inject(slot, input))
  {
    forall b | b in slot.run.assembly.bindings && b.input != ""
      ensures ArtifactNamed(Inject(slot, input).run.inputs, b.input).Some?
    {
      InputsStay(slot.run.inputs, input, b.input);
    }
  }

  /** Committed nodes other than the terminal leave a step over. */
  lemma StepLeft(nodes: seq<AssemblyNode>, done: set<string>, terminal: string)
    requires DistinctNodeIds(nodes) && done <= NodeIds(nodes)
    requires terminal in NodeIds(nodes) && terminal !in done
    ensures |done| < |nodes|
  {
    var ids := seq(|nodes|, i requires 0 <= i < |nodes| => nodes[i].id);
    DistinctCardinality(ids);
    forall id | id in NodeIds(nodes)
      ensures id in ids
    {
      var i :| 0 <= i < |nodes| && nodes[i].id == id;
      assert ids[i] == id;
    }
    SubsetCardinality(done + {terminal}, set id | id in ids);
  }

  lemma CommitDone(log: RunLog, id: WorkId, outputs: seq<NamedArtifact>)
    requires DoneIsCommitted(log.slot) && ClaimsNamed(log.slot) && id in log.slot.claimed
    ensures DoneIsCommitted(CommitUnit(log, id, outputs).slot)
  {
    var item := log.slot.claimed[id];
    assert item.unit == OnceUnit(item.node.id);
  }

  lemma CommitSupplies(log: RunLog, id: WorkId, outputs: seq<NamedArtifact>)
    requires LatestSupplies(log.slot) && ClaimsNamed(log.slot) && id in log.slot.claimed
    requires Supplies(log.slot.run.assembly, log.slot.claimed[id].node.id, outputs)
    ensures LatestSupplies(CommitUnit(log, id, outputs).slot)
  {
    var node := log.slot.claimed[id].node;
    var i :| 0 <= i < |log.slot.run.assembly.nodes| && log.slot.run.assembly.nodes[i] == node;
    assert node.id in NodeIds(log.slot.run.assembly.nodes);
  }

  lemma StepRemains(base: World, run: Run, done: set<string>)
    requires DistinctNodeIds(run.assembly.nodes) && TerminalValid(base.modules, run.assembly)
    requires |run.assembly.nodes| <= run.maxSteps
    requires done <= NodeIds(run.assembly.nodes) && run.assembly.terminal.value.node !in done
    ensures |done| < run.maxSteps
  {
    var t := FindNode(run.assembly.nodes, run.assembly.terminal.value.node).value;
    var i :| 0 <= i < |run.assembly.nodes| && run.assembly.nodes[i] == t;
    StepLeft(run.assembly.nodes, done, t.id);
  }

  /** One more committed node: the terminal completes the run, any other leaves
    * a step over. */
  lemma AdvanceFinishes(base: World, run: Run, node: string, outputs: seq<NamedArtifact>, done: set<string>)
    requires DistinctNodeIds(run.assembly.nodes) && TerminalValid(base.modules, run.assembly)
    requires |run.assembly.nodes| <= run.maxSteps && !IsOpen(run)
    requires run.state == Running && run.steps == |done| && node !in done
    requires done + {node} <= NodeIds(run.assembly.nodes)
    requires run.assembly.terminal.value.node !in done
    requires run.assembly.terminal.value.node == node ==>
      ArtifactNamed(outputs, run.assembly.terminal.value.port).Some?
    ensures var run' := Advance(run, node, outputs);
      && run'.steps == |done + {node}|
      && run'.state == if run.assembly.terminal.value.node == node then Completed else Running
  {
    if run.assembly.terminal.value.node != node {
      StepRemains(base, run, done + {node});
    }
  }

  lemma CommitAdvances(base: World, log: RunLog, id: WorkId, outputs: seq<NamedArtifact>)
    requires DistinctNodeIds(log.slot.run.assembly.nodes) && TerminalValid(base.modules, log.slot.run.assembly)
    requires |log.slot.run.assembly.nodes| <= log.slot.run.maxSteps && !IsOpen(log.slot.run)
    requires NotFinished(log.slot) && log.slot.run.state == Running
    requires id in log.slot.claimed && log.slot.claimed[id].node.id !in log.slot.latest
    requires CommitUnit(log, id, outputs).slot.latest.Keys <= NodeIds(log.slot.run.assembly.nodes)
    requires Supplies(log.slot.run.assembly, log.slot.claimed[id].node.id, outputs)
    ensures NotFinished(CommitUnit(log, id, outputs).slot)
  {
    var slot, slot' := log.slot, CommitUnit(log, id, outputs).slot;
    var node := slot.claimed[id].node.id;
    assert slot'.latest.Keys == slot.latest.Keys + {node};
    AdvanceFinishes(base, slot.run, node, outputs, slot.latest.Keys);
  }

  lemma NotYetCommitted(slot: RunSlot, id: WorkId)
    requires DoneIsCommitted(slot) && ClaimsNamed(slot) && ClaimsNotDone(slot) && id in slot.claimed
    ensures slot.claimed[id].node.id !in slot.latest
  {
    assert slot.claimed[id].unit == OnceUnit(slot.claimed[id].node.id);
  }

  lemma LatestKnown(slot: RunSlot)
    requires LatestSupplies(slot)
    ensures slot.latest.Keys <= NodeIds(slot.run.assembly.nodes)
  {
  }

  lemma CommitLeavesInputs(log: RunLog, id: WorkId, outputs: seq<NamedArtifact>)
    requires InputsPresent(log.slot.run) && id in log.slot.claimed
    ensures InputsPresent(CommitUnit(log, id, outputs).slot.run)
    ensures CommitUnit(log, id, outputs).slot.run.assembly == log.slot.run.assembly
  {
  }

  lemma CommitHealthy(base: World, rank: map<string, nat>, log: RunLog, id: WorkId, outputs: seq<NamedArtifact>)
    requires Frozen(base, rank, log.slot.run) && Healthy(log.slot) && log.slot.run.state == Running
    requires ClaimsNamed(log.slot) && ClaimsNotDone(log.slot) && id in log.slot.claimed
    requires Supplies(log.slot.run.assembly, log.slot.claimed[id].node.id, outputs)
    ensures Healthy(CommitUnit(log, id, outputs).slot)
  {
    hide DoneIsCommitted, ClaimsNamed, ClaimsNotDone, Supplies, NotFinished, LatestSupplies, InputsPresent, CommitUnit;
    NotYetCommitted(log.slot, id);
    CommitDone(log, id, outputs);
    CommitSupplies(log, id, outputs);
    CommitLeavesInputs(log, id, outputs);
    LatestKnown(CommitUnit(log, id, outputs).slot);
    CommitAdvances(base, log, id, outputs);
  }

  lemma QuietMovesHealthy(slot: RunSlot, slot': RunSlot)
    requires Healthy(slot)
    requires slot'.doneUnits == slot.doneUnits && slot'.latest == slot.latest
    requires slot'.run == slot.run || slot'.run == slot.run.(state := Cancelled, reason := "cancelled")
    requires forall id :: id in slot'.claimed ==> id in slot.claimed && slot'.claimed[id].unit == slot.claimed[id].unit
    ensures Healthy(slot')
  {
  }

  lemma QuietStepHealthy(log: RunLog, m: Move)
    requires Healthy(log.slot) && (m.MRenew? || m.MCancel? || m.MDrop?)
    requires m.MDrop? && m.id in log.slot.claimed ==>
      !m.terminal && log.slot.claimed[m.id].attempt < log.slot.maxAttempts
    ensures Healthy(Apply(log, m).slot)
  {
    QuietMovesHealthy(log.slot, Apply(log, m).slot);
  }

  lemma HealthKept(base: World, rank: map<string, nat>, log: RunLog, s: Step)
    requires Frozen(base, rank, log.slot.run) && Healthy(log.slot) && Safe(log.slot)
    requires Enabled(s.world, log.slot, s.move) && Cooperative(base, log.slot, s)
    ensures Healthy(Apply(log, s.move).slot)
  {
    match s.move
    case MTake(c, now) => TakeHealthy(base, s.world, log.slot, c, now);
    case MInject(input) => InjectHealthy(log.slot, input);
    case MCommit(id, outputs) => CommitHealthy(base, rank, log, id, outputs);
    case MStall => NeverShouldStall(base, rank, s.world, log.slot);
    case _ => QuietStepHealthy(log, s.move);
  }

  lemma StaysFrozen(base: World, rank: map<string, nat>, slot: RunSlot, slot': RunSlot)
    requires Frozen(base, rank, slot.run) && SameRun(slot, slot')
    ensures Frozen(base, rank, slot'.run)
  {
  }

  lemma HealthyStep(base: World, rank: map<string, nat>, log: RunLog, s: Step)
    requires Frozen(base, rank, log.slot.run) && Healthy(log.slot) && Safe(log.slot)
    requires Enabled(s.world, log.slot, s.move) && Cooperative(base, log.slot, s)
    ensures Healthy(Apply(log, s.move).slot) && Frozen(base, rank, Apply(log, s.move).slot.run)
  {
    HealthKept(base, rank, log, s);
    MoveFreezes(log, s.move);
    StaysFrozen(base, rank, log.slot, Apply(log, s.move).slot);
  }

  lemma StartHealthy(base: World, rank: map<string, nat>, start: RunLog)
    requires Fresh(start) && Setting(base, rank, start.slot)
    ensures Healthy(start.slot) && Frozen(base, rank, start.slot.run)
  {
    ValidFits(base, start.slot.run.assembly, start.slot.run.inputs);
    forall b | b in start.slot.run.assembly.bindings && b.input != ""
      ensures ArtifactNamed(start.slot.run.inputs, b.input).Some?
    {
      assert BindingValid(base, start.slot.run.assembly.nodes, start.slot.run.inputs, b);
    }
  }

  lemma CooperativePrefix(base: World, start: RunLog, steps: seq<Step>)
    requires steps != [] && CooperativeRun(base, start, steps)
    ensures var n := |steps| - 1;
      CooperativeRun(base, start, steps[..n]) && Cooperative(base, RunSteps(start, steps[..n]).slot, steps[n])
  {
    var front := steps[..|steps| - 1];
    forall i | 0 <= i < |front|
      ensures Cooperative(base, RunSteps(start, front[..i]).slot, front[i])
    {
      assert front[..i] == steps[..i];
    }
  }

  lemma {:induction false} AlwaysHealthy(base: World, rank: map<string, nat>, start: RunLog, steps: seq<Step>)
    requires Fresh(start) && Setting(base, rank, start.slot)
    requires IsRun(start, steps) && CooperativeRun(base, start, steps)
    ensures Healthy(RunSteps(start, steps).slot) && Frozen(base, rank, RunSteps(start, steps).slot.run)
  {
    if steps == [] {
      StartHealthy(base, rank, start);
    } else {
      var n := |steps| - 1;
      var front := steps[..n];
      CooperativePrefix(base, start, steps);
      AlwaysHealthy(base, rank, start, front);
      AlwaysSafe(start, front);
      HealthyStep(base, rank, RunSteps(start, front), steps[n]);
    }
  }

  /** The run is never stalled or failed, and while it runs some unit is ready
    * or in somebody's hands. */
  lemma NeverSpuriouslyStalled(base: World, rank: map<string, nat>, start: RunLog, steps: seq<Step>, world: World)
    requires Fresh(start) && Setting(base, rank, start.slot)
    requires IsRun(start, steps) && CooperativeRun(base, start, steps)
    requires Unambiguous(base, world, start.slot.run.assembly.nodes)
    ensures var slot := RunSteps(start, steps).slot;
      && slot.run.state in {Running, Completed, Cancelled}
      && (slot.run.state == Running ==> slot.claimed != map[] || AnyReady(world.modules, slot))
  {
    AlwaysHealthy(base, rank, start, steps);
    FrozenRun(start, steps);
    if RunSteps(start, steps).slot.run.state == Running {
      NeverShouldStall(base, rank, world, RunSteps(start, steps).slot);
    }
  }

  // ---------------------------------------------------------------- call by call

  /** No lease is reaped at its last attempt, no unit is failed for good, and a
    * commit supplies every port somebody reads. */
  ghost predicate CallCooperates(slot: RunSlot, call: RunCall) {
    && (forall id :: id in ReapedBy(slot, call) && id in slot.claimed ==> slot.claimed[id].attempt < slot.maxAttempts)
    && (call.RFail? ==>
          !call.terminal && (call.id in slot.claimed ==> slot.claimed[call.id].attempt < slot.maxAttempts))
    && (call.RCommit? && call.id in slot.claimed ==>
          Supplies(slot.run.assembly, slot.claimed[call.id].node.id, call.outputs))
  }

  ghost predicate SafelyHealthy(base: World, rank: map<string, nat>, assembly: Assembly, slot: RunSlot) {
    Frozen(base, rank, slot.run) && Healthy(slot) && Safe(slot) && slot.run.assembly == assembly
  }

  lemma MovesCooperate(base: World, world: World, slot: RunSlot, call: RunCall, slot': RunSlot, m: Move)
    requires CallCooperates(slot, call) && Makes(slot, call, slot', m)
    requires Unambiguous(base, world, slot.run.assembly.nodes) && slot'.run.assembly == slot.run.assembly
    ensures Cooperative(base, slot', Step(world, m))
  {
    if (m.MDrop? || m.MCommit?) && m.id in slot'.claimed {
      assert slot'.claimed[m.id].(leaseUntil := 0) == slot.claimed[m.id].(leaseUntil := 0);
    }
  }

  /** A cooperating call keeps its run healthy. */
  lemma ServeHealthy(base: World, rank: map<string, nat>, world: World, log: RunLog, call: RunCall)
    requires Frozen(base, rank, log.slot.run) && Healthy(log.slot) && Safe(log.slot)
    requires Accepted(world, log, call) && CallCooperates(log.slot, call)
    requires Unambiguous(base, world, log.slot.run.assembly.nodes)
    ensures Healthy(Serve(world, log, call).slot) && Frozen(base, rank, Serve(world, log, call).slot.run)
  {
    var assembly := log.slot.run.assembly;
    var inv := (l: RunLog) => SafelyHealthy(base, rank, assembly, l.slot);
    forall l: RunLog, m | inv(l) && Enabled(world, l.slot, m) && Makes(log.slot, call, l.slot, m)
      ensures inv(Apply(l, m))
    {
      MovesCooperate(base, world, log.slot, call, l.slot, m);
      HealthyStep(base, rank, l, Step(world, m));
      SafetyKept(world, l, m);
      MoveFreezes(l, m);
    }
    ServeKeeps(inv, world, log, call);
  }
}
