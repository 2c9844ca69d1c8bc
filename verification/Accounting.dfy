/** The books of a run: steps, derivations and per-node commit counts agree,
  * no unit is committed twice, and the step bound is never overrun. */
module Accounting {
  import opened Base
  import opened Types
  import opened Scheduler
  import opened Moves
  import opened Safety

  function CommitsOf(derivations: seq<Derivation>, node: string): nat {
    if derivations == [] then 0
    else
      var last := derivations[|derivations| - 1];
      CommitsOf(derivations[..|derivations| - 1], node) + if last.node.id == node then 1 else 0
  }

  function LastOf(derivations: seq<Derivation>, node: string): (r: Option<Derivation>)
    ensures r.Some? ==> r.value in derivations && r.value.node.id == node
    ensures r.None? <==> forall i :: 0 <= i < |derivations| ==> derivations[i].node.id != node
  {
    if derivations == [] then None
    else
      var last := derivations[|derivations| - 1];
      if last.node.id == node then Some(last) else LastOf(derivations[..|derivations| - 1], node)
  }

  /** Commits recorded for the listed nodes together. */
  function CommitSum(counts: map<string, nat>, nodes: seq<AssemblyNode>): nat {
    if nodes == [] then 0 else Lookup(counts, nodes[0].id, 0) + CommitSum(counts, nodes[1..])
  }

  /** The slot's counters and latest derivations are read off the derivations. */
  ghost predicate Booked(log: RunLog) {
    && log.slot.run.steps == |log.derivations|
    && (forall n :: Lookup(log.slot.nodeCommits, n, 0) == CommitsOf(log.derivations, n))
    && (forall n :: n in log.slot.latest <==> LastOf(log.derivations, n).Some?)
    && (forall n :: n in log.slot.latest ==> LastOf(log.derivations, n) == Some(log.slot.latest[n]))
  }

  ghost predicate OfThisRun(slot: RunSlot, d: Derivation) {
    && d.work == WorkId(slot.run.id, d.work.unit) && d.work.unit in slot.doneUnits
    && d.work.unit.node == d.node.id && d.node in slot.run.assembly.nodes
  }

  ghost predicate CommittedOnce(log: RunLog) {
    && (forall i :: 0 <= i < |log.derivations| ==> OfThisRun(log.slot, log.derivations[i]))
    && (forall i, j :: 0 <= i < j < |log.derivations| ==> log.derivations[i].work != log.derivations[j].work)
  }

  ghost predicate StepsBounded(run: Run) {
    run.steps <= run.maxSteps && (run.state == Running ==> run.steps < run.maxSteps)
  }

  ghost predicate Accounted(log: RunLog) {
    Booked(log) && CommittedOnce(log) && StepsBounded(log.slot.run)
    && CommitSum(log.slot.nodeCommits, log.slot.run.assembly.nodes) == log.slot.run.steps
  }

  lemma LastGrows(derivations: seq<Derivation>, d: Derivation, n: string)
    ensures CommitsOf(derivations + [d], n) == CommitsOf(derivations, n) + if d.node.id == n then 1 else 0
    ensures LastOf(derivations + [d], n) == if d.node.id == n then Some(d) else LastOf(derivations, n)
  {
    assert (derivations + [d])[..|derivations|] == derivations;
  }

  lemma CommitShape(log: RunLog, id: WorkId, outputs: seq<NamedArtifact>)
    requires id in log.slot.claimed
    ensures var log', d := CommitUnit(log, id, outputs), DerivationOf(log.slot.claimed[id], outputs);
      var node := d.node.id;
      && log'.derivations == log.derivations + [d] && log'.slot.run.steps == log.slot.run.steps + 1
      && log'.slot.latest == log.slot.latest[node := d]
      && log'.slot.nodeCommits == log.slot.nodeCommits[node := Lookup(log.slot.nodeCommits, node, 0) + 1]
  {
  }

  lemma CommitBooked(log: RunLog, id: WorkId, outputs: seq<NamedArtifact>)
    requires Booked(log) && id in log.slot.claimed
    ensures Booked(CommitUnit(log, id, outputs))
  {
    hide CommitUnit, DerivationOf;
    var log' := CommitUnit(log, id, outputs);
    var d := DerivationOf(log.slot.claimed[id], outputs);
    CommitShape(log, id, outputs);
    forall n: string
      ensures CommitsOf(log'.derivations, n) == CommitsOf(log.derivations, n) + if d.node.id == n then 1 else 0
      ensures LastOf(log'.derivations, n) == if d.node.id == n then Some(d) else LastOf(log.derivations, n)
    {
      LastGrows(log.derivations, d, n);
    }
  }

  lemma CommitOnce(log: RunLog, id: WorkId, outputs: seq<NamedArtifact>)
    requires CommittedOnce(log) && Safe(log.slot) && id in log.slot.claimed
    ensures CommittedOnce(CommitUnit(log, id, outputs))
  {
    var log' := CommitUnit(log, id, outputs);
    var n := |log.derivations|;
    forall i | 0 <= i < n
      ensures OfThisRun(log'.slot, log'.derivations[i]) && log'.derivations[i].work != id
    {
      assert OfThisRun(log.slot, log.derivations[i]);
    }
    assert OfThisRun(log'.slot, log'.derivations[n]);
  }

  lemma {:induction false} CommitSumGrows(counts: map<string, nat>, nodes: seq<AssemblyNode>, n: AssemblyNode)
    requires DistinctNodeIds(nodes)
    ensures var counts' := counts[n.id := Lookup(counts, n.id, 0) + 1];
      CommitSum(counts', nodes) == CommitSum(counts, nodes) + if n.id in NodeIds(nodes) then 1 else 0
  {
    if nodes != [] {
      var tail := nodes[1..];
      forall i, j | 0 <= i < j < |tail|
        ensures tail[i].id != tail[j].id
      {
        assert tail[i] == nodes[i + 1] && tail[j] == nodes[j + 1];
      }
      CommitSumGrows(counts, tail, n);
      assert NodeIds(nodes) == {nodes[0].id} + NodeIds(tail) by {
        forall id | id in NodeIds(tail)
          ensures id in NodeIds(nodes)
        {
          var i :| 0 <= i < |tail| && tail[i].id == id;
          assert nodes[i + 1].id == id;
        }
        forall id | id in NodeIds(nodes) && id != nodes[0].id
          ensures id in NodeIds(tail)
        {
          var i :| 0 <= i < |nodes| && nodes[i].id == id;
          assert tail[i - 1].id == id;
        }
      }
      assert nodes[0].id !in NodeIds(tail) by {
        forall i | 0 <= i < |tail|
          ensures tail[i].id != nodes[0].id
        {
          assert tail[i] == nodes[i + 1];
        }
      }
    }
  }

  lemma CommitSummed(log: RunLog, id: WorkId, outputs: seq<NamedArtifact>)
    requires CommitSum(log.slot.nodeCommits, log.slot.run.assembly.nodes) == log.slot.run.steps
    requires id in log.slot.claimed && log.slot.claimed[id].node in log.slot.run.assembly.nodes
    requires DistinctNodeIds(log.slot.run.assembly.nodes)
    ensures var slot' := CommitUnit(log, id, outputs).slot;
      CommitSum(slot'.nodeCommits, slot'.run.assembly.nodes) == slot'.run.steps
  {
    var node := log.slot.claimed[id].node;
    CommitSumGrows(log.slot.nodeCommits, log.slot.run.assembly.nodes, node);
    assert node.id in NodeIds(log.slot.run.assembly.nodes);
  }

  lemma CommitAccounted(log: RunLog, id: WorkId, outputs: seq<NamedArtifact>)
    requires Accounted(log) && Safe(log.slot) && id in log.slot.claimed
    requires log.slot.run.state == Running && DistinctNodeIds(log.slot.run.assembly.nodes)
    ensures Accounted(CommitUnit(log, id, outputs))
  {
    hide Booked, CommittedOnce, CommitSum;
    CommitBooked(log, id, outputs);
    CommitOnce(log, id, outputs);
    CommitSummed(log, id, outputs);
    assert StepsBounded(CommitUnit(log, id, outputs).slot.run);
  }

  /** The books read only these parts of a log. */
  lemma AccountedFrame(log: RunLog, log': RunLog)
    requires Accounted(log) && log'.derivations == log.derivations
    requires log'.slot.run.id == log.slot.run.id && log'.slot.run.assembly == log.slot.run.assembly
    requires log'.slot.run.steps == log.slot.run.steps && log'.slot.run.maxSteps == log.slot.run.maxSteps
    requires log'.slot.run.state == Running ==> log.slot.run.state == Running
    requires log'.slot.nodeCommits == log.slot.nodeCommits && log'.slot.latest == log.slot.latest
    requires log.slot.doneUnits <= log'.slot.doneUnits
    ensures Accounted(log')
  {
    forall i | 0 <= i < |log'.derivations|
      ensures OfThisRun(log'.slot, log'.derivations[i])
    {
      assert OfThisRun(log.slot, log.derivations[i]);
    }
  }

  lemma AccountedKept(world: World, log: RunLog, m: Move)
    requires Accounted(log) && Safe(log.slot) && Enabled(world, log.slot, m)
    requires DistinctNodeIds(log.slot.run.assembly.nodes)
    ensures Accounted(Apply(log, m))
  {
    if m.MCommit? {
      CommitAccounted(log, m.id, m.outputs);
    } else {
      AccountedFrame(log, Apply(log, m));
    }
  }

  lemma {:induction false} NoCommitsYet(nodes: seq<AssemblyNode>)
    ensures CommitSum(map[], nodes) == 0
  {
    if nodes != [] {
      NoCommitsYet(nodes[1..]);
    }
  }

  /** The frozen parts of a run: identity, graph, limits and policy. */
  ghost predicate SameRun(slot: RunSlot, slot': RunSlot) {
    && slot'.run.id == slot.run.id && slot'.run.assembly == slot.run.assembly
    && slot'.run.maxSteps == slot.run.maxSteps && slot'.run.policy == slot.run.policy
    && slot'.maxInFlight == slot.maxInFlight && slot'.maxAttempts == slot.maxAttempts
    && slot'.defaultLeaseMs == slot.defaultLeaseMs
  }

  lemma MoveFreezes(log: RunLog, m: Move)
    ensures SameRun(log.slot, Apply(log, m).slot)
  {
  }

  lemma {:induction false} FrozenRun(start: RunLog, steps: seq<Step>)
    ensures SameRun(start.slot, RunSteps(start, steps).slot)
  {
    if steps != [] {
      var front := steps[..|steps| - 1];
      FrozenRun(start, front);
      MoveFreezes(RunSteps(start, front), steps[|steps| - 1].move);
    }
  }

  /** Commit accounting in every state of every run: steps, derivations and
    * commit counts agree, each unit is committed at most once, and a running
    * run has a step left. */
  lemma {:induction false} AlwaysAccounted(start: RunLog, steps: seq<Step>)
    requires Fresh(start) && IsRun(start, steps)
    ensures Accounted(RunSteps(start, steps))
  {
    if steps == [] {
      NoCommitsYet(start.slot.run.assembly.nodes);
    } else {
      var front, last := steps[..|steps| - 1], steps[|steps| - 1];
      AlwaysAccounted(start, front);
      AlwaysSafe(start, front);
      FrozenRun(start, front);
      AccountedKept(last.world, RunSteps(start, front), last.move);
    }
  }

  /** Under ONCE a node commits at most once; under ONCE_PER_KEY at most once
    * per key, because the key is the unit. */
  lemma OneCommitPerUnit(start: RunLog, steps: seq<Step>, i: nat, j: nat)
    requires Fresh(start) && IsRun(start, steps)
    requires i < |RunSteps(start, steps).derivations| && j < |RunSteps(start, steps).derivations|
    ensures var ds := RunSteps(start, steps).derivations;
      ds[i].work.unit == ds[j].work.unit ==> i == j
  {
    AlwaysAccounted(start, steps);
    var log := RunSteps(start, steps);
    assert OfThisRun(log.slot, log.derivations[i]) && OfThisRun(log.slot, log.derivations[j]);
  }

  /** The step guard inside `commit` never fires on a running run, so a commit
    * is refused only for the reasons it shares with the other SDKs. */
  lemma StepGuardIsDead(start: RunLog, steps: seq<Step>, world: World, id: WorkId, nodeId: string,
                        outputs: seq<NamedArtifact>)
    requires Fresh(start) && IsRun(start, steps) && RunSteps(start, steps).slot.run.state == Running
    ensures CommitFault(world, RunSteps(start, steps).slot, id, nodeId, outputs) != Some(RunClosed(Failed))
  {
    AlwaysAccounted(start, steps);
    var slot := RunSteps(start, steps).slot;
    if id in slot.claimed {
      var cap := CapabilityFor(world.modules, slot.claimed[id].node);
      if cap.Some? {
        FaultKinds(world.traits, cap.value, outputs);
      }
    }
  }

  lemma {:induction false} FaultKinds(traits: map<string, set<string>>, cap: Capability, outputs: seq<NamedArtifact>)
    ensures OutputFault(traits, cap, outputs) in {None, Some(NotFound), Some(Invalid)}
  {
    if outputs != [] {
      FaultKinds(traits, cap, outputs[1..]);
    }
  }
}
