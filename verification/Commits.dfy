/** Which commits are accepted, said of the outputs themselves: by their places in
  * the list, their names, and what is stored under their artifacts. */
module Commits {
  import opened Base
  import opened Types
  import opened Scheduler
  import opened Moves
  import opened Safety
  import opened Accounting
  import opened Assemblies
  import opened Kernel
  import opened KernelRuns

  // ---------------------------------------------------------------- outputs and ports

  /** Every port that is not optional has an output, and only ports marked
    * `multiple` have two. */
  ghost predicate PortsServed(ports: seq<Port>, outputs: seq<NamedArtifact>) {
    forall p :: 0 <= p < |ports| ==>
      && (ports[p].optional || exists i :: 0 <= i < |outputs| && outputs[i].name == ports[p].name)
      && (ports[p].multiple
          || forall i, j :: 0 <= i < j < |outputs| ==> !(outputs[i].name == ports[p].name == outputs[j].name))
  }

  /** The output is declared, and a stored artifact with all the port's traits. */
  ghost predicate OutputGood(traits: map<string, set<string>>, ports: seq<Port>, o: NamedArtifact) {
    && o.artifact.Some? && o.artifact.value in traits
    && exists p :: 0 <= p < |ports| && ports[p].name == o.name && (forall q :: 0 <= q < p ==> ports[q].name != o.name)
                   && forall t :: t in ports[p].traits ==> t in traits[o.artifact.value]
  }

  lemma {:induction false} CountIsNone(items: seq<NamedArtifact>, name: string)
    ensures CountNamed(items, name) == 0 <==> forall i :: 0 <= i < |items| ==> items[i].name != name
  {
    if items != [] {
      CountIsNone(items[1..], name);
      assert items == [items[0]] + items[1..];
    }
  }

  lemma {:induction false} CountIsMany(items: seq<NamedArtifact>, name: string)
    ensures CountNamed(items, name) > 1
       <==> exists i, j :: 0 <= i < j < |items| && items[i].name == name == items[j].name
  {
    if items != [] {
      var rest := items[1..];
      CountIsMany(rest, name);
      CountIsNone(rest, name);
      if i, j :| 0 <= i < j < |rest| && rest[i].name == name == rest[j].name {
        assert items[i + 1].name == name == items[j + 1].name;
      }
      if items[0].name == name && CountNamed(rest, name) > 0 {
        var j :| 0 <= j < |rest| && rest[j].name == name;
        assert items[0].name == name == items[j + 1].name;
      }
      if i, j :| 0 <= i < j < |items| && items[i].name == name == items[j].name {
        assert rest[j - 1].name == name;
        assert i > 0 ==> rest[i - 1].name == name;
      }
    }
  }

  lemma ArityIsServed(ports: seq<Port>, outputs: seq<NamedArtifact>)
    ensures ArityFits(ports, outputs) <==> PortsServed(ports, outputs)
  {
    forall p | 0 <= p < |ports|
      ensures CountNamed(outputs, ports[p].name) == 0
         <==> forall i :: 0 <= i < |outputs| ==> outputs[i].name != ports[p].name
      ensures CountNamed(outputs, ports[p].name) > 1
         <==> exists i, j :: 0 <= i < j < |outputs| && outputs[i].name == ports[p].name == outputs[j].name
    {
      CountIsNone(outputs, ports[p].name);
      CountIsMany(outputs, ports[p].name);
    }
  }

  lemma {:induction false} FoundFirst(ports: seq<Port>, name: string, p: nat)
    requires p < |ports| && ports[p].name == name && forall q :: 0 <= q < p ==> ports[q].name != name
    ensures FindPort(ports, name) == Some(ports[p])
  {
    if p > 0 {
      assert ports[0].name != name;
      FoundFirst(ports[1..], name, p - 1);
    }
  }

  lemma {:induction false} SomeFirst(ports: seq<Port>, name: string) returns (p: nat)
    requires FindPort(ports, name).Some?
    ensures p < |ports| && ports[p].name == name && forall q :: 0 <= q < p ==> ports[q].name != name
  {
    p := 0;
    if ports[0].name != name {
      var rest := SomeFirst(ports[1..], name);
      p := rest + 1;
      forall q | 0 <= q < p
        ensures ports[q].name != name
      {
        assert q > 0 ==> ports[1..][q - 1].name != name;
      }
    }
  }

  lemma FitsIsGood(traits: map<string, set<string>>, ports: seq<Port>, o: NamedArtifact)
    ensures FitsPort(traits, ports, o) <==> OutputGood(traits, ports, o)
  {
    if FindPort(ports, o.name).Some? {
      var p := SomeFirst(ports, o.name);
      FoundFirst(ports, o.name, p);
      if OutputGood(traits, ports, o) {
        var q :| 0 <= q < |ports| && ports[q].name == o.name && (forall k :: 0 <= k < q ==> ports[k].name != o.name)
                 && forall t :: t in ports[q].traits ==> t in traits[o.artifact.value];
        assert p == q;
      }
    }
  }

  // ---------------------------------------------------------------- one commit

  /** Somebody holds the unit, and the lease has not run out. */
  ghost predicate Held(slot: RunSlot, id: WorkId, now: int) {
    id in slot.claimed && !(0 < slot.claimed[id].leaseUntil <= now)
  }

  /** What a commit may be refused for beyond the claim itself. */
  ghost predicate Committable(world: World, slot: RunSlot, id: WorkId, nodeId: string, outputs: seq<NamedArtifact>)
    requires id in slot.claimed
  {
    var node := slot.claimed[id].node;
    var cap := CapabilityFor(world.modules, node);
    && (nodeId == "" || nodeId == node.id) && cap.Some? && PortsServed(cap.value.outputs, outputs)
    && forall i :: 0 <= i < |outputs| ==> OutputGood(world.traits, cap.value.outputs, outputs[i])
  }

  lemma GoodOutputsIff(world: World, cap: Capability, outputs: seq<NamedArtifact>)
    ensures OutputFault(world.traits, cap, outputs).None?
       <==> forall i :: 0 <= i < |outputs| ==> OutputGood(world.traits, cap.outputs, outputs[i])
  {
    forall i | 0 <= i < |outputs|
      ensures FitsPort(world.traits, cap.outputs, outputs[i]) <==> OutputGood(world.traits, cap.outputs, outputs[i])
    {
      FitsIsGood(world.traits, cap.outputs, outputs[i]);
    }
  }

  /** Exactly when a commit on a running run with a step left is accepted. */
  lemma CommitAcceptedIff(world: World, log: RunLog, id: WorkId, nodeId: string, outputs: seq<NamedArtifact>, now: int)
    requires log.slot.run.steps < log.slot.run.maxSteps
    ensures Commit(world, log, id, nodeId, outputs, now).1.None?
       <==> Held(log.slot, id, now) && Committable(world, log.slot, id, nodeId, outputs)
  {
    if id in Reap(log.slot, now).claimed {
      var cap := CapabilityFor(world.modules, log.slot.claimed[id].node);
      if cap.Some? {
        ArityIsServed(cap.value.outputs, outputs);
        GoodOutputsIff(world, cap.value, outputs);
      }
    }
  }

  /** An output whose artifact is not stored, where the ones before it are good. */
  ghost predicate FirstMissing(traits: map<string, set<string>>, ports: seq<Port>, outputs: seq<NamedArtifact>,
                               i: nat) {
    && i < |outputs| && (forall j :: 0 <= j < i ==> OutputGood(traits, ports, outputs[j]))
    && (exists p :: 0 <= p < |ports| && ports[p].name == outputs[i].name)
    && outputs[i].artifact.Some? && outputs[i].artifact.value !in traits
  }

  lemma {:induction false} FaultIsMissing(traits: map<string, set<string>>, cap: Capability,
                                          outputs: seq<NamedArtifact>)
    ensures OutputFault(traits, cap, outputs) == Some(NotFound)
       <==> exists i: nat :: FirstMissing(traits, cap.outputs, outputs, i)
    ensures OutputFault(traits, cap, outputs) in {None, Some(Invalid), Some(NotFound)}
  {
    if outputs != [] {
      var rest := outputs[1..];
      FaultIsMissing(traits, cap, rest);
      FitsIsGood(traits, cap.outputs, outputs[0]);
      if OutputGood(traits, cap.outputs, outputs[0]) {
        if i: nat :| FirstMissing(traits, cap.outputs, rest, i) {
          forall j | 0 <= j < i + 1
            ensures OutputGood(traits, cap.outputs, outputs[j])
          {
            assert j > 0 ==> OutputGood(traits, cap.outputs, rest[j - 1]);
          }
          assert FirstMissing(traits, cap.outputs, outputs, i + 1);
        }
        if i: nat :| FirstMissing(traits, cap.outputs, outputs, i) {
          assert i > 0;
          forall j | 0 <= j < i - 1
            ensures OutputGood(traits, cap.outputs, rest[j])
          {
            assert OutputGood(traits, cap.outputs, outputs[j + 1]);
          }
          assert FirstMissing(traits, cap.outputs, rest, i - 1);
        }
      } else {
        if i: nat :| FirstMissing(traits, cap.outputs, outputs, i) {
          assert i == 0;
        }
        if FindPort(cap.outputs, outputs[0].name).Some? && outputs[0].artifact.Some?
           && outputs[0].artifact.value !in traits {
          var p := SomeFirst(cap.outputs, outputs[0].name);
          assert FirstMissing(traits, cap.outputs, outputs, 0);
        }
      }
    }
  }

  /** Why a commit that the run is open to is refused: CONFLICT for work that is not
    * held; NOT_FOUND for outputs that serve the ports but whose first fault is an
    * artifact that is not stored; INVALID for everything else. */
  lemma CommitRefusedFor(world: World, log: RunLog, id: WorkId, nodeId: string, outputs: seq<NamedArtifact>, now: int)
    requires log.slot.run.steps < log.slot.run.maxSteps
    ensures var refused := Commit(world, log, id, nodeId, outputs, now).1;
      && (!Held(log.slot, id, now) ==> refused == Some(Conflict))
      && (Held(log.slot, id, now) && !Committable(world, log.slot, id, nodeId, outputs) ==>
            var node := log.slot.claimed[id].node;
            var cap := CapabilityFor(world.modules, node);
            refused == if (nodeId == "" || nodeId == node.id) && cap.Some? && PortsServed(cap.value.outputs, outputs)
                          && (exists i: nat :: FirstMissing(world.traits, cap.value.outputs, outputs, i))
                       then Some(NotFound) else Some(Invalid))
  {
    CommitAcceptedIff(world, log, id, nodeId, outputs, now);
    if Held(log.slot, id, now) {
      assert id in Reap(log.slot, now).claimed;
      var cap := CapabilityFor(world.modules, log.slot.claimed[id].node);
      if cap.Some? {
        ArityIsServed(cap.value.outputs, outputs);
        FaultIsMissing(world.traits, cap.value, outputs);
        GoodOutputsIff(world, cap.value, outputs);
      }
    }
  }

  // ---------------------------------------------------------------- over histories

  /** What a derivation holds serves the ports its node was validated with. */
  ghost predicate Served(base: World, d: Derivation) {
    var cap := CapabilityFor(base.modules, d.node);
    cap.Some? && PortsServed(cap.value.outputs, d.outputs)
  }

  ghost predicate AllServed(base: World, log: RunLog) {
    forall i :: 0 <= i < |log.derivations| ==> Served(base, log.derivations[i])
  }

  lemma CommitServes(base: World, world: World, log: RunLog, id: WorkId, outputs: seq<NamedArtifact>)
    requires AllServed(base, log) && CommitAllowed(world, log.slot, id, outputs) && Grows(base, world)
    requires CapabilityFor(base.modules, log.slot.claimed[id].node).Some?
    ensures AllServed(base, CommitUnit(log, id, outputs))
  {
    var node := log.slot.claimed[id].node;
    CapabilityStable(base, world, node);
    ArityIsServed(CapabilityFor(base.modules, node).value.outputs, outputs);
  }

  lemma OthersServe(base: World, log: RunLog, m: Move)
    requires AllServed(base, log) && !m.MCommit?
    ensures AllServed(base, Apply(log, m))
  {
  }

  lemma {:induction false} AlwaysServed(base: World, start: RunLog, steps: seq<Step>)
    requires Fresh(start) && IsRun(start, steps) && Capable(base, start.slot.run.assembly.nodes)
    requires forall i :: 0 <= i < |steps| ==> Grows(base, steps[i].world)
    ensures AllServed(base, RunSteps(start, steps))
  {
    if steps != [] {
      hide AllServed, CommitAllowed, CommitUnit, Fresh;
      var front, last := steps[..|steps| - 1], steps[|steps| - 1];
      var log := RunSteps(start, front);
      AlwaysServed(base, start, front);
      assert EnabledAfter(start, front, last);
      if last.move.MCommit? {
        AlwaysSafe(start, front);
        FrozenRun(start, front);
        AllowedHeld(last.world, log.slot, last.move.id, last.move.outputs);
        CommitServes(base, last.world, log, last.move.id, last.move.outputs);
      } else {
        OthersServe(base, log, last.move);
      }
    } else {
      assert start.derivations == [];
    }
  }

  lemma AllowedHeld(world: World, slot: RunSlot, id: WorkId, outputs: seq<NamedArtifact>)
    requires CommitAllowed(world, slot, id, outputs)
    ensures id in slot.claimed
  {
  }

  /** In any history, what was committed has an output for every required port its
    * node declares, and two outputs of one name only on ports marked `multiple`. */
  lemma CommittedServes(config: Config, calls: seq<Call>, r: string) returns (base: World)
    requires r in After(config, calls).runs
    ensures Grows(base, WorldOf(After(config, calls)))
    ensures var log := LogOf(After(config, calls), r);
      forall i :: 0 <= i < |log.derivations| ==>
        var cap := CapabilityFor(base.modules, log.derivations[i].node);
        cap.Some? && PortsServed(cap.value.outputs, log.derivations[i].outputs)
  {
    hide Fresh;
    var start, steps;
    base, start, steps := StepsOf(config, calls, r);
    AlwaysServed(base, start, steps);
    var log := LogOf(After(config, calls), r);
    assert forall i :: 0 <= i < |log.derivations| ==> Served(base, log.derivations[i]);
  }
}
