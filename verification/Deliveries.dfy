/** ALWAYS firing: one unit per delivery. A node fires again exactly when one of
  * its bound sources delivers anew. */
module Deliveries {
  import opened Base
  import opened Types
  import opened Strings
  import opened Scheduler
  import opened Moves
  import opened Safety
  import opened Accounting

  // ---------------------------------------------------------------- generation vectors

  /** Row by row: same port, and a generation no later. */
  ghost predicate AtMost(r: seq<Row>, s: seq<Row>) {
    |r| == |s| && forall i :: 0 <= i < |r| ==> r[i].port == s[i].port && r[i].generation <= s[i].generation
  }

  function GenerationSum(rows: seq<Row>): nat {
    if rows == [] then 0 else rows[0].generation + GenerationSum(rows[1..])
  }

  function GenerationRows(slot: RunSlot, bs: seq<Binding>): (r: seq<Row>)
    ensures |r| == |bs|
    ensures forall i :: 0 <= i < |bs| ==> r[i] == Row(bs[i].toPort, "", Generation(slot, bs[i]))
  {
    if bs == [] then [] else [Row(bs[0].toPort, "", Generation(slot, bs[0]))] + GenerationRows(slot, bs[1..])
  }

  /** The node's current generation vector, in fingerprint order. */
  function CurrentVector(slot: RunSlot, node: string): seq<Row> {
    SortRows(GenerationRows(slot, BindingsTo(slot.run.assembly.bindings, node)))
  }

  lemma {:induction false} InsertAtMost(a: Row, r: seq<Row>, b: Row, s: seq<Row>)
    requires AtMost([a], [b]) && AtMost(r, s)
    ensures AtMost(InsertRow(a, r), InsertRow(b, s))
    ensures GenerationSum(InsertRow(a, r)) == a.generation + GenerationSum(r)
  {
    assert [a][0].port == [b][0].port;
    if r != [] {
      assert r[0].port == s[0].port;
      if !NameLe(a.port, r[0].port) {
        InsertAtMost(a, r[1..], b, s[1..]);
        assert InsertRow(a, r)[1..] == InsertRow(a, r[1..]);
      } else {
        assert ([a] + r)[1..] == r;
      }
    } else {
      assert ([a] + r)[1..] == r;
    }
  }

  /** Sorting moves rows by port alone, so it keeps the pointwise order. */
  lemma {:induction false} SortAtMost(r: seq<Row>, s: seq<Row>)
    requires AtMost(r, s)
    ensures AtMost(SortRows(r), SortRows(s))
    ensures GenerationSum(SortRows(r)) == GenerationSum(r)
  {
    if r != [] {
      SortAtMost(r[1..], s[1..]);
      assert AtMost([r[0]], [s[0]]);
      InsertAtMost(r[0], SortRows(r[1..]), s[0], SortRows(s[1..]));
    }
  }

  lemma {:induction false} SumAtMost(r: seq<Row>, s: seq<Row>)
    requires AtMost(r, s)
    ensures GenerationSum(r) <= GenerationSum(s)
    ensures (exists i :: 0 <= i < |r| && r[i].generation < s[i].generation) ==> GenerationSum(r) < GenerationSum(s)
  {
    if r != [] {
      SumAtMost(r[1..], s[1..]);
      if i :| 0 <= i < |r| && r[i].generation < s[i].generation {
        if i > 0 {
          assert r[1..][i - 1].generation < s[1..][i - 1].generation;
        }
      }
    }
  }

  // ---------------------------------------------------------------- no unit is ahead of its node

  /** Every delivery unit ever claimed encodes a vector at most the current one. */
  ghost predicate NotAhead(slot: RunSlot) {
    forall u :: u in slot.claimAttempts && u.DeliveryUnit? ==> AtMost(u.rows, CurrentVector(slot, u.node))
  }

  lemma CurrentAtMost(modules: seq<ModuleSlot>, slot: RunSlot, c: Candidate)
    requires CurrentUnit(modules, slot, c.node) == Some(c) && c.unit.DeliveryUnit?
    ensures AtMost(c.unit.rows, CurrentVector(slot, c.unit.node))
    ensures GenerationSum(c.unit.rows) == GenerationSum(CurrentVector(slot, c.unit.node))
  {
    var bs := BoundTo(slot, c.node);
    var rows := DeliveryRows(slot, bs, c.inputs).value;
    var gens := GenerationRows(slot, bs);
    assert AtMost(rows, gens) && AtMost(gens, rows);
    SortAtMost(rows, gens);
    SortAtMost(gens, rows);
    SumAtMost(rows, gens);
    SumAtMost(gens, rows);
  }

  /** The sources of a node only deliver more. */
  ghost predicate Later(slot: RunSlot, slot': RunSlot) {
    slot'.run.assembly == slot.run.assembly && forall b :: Generation(slot, b) <= Generation(slot', b)
  }

  lemma VectorGrows(slot: RunSlot, slot': RunSlot, node: string)
    requires Later(slot, slot')
    ensures AtMost(CurrentVector(slot, node), CurrentVector(slot', node))
  {
    var bs := BindingsTo(slot.run.assembly.bindings, node);
    assert AtMost(GenerationRows(slot, bs), GenerationRows(slot', bs));
    SortAtMost(GenerationRows(slot, bs), GenerationRows(slot', bs));
  }

  lemma MoveLater(log: RunLog, m: Move)
    requires forall name :: Lookup(log.slot.inputEpochs, name, 0) <= U64_MAX
    ensures Later(log.slot, Apply(log, m).slot)
  {
    var slot, slot' := log.slot, Apply(log, m).slot;
    forall b: Binding
      ensures Generation(slot, b) <= Generation(slot', b)
    {
    }
  }

  ghost predicate EpochsFit(slot: RunSlot) {
    forall name :: Lookup(slot.inputEpochs, name, 0) <= U64_MAX
  }

  lemma NotAheadKept(world: World, log: RunLog, m: Move)
    requires NotAhead(log.slot) && EpochsFit(log.slot) && Enabled(world, log.slot, m)
    ensures NotAhead(Apply(log, m).slot)
  {
    var slot, slot' := log.slot, Apply(log, m).slot;
    MoveLater(log, m);
    forall u | u in slot'.claimAttempts && u.DeliveryUnit?
      ensures AtMost(u.rows, CurrentVector(slot', u.node))
    {
      VectorGrows(slot, slot', u.node);
      if u in slot.claimAttempts {
        assert AtMost(u.rows, CurrentVector(slot, u.node));
      } else {
        CurrentAtMost(world.modules, slot, m.candidate);
      }
    }
  }

  lemma EpochsKept(log: RunLog, m: Move)
    requires EpochsFit(log.slot)
    ensures EpochsFit(Apply(log, m).slot)
  {
    forall name: string
      ensures Lookup(Apply(log, m).slot.inputEpochs, name, 0) <= U64_MAX
    {
      assert Lookup(log.slot.inputEpochs, name, 0) <= U64_MAX;
    }
  }

  lemma {:induction false} NeverAhead(start: RunLog, steps: seq<Step>)
    requires Fresh(start) && EpochsFit(start.slot) && IsRun(start, steps)
    ensures NotAhead(RunSteps(start, steps).slot) && EpochsFit(RunSteps(start, steps).slot)
  {
    if steps != [] {
      var front, last := steps[..|steps| - 1], steps[|steps| - 1];
      NeverAhead(start, front);
      NotAheadKept(last.world, RunSteps(start, front), last.move);
      EpochsKept(RunSteps(start, front), last.move);
    }
  }

  // ---------------------------------------------------------------- a delivery fires the node

  /** The move bumps a generation the node listens to. */
  ghost predicate Delivers(slot: RunSlot, m: Move, node: string) {
    exists b :: b in BindingsTo(slot.run.assembly.bindings, node) && DeliversTo(slot, m, b)
  }

  ghost predicate DeliversTo(slot: RunSlot, m: Move, b: Binding) {
    if b.input != "" then
      m.MInject? && m.input.name == b.input
    else
      m.MCommit? && m.id in slot.claimed && slot.claimed[m.id].node.id == b.fromNode
  }

  /** The injected input's counter still has room. */
  ghost predicate NotSaturated(slot: RunSlot, m: Move) {
    m.MInject? ==> Lookup(slot.inputEpochs, m.input.name, 0) < U64_MAX
  }

  lemma VectorRises(slot: RunSlot, slot': RunSlot, node: string, b: Binding)
    requires Later(slot, slot') && b in BindingsTo(slot.run.assembly.bindings, node)
    requires Generation(slot, b) < Generation(slot', b)
    ensures GenerationSum(CurrentVector(slot, node)) < GenerationSum(CurrentVector(slot', node))
  {
    var bs := BindingsTo(slot.run.assembly.bindings, node);
    var before, after := GenerationRows(slot, bs), GenerationRows(slot', bs);
    var i :| 0 <= i < |bs| && bs[i] == b;
    assert before[i].generation < after[i].generation;
    SumAtMost(before, after);
    SortAtMost(before, after);
    SortAtMost(after, after);
  }

  lemma DeliveryBumps(log: RunLog, m: Move, node: string)
    requires EpochsFit(log.slot) && Delivers(log.slot, m, node) && NotSaturated(log.slot, m)
    ensures GenerationSum(CurrentVector(log.slot, node)) < GenerationSum(CurrentVector(Apply(log, m).slot, node))
  {
    MoveLater(log, m);
    var b :| b in BindingsTo(log.slot.run.assembly.bindings, node) && DeliversTo(log.slot, m, b);
    VectorRises(log.slot, Apply(log, m).slot, node, b);
  }

  ghost predicate OnDeliveries(modules: seq<ModuleSlot>, slot: RunSlot, node: AssemblyNode) {
    CurrentUnit(modules, slot, node).Some? && CurrentUnit(modules, slot, node).value.unit.DeliveryUnit?
  }

  /** Right after a delivery the node's unit has never been claimed, so the node
    * is ready as soon as its inputs and capability resolve. */
  lemma DeliveryFires(start: RunLog, steps: seq<Step>, s: Step, node: AssemblyNode)
    requires Fresh(start) && EpochsFit(start.slot) && IsRun(start, steps + [s])
    requires Delivers(RunSteps(start, steps).slot, s.move, node.id) && NotSaturated(RunSteps(start, steps).slot, s.move)
    requires OnDeliveries(s.world.modules, RunSteps(start, steps + [s]).slot, node)
    ensures var slot' := RunSteps(start, steps + [s]).slot;
      ReadyUnit(s.world.modules, slot', node) == CurrentUnit(s.world.modules, slot', node)
      && CurrentUnit(s.world.modules, slot', node).value.unit !in slot'.claimAttempts
  {
    assert (steps + [s])[..|steps|] == steps;
    var log, log' := RunSteps(start, steps), RunSteps(start, steps + [s]);
    NeverAhead(start, steps);
    AlwaysSafe(start, steps + [s]);
    DeliveryBumps(log, s.move, node.id);
    var c := CurrentUnit(s.world.modules, log'.slot, node).value;
    CurrentAtMost(s.world.modules, log'.slot, c);
    assert log'.slot.claimAttempts == log.slot.claimAttempts;
    if c.unit in log.slot.claimAttempts {
      SumAtMost(c.unit.rows, CurrentVector(log.slot, node.id));
      assert false;
    }
  }

  // ---------------------------------------------------------------- and nothing else does

  lemma BindingKept(log: RunLog, m: Move, b: Binding)
    requires !DeliversTo(log.slot, m, b)
    ensures SameSource(log.slot, Apply(log, m).slot, b)
  {
    if m.MInject? && b.input != "" {
      InputKept(log.slot.run.inputs, m.input, b.input);
    }
  }

  lemma CurrentUnitKept(modules: seq<ModuleSlot>, log: RunLog, m: Move, node: AssemblyNode)
    requires !Delivers(log.slot, m, node.id)
    ensures CurrentUnit(modules, Apply(log, m).slot, node) == CurrentUnit(modules, log.slot, node)
  {
    var slot, slot' := log.slot, Apply(log, m).slot;
    MoveFreezes(log, m);
    forall b | b in BoundTo(slot, node)
      ensures SameSource(slot, slot', b)
    {
      BindingKept(log, m, b);
    }
    SameUnit(modules, slot, slot', node);
  }

  lemma {:induction false} InputKept(inputs: seq<NamedArtifact>, input: NamedArtifact, name: string)
    requires name != input.name
    ensures ArtifactNamed(Replace(inputs, input), name) == ArtifactNamed(inputs, name)
  {
    if inputs != [] && inputs[0].name != input.name {
      InputKept(inputs[1..], input, name);
    }
  }

  lemma DoneStays(log: RunLog, m: Move)
    ensures log.slot.doneUnits <= Apply(log, m).slot.doneUnits
  {
  }

  ghost predicate Undelivered(log: RunLog, steps: seq<Step>, node: string) {
    forall i :: 0 <= i < |steps| ==> !Delivers(RunSteps(log, steps[..i]).slot, steps[i].move, node)
  }

  /** Until one of its sources delivers, a node whose current unit is done keeps
    * that unit and is never ready again, whatever the firing policy. */
  lemma {:induction false} QuietUntilDelivery(modules: seq<ModuleSlot>, log: RunLog, steps: seq<Step>,
                                              node: AssemblyNode)
    requires CurrentUnit(modules, log.slot, node).Some?
    requires CurrentUnit(modules, log.slot, node).value.unit in log.slot.doneUnits
    requires Undelivered(log, steps, node.id)
    ensures var slot' := RunSteps(log, steps).slot;
      && CurrentUnit(modules, slot', node) == CurrentUnit(modules, log.slot, node)
      && CurrentUnit(modules, slot', node).value.unit in slot'.doneUnits
      && ReadyUnit(modules, slot', node).None?
  {
    if steps != [] {
      var n := |steps| - 1;
      var front := steps[..n];
      forall i | 0 <= i < n
        ensures !Delivers(RunSteps(log, front[..i]).slot, front[i].move, node.id)
      {
        assert front[..i] == steps[..i];
      }
      QuietUntilDelivery(modules, log, front, node);
      CurrentUnitKept(modules, RunSteps(log, front), steps[n].move, node);
      DoneStays(RunSteps(log, front), steps[n].move);
    }
  }

  // ---------------------------------------------------------------- the counter's end

  lemma {:induction false} SameInput(inputs: seq<NamedArtifact>, input: NamedArtifact)
    requires FirstNamed(inputs, input.name) == Some(input)
    ensures Replace(inputs, input) == inputs
  {
    if inputs[0].name != input.name {
      SameInput(inputs[1..], input);
    }
  }

  lemma SaturatedInjection(slot: RunSlot, input: NamedArtifact)
    requires FirstNamed(slot.run.inputs, input.name) == Some(input)
    requires EpochsFit(slot) && Lookup(slot.inputEpochs, input.name, 0) == U64_MAX
    ensures Inject(slot, input) == slot
  {
    SameInput(slot.run.inputs, input);
    assert slot.inputEpochs[input.name := U64_MAX] == slot.inputEpochs;
  }

  /** The node's current unit is a finished delivery. */
  ghost predicate UnitFinished(modules: seq<ModuleSlot>, slot: RunSlot, node: AssemblyNode) {
    CurrentUnit(modules, slot, node).Some? && CurrentUnit(modules, slot, node).value.unit in slot.doneUnits
  }

  lemma SaturatedQuiet(modules: seq<ModuleSlot>, slot: RunSlot, input: NamedArtifact, node: AssemblyNode)
    requires FirstNamed(slot.run.inputs, input.name) == Some(input)
    requires EpochsFit(slot) && Lookup(slot.inputEpochs, input.name, 0) == U64_MAX
    requires UnitFinished(modules, slot, node)
    ensures ReadyUnit(modules, Inject(slot, input), node).None?
  {
    SaturatedInjection(slot, input);
  }

  lemma RunBefore(start: RunLog, steps: seq<Step>, s: Step)
    requires IsRun(start, steps + [s])
    ensures IsRun(start, steps)
  {
    assert (steps + [s])[..|steps|] == steps;
  }

  lemma CurrentThere(modules: seq<ModuleSlot>, slot: RunSlot, node: AssemblyNode)
    requires OnDeliveries(modules, slot, node)
    ensures CurrentUnit(modules, slot, node).Some?
  {
  }

  /** Injecting the artifact that is already there re-fires an ALWAYS node if and
    * only if the input's 64-bit delivery counter is not saturated. */
  lemma ReinjectionFiresIff(start: RunLog, steps: seq<Step>, s: Step, node: AssemblyNode)
    requires Fresh(start) && EpochsFit(start.slot) && IsRun(start, steps + [s]) && s.move.MInject?
    requires FirstNamed(RunSteps(start, steps).slot.run.inputs, s.move.input.name) == Some(s.move.input)
    requires Delivers(RunSteps(start, steps).slot, s.move, node.id)
    requires UnitFinished(s.world.modules, RunSteps(start, steps).slot, node)
    requires OnDeliveries(s.world.modules, RunSteps(start, steps + [s]).slot, node)
    ensures ReadyUnit(s.world.modules, RunSteps(start, steps + [s]).slot, node).Some?
       <==> Lookup(RunSteps(start, steps).slot.inputEpochs, s.move.input.name, 0) < U64_MAX
  {
    hide IsRun, NotAhead, CurrentUnit, ReadyUnit, OnDeliveries, UnitFinished, Delivers;
    assert (steps + [s])[..|steps|] == steps;
    assert IsRun(start, steps) by { RunBefore(start, steps, s); }
    NeverAhead(start, steps);
    var slot := RunSteps(start, steps).slot;
    if Lookup(slot.inputEpochs, s.move.input.name, 0) < U64_MAX {
      DeliveryFires(start, steps, s, node);
      CurrentThere(s.world.modules, RunSteps(start, steps + [s]).slot, node);
    } else {
      SaturatedQuiet(s.world.modules, slot, s.move.input, node);
    }
  }
}
