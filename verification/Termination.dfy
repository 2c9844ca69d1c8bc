/** Structural termination: with the registry fixed and nothing injected, a run
  * can only be claimed, failed, expired and committed a bounded number of
  * times. The bound is explicit: max_steps * nodes * max_attempts claims. */
module Termination {
  import opened Base
  import opened Types
  import opened Scheduler
  import opened Moves
  import opened Safety
  import opened Accounting

  /** Attempts the node's current unit has left. */
  function Unused(modules: seq<ModuleSlot>, slot: RunSlot, node: AssemblyNode): nat {
    var c := CurrentUnit(modules, slot, node);
    var used := if c.Some? then Lookup(slot.claimAttempts, c.value.unit, 0) else 0;
    if used <= slot.maxAttempts then slot.maxAttempts - used else 0
  }

  function UnusedSum(modules: seq<ModuleSlot>, slot: RunSlot, nodes: seq<AssemblyNode>): nat {
    if nodes == [] then 0 else Unused(modules, slot, nodes[0]) + UnusedSum(modules, slot, nodes[1..])
  }

  /** Claims one step of the run may still see. */
  function PerStep(slot: RunSlot): nat {
    Times(|slot.run.assembly.nodes|, slot.maxAttempts)
  }

  function StepsAfterThis(run: Run): nat {
    if run.steps < run.maxSteps then run.maxSteps - run.steps - 1 else 0
  }

  /** An upper bound on the claims still to come. */
  function Budget(modules: seq<ModuleSlot>, slot: RunSlot): nat {
    if slot.run.state != Running then 0
    else Times(StepsAfterThis(slot.run), PerStep(slot)) + UnusedSum(modules, slot, slot.run.assembly.nodes)
  }

  /** Decreases with every move but a renewal. */
  function Potential(modules: seq<ModuleSlot>, slot: RunSlot): nat {
    2 * Budget(modules, slot) + |slot.claimed| + if slot.run.state == Running then 1 else 0
  }

  // ---------------------------------------------------------------- sums over nodes

  lemma {:induction false} UnusedBound(modules: seq<ModuleSlot>, slot: RunSlot, nodes: seq<AssemblyNode>)
    ensures UnusedSum(modules, slot, nodes) <= Times(|nodes|, slot.maxAttempts)
  {
    if nodes != [] {
      UnusedBound(modules, slot, nodes[1..]);
      assert |nodes[1..]| == |nodes| - 1;
    }
  }

  lemma {:induction false} UnusedSame(modules: seq<ModuleSlot>, slot: RunSlot, slot': RunSlot, nodes: seq<AssemblyNode>)
    requires forall n :: n in nodes ==> Unused(modules, slot', n) == Unused(modules, slot, n)
    ensures UnusedSum(modules, slot', nodes) == UnusedSum(modules, slot, nodes)
  {
    if nodes != [] {
      assert nodes[0] in nodes;
      UnusedSame(modules, slot, slot', nodes[1..]);
    }
  }

  lemma {:induction false} UnusedDrops(modules: seq<ModuleSlot>, slot: RunSlot, slot': RunSlot,
                                       nodes: seq<AssemblyNode>, node: AssemblyNode)
    requires DistinctNodeIds(nodes) && node in nodes
    requires Unused(modules, slot', node) + 1 == Unused(modules, slot, node)
    requires forall n :: n in nodes && n.id != node.id ==> Unused(modules, slot', n) == Unused(modules, slot, n)
    ensures UnusedSum(modules, slot', nodes) + 1 == UnusedSum(modules, slot, nodes)
  {
    var tail := nodes[1..];
    forall i, j | 0 <= i < j < |tail|
      ensures tail[i].id != tail[j].id
    {
      assert tail[i] == nodes[i + 1] && tail[j] == nodes[j + 1];
    }
    if nodes[0] == node {
      forall n | n in tail
        ensures Unused(modules, slot', n) == Unused(modules, slot, n)
      {
        var i :| 0 <= i < |tail| && tail[i] == n;
        assert nodes[i + 1] == n;
      }
      UnusedSame(modules, slot, slot', tail);
    } else {
      assert nodes[0] in nodes;
      UnusedDrops(modules, slot, slot', tail, node);
    }
  }

  // ---------------------------------------------------------------- move by move

  lemma UnusedFrame(modules: seq<ModuleSlot>, slot: RunSlot, slot': RunSlot, node: AssemblyNode)
    requires slot'.run.assembly == slot.run.assembly && slot'.run.policy == slot.run.policy
    requires slot'.run.inputs == slot.run.inputs && slot'.latest == slot.latest
    requires slot'.inputEpochs == slot.inputEpochs && slot'.nodeCommits == slot.nodeCommits
    ensures CurrentUnit(modules, slot', node) == CurrentUnit(modules, slot, node)
  {
    forall b | b in BoundTo(slot, node)
      ensures SameSource(slot, slot', b)
    {
    }
    SameUnit(modules, slot, slot', node);
  }

  lemma TakeSpends(world: World, slot: RunSlot, c: Candidate, now: int)
    requires Safe(slot) && slot.run.state == Running && DistinctNodeIds(slot.run.assembly.nodes)
    requires IsReady(world.modules, slot, c) && c.node in slot.run.assembly.nodes
    ensures UnusedSum(world.modules, Take(slot, c, now), slot.run.assembly.nodes) + 1
         == UnusedSum(world.modules, slot, slot.run.assembly.nodes)
  {
    var slot' := Take(slot, c, now);
    ReadyIsNew(world, slot, c);
    forall n | n in slot.run.assembly.nodes && n.id != c.node.id
      ensures Unused(world.modules, slot', n) == Unused(world.modules, slot, n)
    {
      UnusedFrame(world.modules, slot, slot', n);
    }
    UnusedFrame(world.modules, slot, slot', c.node);
    UnusedDrops(world.modules, slot, slot', slot.run.assembly.nodes, c.node);
  }

  lemma TakePotential(modules: seq<ModuleSlot>, slot: RunSlot, c: Candidate, now: int)
    requires slot.run.state == Running && Takeable(slot, c)
    requires UnusedSum(modules, Take(slot, c, now), slot.run.assembly.nodes) + 1
          == UnusedSum(modules, slot, slot.run.assembly.nodes)
    ensures Budget(modules, Take(slot, c, now)) + 1 == Budget(modules, slot)
    ensures Potential(modules, Take(slot, c, now)) < Potential(modules, slot)
  {
    assert Take(slot, c, now).claimed.Keys == slot.claimed.Keys + {WorkId(slot.run.id, c.unit)};
  }

  /** Giving a unit up leaves the budget alone and frees a lease. */
  lemma DropPotential(modules: seq<ModuleSlot>, slot: RunSlot, id: WorkId, terminal: bool)
    requires id in slot.claimed && slot.run.state == Running
    ensures Budget(modules, Drop(slot, id, terminal)) == Budget(modules, slot)
    ensures Potential(modules, Drop(slot, id, terminal)) < Potential(modules, slot)
  {
    var slot' := Drop(slot, id, terminal);
    assert slot'.claimed.Keys == slot.claimed.Keys - {id};
    forall n | n in slot.run.assembly.nodes
      ensures Unused(modules, slot', n) == Unused(modules, slot, n)
    {
      UnusedFrame(modules, slot, slot', n);
    }
    UnusedSame(modules, slot, slot', slot.run.assembly.nodes);
  }

  lemma RenewPotential(modules: seq<ModuleSlot>, slot: RunSlot, id: WorkId, until: int)
    requires id in slot.claimed
    ensures Budget(modules, Renew(slot, id, until)) == Budget(modules, slot)
    ensures Potential(modules, Renew(slot, id, until)) == Potential(modules, slot)
  {
    var slot' := Renew(slot, id, until);
    assert slot'.claimed.Keys == slot.claimed.Keys;
    forall n | n in slot.run.assembly.nodes
      ensures Unused(modules, slot', n) == Unused(modules, slot, n)
    {
      UnusedFrame(modules, slot, slot', n);
    }
    UnusedSame(modules, slot, slot', slot.run.assembly.nodes);
  }

  /** A commit may renew every node's attempts, but it uses up a step. */
  lemma CommitPotential(modules: seq<ModuleSlot>, log: RunLog, id: WorkId, outputs: seq<NamedArtifact>)
    requires id in log.slot.claimed && log.slot.run.state == Running && StepsBounded(log.slot.run)
    ensures Budget(modules, CommitUnit(log, id, outputs).slot) <= Budget(modules, log.slot)
    ensures Potential(modules, CommitUnit(log, id, outputs).slot) < Potential(modules, log.slot)
  {
    var slot, slot' := log.slot, CommitUnit(log, id, outputs).slot;
    assert slot'.claimed.Keys == slot.claimed.Keys - {id};
    if slot'.run.state == Running {
      UnusedBound(modules, slot', slot.run.assembly.nodes);
      assert StepsAfterThis(slot.run) == StepsAfterThis(slot'.run) + 1;
      assert Times(StepsAfterThis(slot.run), PerStep(slot))
           == Times(StepsAfterThis(slot'.run), PerStep(slot)) + PerStep(slot);
    }
  }

  /** Each move but a renewal lowers the potential; a claim also spends one unit
    * of the claim budget, and nothing ever adds to it. */
  lemma PotentialFalls(world: World, log: RunLog, m: Move)
    requires Safe(log.slot) && StepsBounded(log.slot.run) && DistinctNodeIds(log.slot.run.assembly.nodes)
    requires Enabled(world, log.slot, m) && !m.MInject?
    ensures var slot' := Apply(log, m).slot;
      && Budget(world.modules, slot') + (if m.MTake? then 1 else 0) <= Budget(world.modules, log.slot)
      && Potential(world.modules, slot') + (if m.MRenew? then 0 else 1) <= Potential(world.modules, log.slot)
  {
    match m
    case MTake(c, now) =>
      TakeSpends(world, log.slot, c, now);
      ReadyIsNew(world, log.slot, c);
      TakePotential(world.modules, log.slot, c, now);
    case MRenew(id, until) => RenewPotential(world.modules, log.slot, id, until);
    case MDrop(id, terminal) => DropPotential(world.modules, log.slot, id, terminal);
    case MCommit(id, outputs) => CommitPotential(world.modules, log, id, outputs);
    case MStall =>
    case MCancel =>
  }

  // ---------------------------------------------------------------- whole runs

  function ClaimCount(steps: seq<Step>): nat {
    if steps == [] then 0
    else ClaimCount(steps[..|steps| - 1]) + if steps[|steps| - 1].move.MTake? then 1 else 0
  }

  /** Moves other than lease renewals. */
  function WorkCount(steps: seq<Step>): nat {
    if steps == [] then 0
    else WorkCount(steps[..|steps| - 1]) + if steps[|steps| - 1].move.MRenew? then 0 else 1
  }

  ghost predicate FixedRegistry(modules: seq<ModuleSlot>, steps: seq<Step>) {
    forall i :: 0 <= i < |steps| ==> steps[i].world.modules == modules && !steps[i].move.MInject?
  }

  lemma {:induction false} SpendingRun(modules: seq<ModuleSlot>, start: RunLog, steps: seq<Step>)
    requires Fresh(start) && IsRun(start, steps) && FixedRegistry(modules, steps)
    ensures Budget(modules, RunSteps(start, steps).slot) + ClaimCount(steps) <= Budget(modules, start.slot)
    ensures Potential(modules, RunSteps(start, steps).slot) + WorkCount(steps) <= Potential(modules, start.slot)
  {
    if steps != [] {
      var front, last := steps[..|steps| - 1], steps[|steps| - 1];
      SpendingRun(modules, start, front);
      AlwaysSafe(start, front);
      AlwaysAccounted(start, front);
      FrozenRun(start, front);
      PotentialFalls(last.world, RunSteps(start, front), last.move);
    }
  }

  /** The most claims a run can see: max_steps * nodes * max_attempts. */
  function ClaimBound(slot: RunSlot): nat {
    slot.run.maxSteps * (|slot.run.assembly.nodes| * slot.maxAttempts)
  }

  lemma FreshBudget(modules: seq<ModuleSlot>, start: RunLog)
    requires Fresh(start)
    ensures Budget(modules, start.slot) <= ClaimBound(start.slot)
  {
    var slot := start.slot;
    UnusedBound(modules, slot, slot.run.assembly.nodes);
    TimesIsProduct(|slot.run.assembly.nodes|, slot.maxAttempts);
    TimesIsProduct(slot.run.maxSteps, PerStep(slot));
    assert Times(slot.run.maxSteps, PerStep(slot)) == Times(StepsAfterThis(slot.run), PerStep(slot)) + PerStep(slot);
  }

  /** Structural termination: no run makes more than max_steps * nodes *
    * max_attempts claims, nor more than twice that many moves and one closing
    * move besides lease renewals. */
  lemma RunsAreBounded(modules: seq<ModuleSlot>, start: RunLog, steps: seq<Step>)
    requires Fresh(start) && IsRun(start, steps) && FixedRegistry(modules, steps)
    ensures ClaimCount(steps) <= ClaimBound(start.slot)
    ensures WorkCount(steps) <= 2 * ClaimBound(start.slot) + 1
  {
    SpendingRun(modules, start, steps);
    FreshBudget(modules, start);
  }

  // ---------------------------------------------------------------- call by call

  /** The budget reads only these parts of a slot. */
  lemma BudgetFrame(modules: seq<ModuleSlot>, slot: RunSlot, slot': RunSlot)
    requires slot'.run == slot.run && slot'.latest == slot.latest && slot'.claimAttempts == slot.claimAttempts
    requires slot'.inputEpochs == slot.inputEpochs && slot'.nodeCommits == slot.nodeCommits
    requires slot'.maxAttempts == slot.maxAttempts
    ensures Budget(modules, slot') == Budget(modules, slot)
  {
    forall n | n in slot.run.assembly.nodes
      ensures Unused(modules, slot', n) == Unused(modules, slot, n)
    {
      UnusedFrame(modules, slot, slot', n);
    }
    UnusedSame(modules, slot, slot', slot.run.assembly.nodes);
  }

  lemma TakeRoom(slot: RunSlot, c: Candidate, now: int, n: nat)
    requires RoomFor(slot, n + 1)
    ensures RoomFor(Take(slot, c, now), n)
  {
    var id := WorkId(slot.run.id, c.unit);
    SubsetCardinality(Take(slot, c, now).claimed.Keys, slot.claimed.Keys + {id});
  }

  lemma TakeFirstSpends(world: World, slot: RunSlot, cs: seq<Candidate>, now: int)
    requires Safe(slot) && slot.run.state == Running && DistinctNodeIds(slot.run.assembly.nodes)
    requires cs != [] && AllReady(world.modules, slot, cs) && RoomFor(slot, |cs|)
    ensures var slot' := Take(slot, cs[0], now);
      Safe(slot') && slot'.run == slot.run && Budget(world.modules, slot') + 1 == Budget(world.modules, slot)
  {
    var c := cs[0];
    assert IsReady(world.modules, slot, c) && c.node in slot.run.assembly.nodes;
    TakeSpends(world, slot, c, now);
    ReadyIsNew(world, slot, c);
    TakePotential(world.modules, slot, c, now);
    TakeSafe(slot, c, now);
  }

  lemma {:induction false} TakeAllSpends(world: World, slot: RunSlot, cs: seq<Candidate>, now: int)
    requires Safe(slot) && slot.run.state == Running && DistinctNodeIds(slot.run.assembly.nodes)
    requires AllReady(world.modules, slot, cs) && RoomFor(slot, |cs|)
    ensures Budget(world.modules, TakeAll(slot, cs, now)) + |cs| <= Budget(world.modules, slot)
    decreases |cs|
  {
    if cs != [] {
      hide Safe, AllReady, RoomFor, Budget, Take;
      TakeFirstSpends(world, slot, cs, now);
      OthersStayReady(world.modules, slot, cs, now);
      TakeRoom(slot, cs[0], now, |cs| - 1);
      TakeAllSpends(world, Take(slot, cs[0], now), cs[1..], now);
    }
  }

  lemma {:induction false} RenewingKeeps(slot: RunSlot, ids: seq<WorkId>, until: int)
    ensures var slot' := RenewAll(slot, ids, until); slot' == slot.(claimed := slot'.claimed)
    decreases |ids|
  {
    if ids != [] {
      RenewingKeeps(if ids[0] in slot.claimed then Renew(slot, ids[0], until) else slot, ids[1..], until);
    }
  }

  /** How many units a call claims. */
  function ClaimsBy(modules: seq<ModuleSlot>, slot: RunSlot, call: RunCall): nat {
    if call.RClaim? then |ChosenFor(modules, Reap(slot, call.now), call.req)| else 0
  }

  lemma ReapSafe(world: World, log: RunLog, now: int)
    requires Safe(log.slot) && log.slot.run.state == Running && DistinctNodeIds(log.slot.run.assembly.nodes)
    ensures Safe(Reap(log.slot, now))
  {
    ServeSafe(world, log, RBeat([], 0, now));
  }

  lemma ClaimSpends(world: World, log: RunLog, req: ClaimRequest, now: int)
    requires Safe(log.slot) && log.slot.run.state == Running && DistinctNodeIds(log.slot.run.assembly.nodes)
    ensures Budget(world.modules, ClaimReady(world.modules, log.slot, req, now))
            + |ChosenFor(world.modules, Reap(log.slot, now), req)| <= Budget(world.modules, log.slot)
  {
    var reaped := log.(slot := Reap(log.slot, now));
    ReapSafe(world, log, now);
    BudgetFrame(world.modules, log.slot, reaped.slot);
    ChosenReady(world.modules, reaped.slot, req);
    hide Reap, ChosenFor, Safe, AllReady;
    TakeAllSpends(world, reaped.slot, ChosenFor(world.modules, reaped.slot, req), now);
  }

  lemma StallSpends(modules: seq<ModuleSlot>, slot: RunSlot)
    ensures Budget(modules, StallIfIdle(modules, slot)) <= Budget(modules, slot)
  {
  }

  lemma CommitSpends(world: World, log: RunLog, call: RunCall)
    requires Safe(log.slot) && StepsBounded(log.slot.run) && log.slot.run.state == Running && call.RCommit?
    ensures Budget(world.modules, Serve(world, log, call).slot) <= Budget(world.modules, log.slot)
  {
    var reaped := log.(slot := Reap(log.slot, call.now));
    BudgetFrame(world.modules, log.slot, reaped.slot);
    if CommitFault(world, reaped.slot, call.id, call.nodeId, call.outputs).None? {
      CommitPotential(world.modules, reaped, call.id, call.outputs);
      StallSpends(world.modules, CommitUnit(reaped, call.id, call.outputs).slot);
    }
  }

  lemma FailSpends(modules: seq<ModuleSlot>, slot: RunSlot, id: WorkId, terminal: bool, now: int)
    requires slot.run.state == Running
    ensures Budget(modules, FailWork(modules, slot, id, terminal, now).0) <= Budget(modules, slot)
  {
    var reaped := Reap(slot, now);
    BudgetFrame(modules, slot, reaped);
    if id in reaped.claimed {
      DropPotential(modules, reaped, id, terminal);
      StallSpends(modules, Drop(reaped, id, terminal));
    }
  }

  lemma BeatSpends(modules: seq<ModuleSlot>, slot: RunSlot, ids: seq<WorkId>, extend: nat, now: int)
    ensures Budget(modules, Heartbeat(slot, ids, extend, now)) == Budget(modules, slot)
  {
    RenewingKeeps(slot, ids, BeatEnd(slot, extend, now));
    BudgetFrame(modules, slot, Heartbeat(slot, ids, extend, now));
  }

  /** A call spends one unit of the budget per unit it claims. */
  lemma ServeSpends(world: World, log: RunLog, call: RunCall)
    requires Safe(log.slot) && StepsBounded(log.slot.run) && DistinctNodeIds(log.slot.run.assembly.nodes)
    requires Accepted(world, log, call) && !call.RInject?
    ensures Budget(world.modules, Serve(world, log, call).slot) + ClaimsBy(world.modules, log.slot, call)
         <= Budget(world.modules, log.slot)
  {
    match call
    case RClaim(req, now) => ClaimSpends(world, log, req, now);
    case RBeat(ids, extend, now) => BeatSpends(world.modules, log.slot, ids, extend, now);
    case RFail(id, terminal, now) => FailSpends(world.modules, log.slot, id, terminal, now);
    case RCommit(_, _, _, _) => CommitSpends(world, log, call);
    case RCancel =>
  }
}
