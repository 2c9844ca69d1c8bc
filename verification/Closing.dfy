/** How runs close. An open run is never closed for want of work, nor by an answer;
  * a closing run is stalled as soon as a claim, a failure or a commit leaves it with
  * nothing to do, and only then. */
module Closing {
  import opened Base
  import opened Types
  import opened Scheduler
  import opened Moves
  import opened Safety
  import opened Accounting
  import opened Assemblies
  import opened Kernel
  import opened KernelRuns
  import opened Histories

  predicate AskedOpen(run: Run) {
    run.policy.Some? && run.policy.value.closure == Open
  }

  /** No claim, and no node with a unit that could be handed out. */
  ghost predicate NothingToDo(modules: seq<ModuleSlot>, slot: RunSlot) {
    slot.claimed == map[] && forall n :: n in slot.run.assembly.nodes ==> ReadyUnit(modules, slot, n).None?
  }

  // ---------------------------------------------------------------- stalled runs

  /** A stalled run was not asked to stay open, and has nothing to do. */
  ghost predicate StalledIdle(modules: seq<ModuleSlot>, slot: RunSlot) {
    slot.run.state == Stalled ==> !AskedOpen(slot.run) && NothingToDo(modules, slot)
  }

  lemma MoveStalls(world: World, log: RunLog, m: Move)
    requires Enabled(world, log.slot, m)
    ensures StalledIdle(world.modules, Apply(log, m).slot)
  {
    hide CommitAllowed, IsReady;
    if m.MStall? {
      NoneReady(world.modules, log.slot);
    }
  }

  lemma NoneReady(modules: seq<ModuleSlot>, slot: RunSlot)
    requires ShouldStall(modules, slot)
    ensures NothingToDo(modules, slot) && NothingToDo(modules, Stall(slot)) && !AskedOpen(slot.run)
  {
    forall n | n in slot.run.assembly.nodes
      ensures ReadyUnit(modules, slot, n).None? && ReadyUnit(modules, Stall(slot), n).None?
    {
      var i :| 0 <= i < |slot.run.assembly.nodes| && slot.run.assembly.nodes[i] == n;
      SameUnit(modules, slot, Stall(slot), n);
    }
  }

  lemma ServeStalls(world: World, log: RunLog, call: RunCall)
    requires Accepted(world, log, call) && DistinctNodeIds(log.slot.run.assembly.nodes)
    ensures StalledIdle(world.modules, Serve(world, log, call).slot)
  {
    var inv := (l: RunLog) => StalledIdle(world.modules, l.slot);
    forall l: RunLog, m | inv(l) && Enabled(world, l.slot, m) && Makes(log.slot, call, l.slot, m)
      ensures inv(Apply(l, m))
    {
      MoveStalls(world, l, m);
    }
    ServeKeeps(inv, world, log, call);
  }

  /** What could not be handed out cannot be after more modules are registered. */
  lemma StaysUnready(base: World, world: World, later: World, slot: RunSlot, n: AssemblyNode)
    requires Grows(base, world) && Grows(world, later) && CapabilityFor(base.modules, n).Some?
    requires ReadyUnit(world.modules, slot, n).None?
    ensures ReadyUnit(later.modules, slot, n).None?
  {
    if CapabilityFor(later.modules, n).Some? {
      ProvidersGrow(base.modules, world.modules, n);
      ProvidersGrow(world.modules, later.modules, n);
      assert CapabilityFor(world.modules, n) == CapabilityFor(later.modules, n);
    }
  }

  lemma StalledLater(base: World, world: World, later: World, slot: RunSlot)
    requires Grows(base, world) && Grows(world, later) && Capable(base, slot.run.assembly.nodes)
    requires StalledIdle(world.modules, slot)
    ensures StalledIdle(later.modules, slot)
  {
    if slot.run.state == Stalled {
      forall n | n in slot.run.assembly.nodes
        ensures ReadyUnit(later.modules, slot, n).None?
      {
        StaysUnready(base, world, later, slot, n);
      }
    }
  }

  /** In every history a stalled run is a closing one with no claim and no ready unit. */
  lemma {:induction false} StalledRunsIdle(config: Config, calls: seq<Call>, r: string)
    requires r in After(config, calls).runs
    ensures StalledIdle(After(config, calls).modules, After(config, calls).runs[r])
  {
    hide StalledIdle, Served, Fresh;
    var front, call := calls[..|calls| - 1], CallOn(calls[|calls| - 1], r);
    if r in After(config, front).runs {
      var state, state' := After(config, front), After(config, calls);
      StalledRunsIdle(config, front, r);
      LastCall(config, calls, r);
      ServedStalls(WorldOf(state), LogOf(state, r), call);
      var base, start, steps := StepsOf(config, front, r);
      FrameBefore(WorldOf(state), LogOf(state, r), call);
      StalledLater(base, WorldOf(state), WorldOf(state'), state'.runs[r]);
    } else {
      FirstCall(config, calls, r);
      FreshRuns(After(config, calls).modules, LogOf(After(config, calls), r));
    }
  }

  lemma FreshRuns(modules: seq<ModuleSlot>, log: RunLog)
    requires Fresh(log)
    ensures StalledIdle(modules, log.slot)
  {
  }

  lemma ServedStalls(world: World, log: RunLog, call: Option<RunCall>)
    requires StalledIdle(world.modules, log.slot) && DistinctNodeIds(log.slot.run.assembly.nodes)
    ensures StalledIdle(world.modules, Served(world, log, call).slot)
  {
    if call.Some? && Accepted(world, log, call.value) {
      ServeStalls(world, log, call.value);
    }
  }

  // ---------------------------------------------------------------- open runs

  lemma MoveStaysOpen(world: World, log: RunLog, m: Move)
    requires Enabled(world, log.slot, m) && AskedOpen(log.slot.run)
    ensures Apply(log, m).slot.run.state in {Running, RunState.Failed, Cancelled}
  {
    hide CommitAllowed, IsReady;
  }

  lemma {:induction false} AlwaysOpen(start: RunLog, steps: seq<Step>)
    requires Fresh(start) && IsRun(start, steps) && AskedOpen(start.slot.run)
    ensures RunSteps(start, steps).slot.run.state in {Running, RunState.Failed, Cancelled}
  {
    if steps != [] {
      hide Fresh, Enabled;
      var front, last := steps[..|steps| - 1], steps[|steps| - 1];
      FrozenRun(start, front);
      assert EnabledAfter(start, front, last);
      MoveStaysOpen(last.world, RunSteps(start, front), last.move);
    }
  }

  /** In every history, whatever it answers and however idle it is, an open run is
    * running, unless it was cancelled or has used up its steps. */
  lemma OpenRunsStayOpen(config: Config, calls: seq<Call>, r: string)
    requires r in After(config, calls).runs && AskedOpen(After(config, calls).runs[r].run)
    ensures After(config, calls).runs[r].run.state in {Running, RunState.Failed, Cancelled}
  {
    var base, start, steps := StepsOf(config, calls, r);
    AlwaysOpen(start, steps);
  }

  // ---------------------------------------------------------------- idle runs are closed

  lemma {:induction false} TakesHold(slot: RunSlot, cs: seq<Candidate>, now: int)
    ensures slot.claimed.Keys <= TakeAll(slot, cs, now).claimed.Keys
    ensures cs != [] ==> TakeAll(slot, cs, now).claimed != map[]
    decreases |cs|
  {
    if cs != [] {
      TakesHold(Take(slot, cs[0], now), cs[1..], now);
      assert WorkId(slot.run.id, cs[0].unit) in TakeAll(slot, cs, now).claimed;
    }
  }

  /** The run is closed, or was asked to stay open, or has something to do. */
  ghost predicate NotLeftIdle(modules: seq<ModuleSlot>, slot: RunSlot) {
    slot.run.state == Running && !AskedOpen(slot.run) ==>
      slot.claimed != map[] || exists n :: n in slot.run.assembly.nodes && ReadyUnit(modules, slot, n).Some?
  }

  lemma IdleIsStalled(modules: seq<ModuleSlot>, slot: RunSlot)
    ensures NotLeftIdle(modules, StallIfIdle(modules, slot))
  {
    if AnyReady(modules, slot) {
      var i :| 0 <= i < |slot.run.assembly.nodes| && ReadyUnit(modules, slot, slot.run.assembly.nodes[i]).Some?;
      assert slot.run.assembly.nodes[i] in slot.run.assembly.nodes;
    }
  }

  /** The kernel did what the call asked for. */
  ghost predicate Granted(state: State, call: Call) {
    match call
    case CClaim(req, now, order) => Claim(state, req, now, order).1.None?
    case CFail(r, id, reason, terminal, now, order) => Fail(state, r, id, reason, terminal, now, order).1.None?
    case CCommit(r, id, nodeId, outputs, now, order) => CommitWork(state, r, id, nodeId, outputs, now, order).1.None?
    case _ => false
  }

  lemma ClaimNotIdle(modules: seq<ModuleSlot>, slot: RunSlot, req: ClaimRequest, now: int)
    ensures NotLeftIdle(modules, ClaimReady(modules, slot, req, now))
  {
    hide ShouldStall, ReadyUnit;
    var reaped := Reap(slot, now);
    TakesHold(reaped, ChosenFor(modules, reaped, req), now);
    IdleIsStalled(modules, reaped);
  }

  lemma FailNotIdle(modules: seq<ModuleSlot>, slot: RunSlot, id: WorkId, terminal: bool, now: int)
    requires FailWork(modules, slot, id, terminal, now).1.None?
    ensures NotLeftIdle(modules, FailWork(modules, slot, id, terminal, now).0)
  {
    hide ShouldStall, ReadyUnit, StallIfIdle;
    IdleIsStalled(modules, Drop(Reap(slot, now), id, terminal));
  }

  lemma CommitNotIdle(world: World, log: RunLog, id: WorkId, nodeId: string, outputs: seq<NamedArtifact>, now: int)
    requires Commit(world, log, id, nodeId, outputs, now).1.None?
    ensures NotLeftIdle(world.modules, Commit(world, log, id, nodeId, outputs, now).0.slot)
  {
    hide ShouldStall, ReadyUnit, StallIfIdle;
    IdleIsStalled(world.modules, CommitUnit(log.(slot := Reap(log.slot, now)), id, outputs).slot);
  }

  lemma GrantedNotIdle(state: State, call: Call, r: string)
    requires Granted(state, call) && CallOn(call, r).Some? && r in state.runs
    ensures state.runs[r].run.state == Running
    ensures NotLeftIdle(state.modules, Serve(WorldOf(state), LogOf(state, r), CallOn(call, r).value).slot)
  {
    hide NotLeftIdle, ReadyUnit, CommitFault, StallIfIdle;
    match call
    case CClaim(req, now, _) => ClaimNotIdle(state.modules, state.runs[r], req, now);
    case CFail(_, id, _, terminal, now, _) => FailNotIdle(state.modules, state.runs[r], id, terminal, now);
    case CCommit(_, id, nodeId, outputs, now, _) =>
      CommitNotIdle(WorldOf(state), LogOf(state, r), id, nodeId, outputs, now);
  }

  lemma RunCallKeepsModules(config: Config, state: State, call: Call)
    requires call.CClaim? || call.CFail? || call.CCommit?
    ensures Do(config, state, call).modules == state.modules
  {
  }

  /** After a claim, failure or commit that the kernel grants, a closing run that is
    * still running has somebody at work or something to hand out. */
  lemma NeverLeftIdle(config: Config, calls: seq<Call>, call: Call, r: string)
    requires r in After(config, calls).runs && CallOn(call, r).Some? && Granted(After(config, calls), call)
    ensures r in After(config, calls + [call]).runs
    ensures NotLeftIdle(After(config, calls + [call]).modules, After(config, calls + [call]).runs[r])
  {
    hide NotLeftIdle, Serve, Granted;
    var state := After(config, calls);
    assert (calls + [call])[..|calls|] == calls;
    LastCall(config, calls + [call], r);
    GrantedNotIdle(state, call, r);
    assert call.CClaim? || call.CFail? || call.CCommit? by { GrantedKind(state, call); }
    RunCallKeepsModules(config, state, call);
  }

  lemma GrantedKind(state: State, call: Call)
    requires Granted(state, call)
    ensures call.CClaim? || call.CFail? || call.CCommit?
  {
  }

  // ---------------------------------------------------------------- how a run ends

  /** What the terminal node last put out on the terminal port. */
  function AnswerIn(assembly: Assembly, ds: seq<Derivation>): Option<string> {
    if ds == [] || assembly.terminal.None? then None
    else
      var last, terminal := ds[|ds| - 1], assembly.terminal.value;
      if last.node.id == terminal.node && ArtifactNamed(last.outputs, terminal.port).Some?
      then ArtifactNamed(last.outputs, terminal.port) else AnswerIn(assembly, ds[..|ds| - 1])
  }

  /** Which states a run can be in, and why: a run that was not asked to stay open has
    * completed exactly when it has an answer; it has failed when its steps are used up
    * without one, and an open run when they are used up; the reason says so. */
  ghost predicate Explained(log: RunLog) {
    var run := log.slot.run;
    && run.answer == AnswerIn(run.assembly, log.derivations)
    && (run.state == Completed <==> !AskedOpen(run) && run.answer.Some?)
    && (run.state == RunState.Failed ==> run.steps >= run.maxSteps)
    && run.reason == (match run.state
                      case Running => ""
                      case Completed => ""
                      case Stalled => "no node is ready and no work is in flight"
                      case Failed => "max_steps exhausted before the terminal output"
                      case Cancelled => "cancelled")
  }

  lemma CommitExplained(log: RunLog, id: WorkId, outputs: seq<NamedArtifact>)
    requires Explained(log) && id in log.slot.claimed && log.slot.run.state == Running
    ensures Explained(CommitUnit(log, id, outputs))
  {
    var d := DerivationOf(log.slot.claimed[id], outputs);
    assert (log.derivations + [d])[..|log.derivations|] == log.derivations;
  }

  lemma MoveExplained(world: World, log: RunLog, m: Move)
    requires Explained(log) && Enabled(world, log.slot, m)
    ensures Explained(Apply(log, m))
  {
    hide CommitFault, IsReady, AnyReady;
    if m.MCommit? {
      CommitExplained(log, m.id, m.outputs);
    }
  }

  lemma {:induction false} AlwaysExplained(start: RunLog, steps: seq<Step>)
    requires Fresh(start) && IsRun(start, steps)
    ensures Explained(RunSteps(start, steps))
  {
    if steps != [] {
      hide Fresh, Enabled, Explained;
      var front, last := steps[..|steps| - 1], steps[|steps| - 1];
      AlwaysExplained(start, front);
      assert EnabledAfter(start, front, last);
      MoveExplained(last.world, RunSteps(start, front), last.move);
    }
  }

  /** In every history, each run's answer, state and reason follow from what it has
    * committed and what was asked for. */
  lemma RunsAreExplained(config: Config, calls: seq<Call>, r: string)
    requires r in After(config, calls).runs
    ensures Explained(LogOf(After(config, calls), r))
  {
    hide Fresh, Explained;
    var base, start, steps := StepsOf(config, calls, r);
    AlwaysExplained(start, steps);
  }
}
