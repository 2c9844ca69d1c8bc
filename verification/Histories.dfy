/** The scheduler's theorems about whole runs, said of a kernel: after any
  * history of calls, from any callers, interleaved over any runs. A demand on a
  * run's callers is a rule on the calls made since the run was started. */
module Histories {
  import opened Base
  import opened Types
  import opened Scheduler
  import opened Moves
  import opened Safety
  import opened Accounting
  import opened Assemblies
  import opened Provenance
  import opened NoStall
  import opened Evaluator
  import opened Convergence
  import opened Kernel
  import opened KernelRuns

  type CallRule = (State, Call) -> bool

  /** Every call made once the run `r` is there obeys the rule. */
  ghost predicate Throughout(config: Config, calls: seq<Call>, r: string, rule: CallRule) {
    calls == [] ||
    (var front := calls[..|calls| - 1];
     Throughout(config, front, r, rule)
     && (r in After(config, front).runs ==> rule(After(config, front), calls[|calls| - 1])))
  }

  // ---------------------------------------------------------------- one more call

  ghost predicate InGoodOrder(state: State, r: string) {
    && r in state.runs && state.runs[r].run.id == r && DistinctNodeIds(state.runs[r].run.assembly.nodes)
    && Safe(state.runs[r]) && Accounted(LogOf(state, r)) && Acyclic(state.runs[r].run.assembly.bindings)
  }

  lemma RunInOrder(config: Config, calls: seq<Call>, r: string)
    requires r in After(config, calls).runs
    ensures InGoodOrder(After(config, calls), r)
  {
    HistoryIsGenuine(config, calls);
    var state := After(config, calls);
    var base: World, start: RunLog :| Origin(WorldOf(state), r, LogOf(state, r), base, start);
    OriginSound(WorldOf(state), r, LogOf(state, r), base, start);
    var steps: seq<Step> :| Leads(FromBase(base), WorldOf(state), start, steps, LogOf(state, r));
    FrozenRun(start, steps);
  }

  /** What the last call does to a run that is already there. */
  lemma LastCall(config: Config, calls: seq<Call>, r: string)
    requires calls != [] && r in After(config, calls[..|calls| - 1]).runs
    ensures var state, state', call := After(config, calls[..|calls| - 1]), After(config, calls), calls[|calls| - 1];
      && InGoodOrder(state, r) && r in state'.runs && Grows(WorldOf(state), WorldOf(state'))
      && LogOf(state', r) == Served(WorldOf(state), LogOf(state, r), CallOn(call, r))
  {
    var front := calls[..|calls| - 1];
    RunInOrder(config, front, r);
    HistoryIsGenuine(config, front);
    GenuineOwned(After(config, front));
    DoRefines(config, After(config, front), calls[|calls| - 1]);
  }

  lemma StartsFresh(world: World, req: RunRequest, assembly: Assembly)
    requires ValidAssembly(world, assembly, req.inputs)
    ensures var log := RunLog(FreshSlot(req, assembly), []);
      Fresh(log) && log.slot.run.assembly == assembly && log.slot.run.inputs == req.inputs
  {
  }

  /** A run that was not there before the last call is as it starts. */
  lemma FirstCall(config: Config, calls: seq<Call>, r: string)
    requires calls != [] && r !in After(config, calls[..|calls| - 1]).runs && r in After(config, calls).runs
    ensures var state, state' := After(config, calls[..|calls| - 1]), After(config, calls);
      && Fresh(LogOf(state', r)) && WorldOf(state') == WorldOf(state)
      && ValidAssembly(WorldOf(state), state'.runs[r].run.assembly, state'.runs[r].run.inputs)
  {
    hide Materialize, StartFault, StartRun, WorldOf, Fresh, FreshSlot, ValidAssembly;
    var state, call := After(config, calls[..|calls| - 1]), calls[|calls| - 1];
    HistoryIsGenuine(config, calls[..|calls| - 1]);
    OnlyStartAddsRuns(config, state, call, r);
    Startable(state, call.request);
    var assembly := Materialize(call.request.assembly.value, call.request.includeNodes).value;
    StartedLog(state, call.request, assembly);
    StartsFresh(WorldOf(state), call.request, assembly);
  }

  ghost predicate SameFrame(slot: RunSlot, slot': RunSlot) {
    SameRun(slot, slot') && slot'.run.inputs == slot.run.inputs
  }

  lemma MoveKeepsFrame(slot: RunSlot, log: RunLog, m: Move)
    requires SameFrame(slot, log.slot) && !m.MInject?
    ensures SameFrame(slot, Apply(log, m).slot)
  {
    MoveFreezes(log, m);
  }

  lemma ServeFreezes(world: World, log: RunLog, call: RunCall)
    requires Accepted(world, log, call) && DistinctNodeIds(log.slot.run.assembly.nodes)
    ensures SameRun(log.slot, Serve(world, log, call).slot)
    ensures !call.RInject? ==> Serve(world, log, call).slot.run.inputs == log.slot.run.inputs
  {
    hide Apply;
    var slot := log.slot;
    if call.RInject? {
      MoveFreezes(log, MInject(call.input));
    } else {
      var inv := (l: RunLog) => SameFrame(slot, l.slot);
      forall l: RunLog, m | inv(l) && Enabled(world, l.slot, m) && Makes(slot, call, l.slot, m)
        ensures inv(Apply(l, m))
      {
        MoveKeepsFrame(slot, l, m);
      }
      ServeKeeps(inv, world, log, call);
    }
  }

  // ---------------------------------------------------------------- schedule independence

  /** Callers inject nothing into the run and commit what the program computes. */
  ghost function FollowsIn(p: Program, r: string): CallRule {
    (state: State, call: Call) =>
      r in state.runs && CallOn(call, r).Some? ==> CallFollows(p, state.runs[r], CallOn(call, r).value)
  }

  lemma InputsBefore(p: Program, world: World, log: RunLog, call: Option<RunCall>)
    requires DistinctNodeIds(log.slot.run.assembly.nodes) && (call.Some? ==> !call.value.RInject?)
    requires Runs(p, Served(world, log, call).slot.run)
    ensures Runs(p, log.slot.run)
  {
    if call.Some? && Accepted(world, log, call.value) {
      ServeFreezes(world, log, call.value);
    }
  }

  lemma ServedConverges(p: Program, world: World, log: RunLog, call: Option<RunCall>)
    requires Ranked(p) && Converging(p, log) && Safe(log.slot) && DistinctNodeIds(p.assembly.nodes)
    requires call.Some? ==> CallFollows(p, log.slot, call.value)
    ensures Converging(p, Served(world, log, call))
  {
    if call.Some? && Accepted(world, log, call.value) {
      ServeConverges(p, world, log, call.value);
    }
  }

  lemma FreshConverges(p: Program, log: RunLog)
    requires Ranked(p) && Fresh(log) && Runs(p, log.slot.run)
    ensures Converging(p, log)
  {
  }

  lemma {:induction false} StaysConverging(config: Config, calls: seq<Call>, r: string, p: Program)
    requires Ranked(p) && r in After(config, calls).runs && Runs(p, After(config, calls).runs[r].run)
    requires Throughout(config, calls, r, FollowsIn(p, r))
    ensures Converging(p, LogOf(After(config, calls), r))
  {
    hide Converging, Served;
    var front, call := calls[..|calls| - 1], CallOn(calls[|calls| - 1], r);
    if r in After(config, front).runs {
      var state := After(config, front);
      assert FollowsIn(p, r)(state, calls[|calls| - 1]);
      LastCall(config, calls, r);
      InputsBefore(p, WorldOf(state), LogOf(state, r), call);
      StaysConverging(config, front, r, p);
      ServedConverges(p, WorldOf(state), LogOf(state, r), call);
    } else {
      FirstCall(config, calls, r);
      FreshConverges(p, LogOf(After(config, calls), r));
    }
  }

  /** However calls on all runs interleave, a run whose commits follow a program
    * supplies on every port what the evaluator computes, and if it completes it
    * answers what the program answers. */
  lemma RunsConverge(config: Config, calls: seq<Call>, r: string, p: Program)
    requires Ranked(p) && r in After(config, calls).runs && Runs(p, After(config, calls).runs[r].run)
    requires Throughout(config, calls, r, FollowsIn(p, r))
    ensures var log := LogOf(After(config, calls), r);
      && Converging(p, log)
      && (forall i :: 0 <= i < |log.derivations| ==> PortsEvaluated(p, log.derivations[i]))
      && (log.slot.run.state == Completed ==> log.slot.run.answer.Some? && log.slot.run.answer == Answer(p))
  {
    StaysConverging(config, calls, r, p);
  }

  // ---------------------------------------------------------------- the world a run started in

  /** Registry and store when the run was started. */
  ghost function StartedIn(config: Config, calls: seq<Call>, r: string): World {
    if calls == [] then WorldOf(EmptyState)
    else
      var front := calls[..|calls| - 1];
      if r in After(config, front).runs then StartedIn(config, front, r) else WorldOf(After(config, front))
  }

  lemma {:induction false} StartedGrows(config: Config, calls: seq<Call>, r: string)
    requires r in After(config, calls).runs
    ensures Grows(StartedIn(config, calls, r), WorldOf(After(config, calls)))
  {
    hide WorldOf, InGoodOrder;
    var front := calls[..|calls| - 1];
    if r in After(config, front).runs {
      LastCall(config, calls, r);
      StartedGrows(config, front, r);
      GrowsTransitive(StartedIn(config, front, r), WorldOf(After(config, front)), WorldOf(After(config, calls)));
    } else {
      FirstCall(config, calls, r);
    }
  }

  // ---------------------------------------------------------------- typing

  ghost function FitsIn(base: World, r: string): CallRule {
    (state: State, call: Call) =>
      r in state.runs && CallOn(call, r).Some? ==>
        CallFits(base, WorldOf(state), state.runs[r].run.assembly, CallOn(call, r).value)
  }

  lemma ServedTyped(base: World, world: World, log: RunLog, call: Option<RunCall>)
    requires BindingsFit(base, log.slot.run.assembly) && Typed(base, world, log.slot) && Safe(log.slot)
    requires Grows(base, world) && (call.Some? ==> CallFits(base, world, log.slot.run.assembly, call.value))
    ensures Typed(base, world, Served(world, log, call).slot)
    ensures BindingsFit(base, Served(world, log, call).slot.run.assembly)
  {
    if call.Some? && Accepted(world, log, call.value) {
      ServeTyped(base, world, log, call.value);
      ServeFreezes(world, log, call.value);
    }
  }

  lemma StartTyped(base: World, log: RunLog)
    requires Fresh(log) && ValidAssembly(base, log.slot.run.assembly, log.slot.run.inputs)
    ensures Typed(base, base, log.slot) && BindingsFit(base, log.slot.run.assembly)
  {
    FreshTyped(base, log);
    ValidFits(base, log.slot.run.assembly, log.slot.run.inputs);
  }

  /** If what is injected into a run fits the ports it is bound to, then at every
    * moment all inputs of its claimed work carry the traits their ports require,
    * by the registry as it was when the run was started. */
  lemma {:induction false} RunsTyped(config: Config, calls: seq<Call>, r: string)
    requires r in After(config, calls).runs
    requires Throughout(config, calls, r, FitsIn(StartedIn(config, calls, r), r))
    ensures var state, base := After(config, calls), StartedIn(config, calls, r);
      Typed(base, WorldOf(state), state.runs[r]) && BindingsFit(base, state.runs[r].run.assembly)
  {
    hide Typed, BindingsFit, Served, WorldOf;
    var base, front, call := StartedIn(config, calls, r), calls[..|calls| - 1], CallOn(calls[|calls| - 1], r);
    if r in After(config, front).runs {
      var state, state' := After(config, front), After(config, calls);
      assert FitsIn(base, r)(state, calls[|calls| - 1]);
      LastCall(config, calls, r);
      StartedGrows(config, front, r);
      RunsTyped(config, front, r);
      ServedTyped(base, WorldOf(state), LogOf(state, r), call);
      TypedGrows(base, WorldOf(state), WorldOf(state'), state'.runs[r]);
    } else {
      FirstCall(config, calls, r);
      StartTyped(base, LogOf(After(config, calls), r));
    }
  }

  // ---------------------------------------------------------------- no spurious stall

  /** No lease of the run lapses at its last attempt, no unit is failed for good,
    * and commits supply every port somebody reads. */
  ghost function CooperatesIn(r: string): CallRule {
    (state: State, call: Call) =>
      r in state.runs && CallOn(call, r).Some? ==> CallCooperates(state.runs[r], CallOn(call, r).value)
  }

  /** What `start_run` has to be asked for: nodes that fire once, a closing
    * policy, and a step per node. */
  ghost predicate AllOnce(base: World, run: Run) {
    FiresOnce(base, run) && !IsOpen(run) && |run.assembly.nodes| <= run.maxSteps
  }

  /** What is unambiguous later was so before. */
  lemma UnambiguousBefore(base: World, world: World, later: World, nodes: seq<AssemblyNode>)
    requires Grows(base, world) && Grows(world, later) && Unambiguous(base, later, nodes)
    requires forall n :: n in nodes ==> CapabilityFor(base.modules, n).Some?
    ensures Unambiguous(base, world, nodes)
  {
    forall n | n in nodes
      ensures CapabilityFor(world.modules, n) == CapabilityFor(base.modules, n)
    {
      CapabilityStable(base, world, n);
      if CapabilityFor(world.modules, n).None? {
        ProvidersGrow(base.modules, world.modules, n);
        ProvidersGrow(world.modules, later.modules, n);
        assert false;
      }
    }
  }

  lemma ServedHealthy(base: World, rank: map<string, nat>, world: World, log: RunLog, call: Option<RunCall>)
    requires Frozen(base, rank, log.slot.run) && Healthy(log.slot) && Safe(log.slot)
    requires Unambiguous(base, world, log.slot.run.assembly.nodes)
    requires call.Some? ==> CallCooperates(log.slot, call.value)
    ensures Healthy(Served(world, log, call).slot) && Frozen(base, rank, Served(world, log, call).slot.run)
  {
    if call.Some? && Accepted(world, log, call.value) {
      ServeHealthy(base, rank, world, log, call.value);
    }
  }

  lemma FrameBefore(world: World, log: RunLog, call: Option<RunCall>)
    requires DistinctNodeIds(log.slot.run.assembly.nodes)
    ensures SameRun(log.slot, Served(world, log, call).slot)
  {
    if call.Some? && Accepted(world, log, call.value) {
      ServeFreezes(world, log, call.value);
    }
  }

  lemma AllOnceBefore(base: World, slot: RunSlot, slot': RunSlot)
    requires SameRun(slot, slot') && AllOnce(base, slot'.run)
    ensures AllOnce(base, slot.run)
  {
  }

  lemma StartWell(base: World, rank: map<string, nat>, log: RunLog)
    requires Fresh(log) && ValidAssembly(base, log.slot.run.assembly, log.slot.run.inputs)
    requires AllOnce(base, log.slot.run) && IsRank(log.slot.run.assembly.bindings, rank)
    ensures Healthy(log.slot) && Frozen(base, rank, log.slot.run)
  {
    StartHealthy(base, rank, log);
  }

  lemma {:induction false} StaysHealthy(config: Config, calls: seq<Call>, r: string, rank: map<string, nat>)
    requires r in After(config, calls).runs && Throughout(config, calls, r, CooperatesIn(r))
    requires var state, base := After(config, calls), StartedIn(config, calls, r);
      var run := state.runs[r].run;
      && AllOnce(base, run) && IsRank(run.assembly.bindings, rank)
      && Unambiguous(base, WorldOf(state), run.assembly.nodes)
    ensures var state, base := After(config, calls), StartedIn(config, calls, r);
      Healthy(state.runs[r]) && Frozen(base, rank, state.runs[r].run)
  {
    hide Healthy, Frozen, Served, WorldOf, Unambiguous;
    var base, front, call := StartedIn(config, calls, r), calls[..|calls| - 1], CallOn(calls[|calls| - 1], r);
    if r in After(config, front).runs {
      var state, state' := After(config, front), After(config, calls);
      assert CooperatesIn(r)(state, calls[|calls| - 1]);
      LastCall(config, calls, r);
      StartedGrows(config, front, r);
      FrameBefore(WorldOf(state), LogOf(state, r), call);
      AllOnceBefore(base, state.runs[r], state'.runs[r]);
      UnambiguousBefore(base, WorldOf(state), WorldOf(state'), state.runs[r].run.assembly.nodes);
      StaysHealthy(config, front, r, rank);
      ServedHealthy(base, rank, WorldOf(state), LogOf(state, r), call);
    } else {
      FirstCall(config, calls, r);
      StartWell(base, rank, LogOf(After(config, calls), r));
    }
  }

  /** However calls on all runs interleave, a run whose nodes fire once and whose
    * callers cooperate never stalls or fails: it is running with work ready or
    * in somebody's hands, completed, or cancelled. */
  lemma RunsNeverStall(config: Config, calls: seq<Call>, r: string)
    requires r in After(config, calls).runs && Throughout(config, calls, r, CooperatesIn(r))
    requires var state, base := After(config, calls), StartedIn(config, calls, r);
      AllOnce(base, state.runs[r].run) && Unambiguous(base, WorldOf(state), state.runs[r].run.assembly.nodes)
    ensures var state := After(config, calls);
      var slot := state.runs[r];
      && slot.run.state in {Running, Completed, Cancelled}
      && (slot.run.state == Running ==> slot.claimed != map[] || AnyReady(state.modules, slot))
  {
    var state, base := After(config, calls), StartedIn(config, calls, r);
    RunInOrder(config, calls, r);
    var rank: map<string, nat> :| IsRank(state.runs[r].run.assembly.bindings, rank);
    StaysHealthy(config, calls, r, rank);
    if state.runs[r].run.state == Running {
      NeverShouldStall(base, rank, WorldOf(state), state.runs[r]);
    }
  }

  // ---------------------------------------------------------------- closed runs

  /** A closed run never changes again, whatever is called. */
  lemma {:induction false} ClosedForever(config: Config, calls: seq<Call>, more: seq<Call>, r: string)
    requires r in After(config, calls).runs && After(config, calls).runs[r].run.state != Running
    ensures r in After(config, calls + more).runs
    ensures LogOf(After(config, calls + more), r) == LogOf(After(config, calls), r)
    decreases |more|
  {
    if more == [] {
      assert calls + more == calls;
    } else {
      var all, front := calls + more, more[..|more| - 1];
      ClosedForever(config, calls, front, r);
      assert all[..|all| - 1] == calls + front;
      LastCall(config, all, r);
    }
  }

  /** Cancelling a run drops its claims and closes it for good; it keeps what it
    * has committed. A run that is not running is not touched. */
  lemma CancelCloses(config: Config, calls: seq<Call>, more: seq<Call>, r: string)
    requires r in After(config, calls).runs
    ensures var before := LogOf(After(config, calls), r);
      r in After(config, calls + [CCancel(r)] + more).runs &&
      var after := LogOf(After(config, calls + [CCancel(r)] + more), r);
      if before.slot.run.state == Running then
        after.slot.run.state == Cancelled && after.slot.claimed == map[] && after.derivations == before.derivations
        && after.slot.run.steps == before.slot.run.steps && after.slot.run.answer == before.slot.run.answer
        && after.slot.latest == before.slot.latest && after.slot.doneUnits == before.slot.doneUnits
      else after == before
  {
    var all := calls + [CCancel(r)];
    assert all[..|all| - 1] == calls;
    LastCall(config, all, r);
    ClosedForever(config, all, more, r);
  }
}
