/** What has been done to a run since a host took it up, call by call, and what
  * follows when every commit was an execution or a memo hit on one. */
module Traces {
  import opened Base
  import opened Types
  import opened Scheduler
  import opened Moves
  import opened Safety
  import opened KernelRuns
  import opened Evaluator
  import opened Convergence
  import opened Steps

  /** How a run got where it is since the host took it up. */
  datatype Trace = TakenUp(world: World, log: RunLog) | Then(before: Trace, world: World, call: RunCall)

  function TracedLog(t: Trace): RunLog {
    match t
    case TakenUp(_, log) => log
    case Then(before, world, call) => Serve(world, TracedLog(before), call)
  }

  /** Every call was accepted, in a registry and store that only grew. */
  ghost predicate WellMade(t: Trace, r: string) {
    match t
    case TakenUp(world, log) => Genuine(world, r, log)
    case Then(before, world, call) =>
      WellMade(before, r) && Grows(before.world, world) && Accepted(world, TracedLog(before), call)
  }

  lemma {:induction false} WellMadeGenuine(t: Trace, r: string)
    requires WellMade(t, r)
    ensures Genuine(t.world, r, TracedLog(t))
  {
    match t
    case TakenUp(_, _) =>
    case Then(before, world, call) =>
      WellMadeGenuine(before, r);
      GenuineLater(before.world, world, r, TracedLog(before));
      GenuineServed(world, r, TracedLog(before), Some(call));
  }

  /** The run as it stands is the outcome of a well-made trace. */
  ghost predicate Traced(t: Trace, r: string, world: World, log: RunLog) {
    WellMade(t, r) && TracedLog(t) == log && Grows(t.world, world)
  }

  lemma TracedGenuine(t: Trace, r: string, world: World, log: RunLog)
    requires Traced(t, r, world, log)
    ensures Genuine(world, r, log)
  {
    WellMadeGenuine(t, r);
    GenuineLater(t.world, world, r, log);
  }

  lemma TracedDriveable(t: Trace, r: string, world: World, log: RunLog) returns (base: World)
    requires Traced(t, r, world, log)
    ensures Driveable(base, world, r, log)
  {
    TracedGenuine(t, r, world, log);
    base := GenuineDriveable(world, r, log);
  }

  lemma TracedCall(t: Trace, r: string, world: World, log: RunLog, call: RunCall)
    requires Traced(t, r, world, log) && Accepted(world, log, call)
    ensures Traced(Then(t, world, call), r, world, Serve(world, log, call))
  {
  }

  lemma TracedPut(t: Trace, r: string, world: World, log: RunLog, o: StepArtifact)
    requires Traced(t, r, world, log)
    ensures Traced(t, r, Put(world, o), log)
  {
    PutGrows(world, o);
    GrowsTransitive(t.world, world, Put(world, o));
  }

  // ---------------------------------------------------------------- honest calls

  /** Nothing is injected, and a commit is an execution of its unit or a hit on it. */
  ghost predicate Honest(plugins: Plugins, slot: RunSlot, call: RunCall) {
    && !call.RInject?
    && (call.RCommit? && call.id in slot.claimed ==>
          AsExecuted(plugins, slot.claimed[call.id].node, slot.claimed[call.id].inputs, call.outputs))
  }

  /** From `t` to `t'` there were only honest calls. */
  ghost predicate Continues(plugins: Plugins, t: Trace, t': Trace)
    decreases t'
  {
    t' == t || (t'.Then? && Continues(plugins, t, t'.before) && Honest(plugins, TracedLog(t'.before).slot, t'.call))
  }

  lemma {:induction false} ContinuesTransitive(plugins: Plugins, a: Trace, b: Trace, c: Trace)
    requires Continues(plugins, a, b) && Continues(plugins, b, c)
    ensures Continues(plugins, a, c)
    decreases c
  {
    if c != b {
      ContinuesTransitive(plugins, a, b, c.before);
    }
  }

  /** The trace as it was when the host took the run up. */
  function TakenUpAs(t: Trace): (r: Trace)
    ensures r.TakenUp?
  {
    match t
    case TakenUp(_, _) => t
    case Then(before, _, _) => TakenUpAs(before)
  }

  lemma {:induction false} ContinuesFromStart(plugins: Plugins, t: Trace, t': Trace)
    requires Continues(plugins, t, t')
    ensures TakenUpAs(t') == TakenUpAs(t)
    decreases t'
  {
    if t' != t {
      ContinuesFromStart(plugins, t, t'.before);
    }
  }

  // ---------------------------------------------------------------- what honest calls add

  /** Derivations were only added, and each is an execution or a hit on one. */
  ghost predicate Adds(plugins: Plugins, log: RunLog, log': RunLog) {
    && log.derivations <= log'.derivations
    && forall i :: |log.derivations| <= i < |log'.derivations| ==>
         var d := log'.derivations[i]; AsExecuted(plugins, d.node, d.inputs, d.outputs)
  }

  lemma AddsTransitive(plugins: Plugins, a: RunLog, b: RunLog, c: RunLog)
    requires Adds(plugins, a, b) && Adds(plugins, b, c)
    ensures Adds(plugins, a, c)
  {
    forall i | |a.derivations| <= i < |c.derivations|
      ensures var d := c.derivations[i]; AsExecuted(plugins, d.node, d.inputs, d.outputs)
    {
      if i < |b.derivations| {
        assert b.derivations[i] == c.derivations[i];
      }
    }
  }

  lemma ServeAdds(plugins: Plugins, world: World, log: RunLog, call: RunCall)
    requires Honest(plugins, log.slot, call)
    ensures Adds(plugins, log, Serve(world, log, call))
  {
    if call.RCommit? {
      CommitAdds(plugins, world, log, call);
    }
  }

  lemma CommitAdds(plugins: Plugins, world: World, log: RunLog, call: RunCall)
    requires Honest(plugins, log.slot, call) && call.RCommit?
    ensures Adds(plugins, log, Serve(world, log, call))
  {
    hide StallIfIdle, CommitFault, AsExecuted, Advance;
    var reaped := Reap(log.slot, call.now);
    var log' := Serve(world, log, call);
    if CommitFault(world, reaped, call.id, call.nodeId, call.outputs).None? {
      assert call.id in reaped.claimed by { FaultlessHeld(world, reaped, call.id, call.nodeId, call.outputs); }
      assert reaped.claimed[call.id] == log.slot.claimed[call.id];
      assert log'.derivations == log.derivations + [DerivationOf(log.slot.claimed[call.id], call.outputs)];
    } else {
      assert log'.derivations == log.derivations;
    }
  }

  lemma FaultlessHeld(world: World, slot: RunSlot, id: WorkId, nodeId: string, outputs: seq<NamedArtifact>)
    requires CommitFault(world, slot, id, nodeId, outputs).None?
    ensures id in slot.claimed
  {
  }

  /** Work done between two moments: only honest calls, so only executions and
    * hits on them were committed. */
  ghost predicate Worked(plugins: Plugins, t: Trace, log: RunLog, t': Trace, log': RunLog) {
    Continues(plugins, t, t') && Adds(plugins, log, log')
  }

  lemma WorkedOn(plugins: Plugins, a: Trace, x: RunLog, b: Trace, y: RunLog, c: Trace, z: RunLog)
    requires Worked(plugins, a, x, b, y) && Worked(plugins, b, y, c, z)
    ensures Worked(plugins, a, x, c, z)
  {
    ContinuesTransitive(plugins, a, b, c);
    AddsTransitive(plugins, x, y, z);
  }

  lemma WorkedNone(plugins: Plugins, t: Trace, log: RunLog)
    ensures Worked(plugins, t, log, t, log)
  {
  }

  lemma WorkedCall(plugins: Plugins, t: Trace, world: World, log: RunLog, call: RunCall)
    requires TracedLog(t) == log && Honest(plugins, log.slot, call)
    ensures Worked(plugins, t, log, Then(t, world, call), Serve(world, log, call))
  {
    ServeAdds(plugins, world, log, call);
    assert Continues(plugins, t, t);
  }

  // ---------------------------------------------------------------- and what they mean

  lemma HonestFollows(p: Program, plugins: Plugins, slot: RunSlot, call: RunCall)
    requires Means(p, plugins) && SingleValued(plugins, p.assembly) && Honest(plugins, slot, call)
    requires ClaimsNamed(slot) && slot.run.assembly == p.assembly
    ensures CallFollows(p, slot, call)
  {
    if call.RCommit? && call.id in slot.claimed {
      var w := slot.claimed[call.id];
      UnitTransparent(plugins, p.assembly, w.node, w.inputs, call.outputs);
    }
  }

  /** Honest work on a run of the program keeps it converging: memo hits or not,
    * every port of every node gets what the evaluator computes. */
  lemma {:induction false} WorkConverges(p: Program, plugins: Plugins, r: string, t: Trace, t': Trace)
    requires Ranked(p) && Means(p, plugins) && SingleValued(plugins, p.assembly)
    requires WellMade(t', r) && Continues(plugins, t, t') && Converging(p, TracedLog(t))
    ensures Converging(p, TracedLog(t'))
    decreases t'
  {
    if t' != t {
      var log := TracedLog(t'.before);
      WorkConverges(p, plugins, r, t, t'.before);
      WellMadeGenuine(t'.before, r);
      var base := GenuineDriveable(t'.before.world, r, log);
      HonestFollows(p, plugins, log.slot, t'.call);
      ServeConverges(p, t'.world, log, t'.call);
    }
  }
}
