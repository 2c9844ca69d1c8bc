/** Schedule independence: if every commit's outputs are a fixed function of the
  * node and its inputs, and nothing is injected, then each interleaving of
  * claims, failures, expiries, renewals and commits commits what the evaluator
  * computes, and a completed run's answer is the program's. It is enough that
  * commits agree with the function port for port. */
module Convergence {
  import opened Base
  import opened Types
  import opened Scheduler
  import opened Moves
  import opened Safety
  import opened Accounting
  import opened Assemblies
  import opened Evaluator

  /** Commits supply on every port what the behaviour does; inputs stay as started. */
  ghost predicate Follows(p: Program, slot: RunSlot, m: Move) {
    && !m.MInject?
    && (m.MCommit? && m.id in slot.claimed ==>
          SamePorts(m.outputs, p.f(slot.claimed[m.id].node, slot.claimed[m.id].inputs)))
  }

  ghost predicate FollowingRun(p: Program, start: RunLog, steps: seq<Step>) {
    forall i :: 0 <= i < |steps| ==> Follows(p, RunSteps(start, steps[..i]).slot, steps[i].move)
  }

  /** Commits are the behaviour's, output for output. */
  ghost predicate Faithful(p: Program, log: RunLog, m: Move) {
    && !m.MInject?
    && (m.MCommit? && m.id in log.slot.claimed ==>
          m.outputs == p.f(log.slot.claimed[m.id].node, log.slot.claimed[m.id].inputs))
  }

  ghost predicate FaithfulRun(p: Program, start: RunLog, steps: seq<Step>) {
    forall i :: 0 <= i < |steps| ==> Faithful(p, RunSteps(start, steps[..i]), steps[i].move)
  }

  ghost predicate Runs(p: Program, run: Run) {
    run.assembly == p.assembly && run.inputs == p.inputs
  }

  /** The derivation is the evaluator's, output for output. */
  ghost predicate AsEvaluated(p: Program, d: Derivation)
    requires Ranked(p)
  {
    EvalInputs(p, d.node) == Some(d.inputs) && EvalNode(p, d.node) == Some(d.outputs)
  }

  /** The derivation is the evaluator's, port for port. */
  ghost predicate PortsEvaluated(p: Program, d: Derivation)
    requires Ranked(p)
  {
    && EvalInputs(p, d.node) == Some(d.inputs)
    && EvalNode(p, d.node).Some? && SamePorts(d.outputs, EvalNode(p, d.node).value)
  }

  ghost predicate LatestEvaluated(p: Program, slot: RunSlot)
    requires Ranked(p)
  {
    forall n :: n in slot.latest ==>
      slot.latest[n].node.id == n && slot.latest[n].node in p.assembly.nodes && PortsEvaluated(p, slot.latest[n])
  }

  ghost predicate ClaimsEvaluated(p: Program, slot: RunSlot)
    requires Ranked(p)
  {
    forall id :: id in slot.claimed ==> EvalInputs(p, slot.claimed[id].node) == Some(slot.claimed[id].inputs)
  }

  ghost predicate AnswerEvaluated(p: Program, run: Run)
    requires Ranked(p)
  {
    && (run.answer.Some? ==> run.answer == Answer(p))
    && (run.state == Completed ==> run.answer.Some?)
  }

  ghost predicate Converging(p: Program, log: RunLog)
    requires Ranked(p)
  {
    && Runs(p, log.slot.run) && LatestEvaluated(p, log.slot) && ClaimsEvaluated(p, log.slot)
    && AnswerEvaluated(p, log.slot.run)
    && (forall i :: 0 <= i < |log.derivations| ==> PortsEvaluated(p, log.derivations[i]))
  }

  lemma SameNode(nodes: seq<AssemblyNode>, node: AssemblyNode)
    requires DistinctNodeIds(nodes) && node in nodes
    ensures FindNode(nodes, node.id) == Some(node)
  {
  }

  lemma BindingEvaluated(p: Program, slot: RunSlot, b: Binding)
    requires Ranked(p) && DistinctNodeIds(p.assembly.nodes)
    requires Runs(p, slot.run) && LatestEvaluated(p, slot) && b in p.assembly.bindings
    requires ResolveBinding(slot.run.inputs, slot.latest, b).Some?
    ensures EvalBinding(p, b) == ResolveBinding(slot.run.inputs, slot.latest, b)
  {
    if b.input == "" {
      SameNode(p.assembly.nodes, slot.latest[b.fromNode].node);
    }
  }

  lemma {:induction false} InputsEvaluated(p: Program, slot: RunSlot, node: string, bs: seq<Binding>)
    requires Ranked(p) && DistinctNodeIds(p.assembly.nodes)
    requires Runs(p, slot.run) && LatestEvaluated(p, slot)
    requires forall b :: b in bs ==> b in p.assembly.bindings && b.toNode == node
    requires ResolveAll(slot.run.inputs, slot.latest, bs).Some?
    ensures EvalAll(p, node, bs) == ResolveAll(slot.run.inputs, slot.latest, bs)
  {
    if bs != [] {
      assert bs[0] in bs;
      assert ResolveBinding(slot.run.inputs, slot.latest, bs[0]).Some?;
      BindingEvaluated(p, slot, bs[0]);
      InputsEvaluated(p, slot, node, bs[1..]);
    }
  }

  lemma TakeConverges(p: Program, world: World, log: RunLog, c: Candidate, now: int)
    requires Ranked(p) && Converging(p, log) && DistinctNodeIds(p.assembly.nodes)
    requires IsReady(world.modules, log.slot, c)
    ensures Converging(p, Apply(log, MTake(c, now)))
  {
    InputsEvaluated(p, log.slot, c.node.id, BoundTo(log.slot, c.node));
    assert EvalInputs(p, c.node) == Some(c.inputs);
    var slot' := Take(log.slot, c, now);
    assert ClaimsEvaluated(p, slot');
  }

  lemma CommitEvaluated(p: Program, slot: RunSlot, id: WorkId, outputs: seq<NamedArtifact>)
    requires Ranked(p) && ClaimsEvaluated(p, slot) && id in slot.claimed
    requires SamePorts(outputs, p.f(slot.claimed[id].node, slot.claimed[id].inputs))
    ensures PortsEvaluated(p, DerivationOf(slot.claimed[id], outputs))
  {
    var item := slot.claimed[id];
    assert EvalNode(p, item.node) == Some(p.f(item.node, item.inputs));
  }

  lemma CommitAnswers(p: Program, run: Run, d: Derivation)
    requires Ranked(p) && AnswerEvaluated(p, run) && PortsEvaluated(p, d) && run.assembly == p.assembly
    requires run.state == Running && DistinctNodeIds(p.assembly.nodes) && d.node in p.assembly.nodes
    ensures AnswerEvaluated(p, Advance(run, d.node.id, d.outputs))
  {
    hide EvalNode, EvalInputs;
    SameNode(p.assembly.nodes, d.node);
  }

  lemma CommitConverges(p: Program, log: RunLog, id: WorkId, outputs: seq<NamedArtifact>)
    requires Ranked(p) && Converging(p, log) && DistinctNodeIds(p.assembly.nodes)
    requires id in log.slot.claimed && log.slot.claimed[id].node in p.assembly.nodes
    requires log.slot.run.state == Running
    requires SamePorts(outputs, p.f(log.slot.claimed[id].node, log.slot.claimed[id].inputs))
    ensures Converging(p, CommitUnit(log, id, outputs))
  {
    hide PortsEvaluated, AnswerEvaluated, EvalInputs, Advance, SamePorts;
    CommitEvaluated(p, log.slot, id, outputs);
    CommitAnswers(p, log.slot.run, DerivationOf(log.slot.claimed[id], outputs));
    AdvanceFrame(log.slot.run, log.slot.claimed[id].node.id, outputs);
  }

  lemma AdvanceFrame(run: Run, node: string, outputs: seq<NamedArtifact>)
    ensures var run' := Advance(run, node, outputs); run'.assembly == run.assembly && run'.inputs == run.inputs
  {
  }

  lemma ConvergingKept(p: Program, world: World, log: RunLog, m: Move)
    requires Ranked(p) && Converging(p, log) && DistinctNodeIds(p.assembly.nodes)
    requires Safe(log.slot) && Enabled(world, log.slot, m) && Follows(p, log.slot, m)
    ensures Converging(p, Apply(log, m))
  {
    match m
    case MTake(c, now) => TakeConverges(p, world, log, c, now);
    case MCommit(id, outputs) => CommitConverges(p, log, id, outputs);
    case MRenew(id, until) => assert ClaimsEvaluated(p, Apply(log, m).slot);
    case MDrop(id, terminal) => assert ClaimsEvaluated(p, Apply(log, m).slot);
    case _ =>
  }

  lemma {:induction false} AlwaysConverging(p: Program, start: RunLog, steps: seq<Step>)
    requires Ranked(p) && Fresh(start) && Runs(p, start.slot.run)
    requires IsRun(start, steps) && FollowingRun(p, start, steps)
    ensures Converging(p, RunSteps(start, steps))
  {
    if steps != [] {
      var n := |steps| - 1;
      var front := steps[..n];
      forall i | 0 <= i < n
        ensures Follows(p, RunSteps(start, front[..i]).slot, front[i].move)
      {
        assert front[..i] == steps[..i];
      }
      AlwaysConverging(p, start, front);
      AlwaysSafe(start, front);
      FrozenRun(start, front);
      assert Follows(p, RunSteps(start, front).slot, steps[n].move);
      ConvergingKept(p, steps[n].world, RunSteps(start, front), steps[n].move);
    }
  }

  /** Whatever the interleaving, port for port: each derivation supplies what the
    * evaluator computes, and a completed run answers what the program answers. */
  lemma PortsIndependent(p: Program, start: RunLog, steps: seq<Step>)
    requires Ranked(p) && Fresh(start) && Runs(p, start.slot.run)
    requires IsRun(start, steps) && FollowingRun(p, start, steps)
    ensures var end := RunSteps(start, steps);
      && (forall i :: 0 <= i < |end.derivations| ==> PortsEvaluated(p, end.derivations[i]))
      && (end.slot.run.state == Completed ==> end.slot.run.answer.Some? && end.slot.run.answer == Answer(p))
  {
    AlwaysConverging(p, start, steps);
  }

  // ---------------------------------------------------------------- output for output

  lemma FaithfulFollows(p: Program, start: RunLog, steps: seq<Step>)
    requires FaithfulRun(p, start, steps)
    ensures FollowingRun(p, start, steps)
  {
    forall i | 0 <= i < |steps|
      ensures Follows(p, RunSteps(start, steps[..i]).slot, steps[i].move)
    {
      assert Faithful(p, RunSteps(start, steps[..i]), steps[i].move);
    }
  }

  lemma {:induction false} AlwaysLiteral(p: Program, start: RunLog, steps: seq<Step>)
    requires Fresh(start) && FaithfulRun(p, start, steps)
    ensures forall d :: d in RunSteps(start, steps).derivations ==> d.outputs == p.f(d.node, d.inputs)
  {
    if steps != [] {
      var n := |steps| - 1;
      var front := steps[..n];
      forall i | 0 <= i < n
        ensures Faithful(p, RunSteps(start, front[..i]), front[i].move)
      {
        assert front[..i] == steps[..i];
      }
      AlwaysLiteral(p, start, front);
      assert Faithful(p, RunSteps(start, front), steps[n].move);
    }
  }

  /** Whatever the interleaving: each derivation is the evaluator's, and a
    * completed run answers what the program answers. */
  lemma ScheduleIndependence(p: Program, start: RunLog, steps: seq<Step>)
    requires Ranked(p) && Fresh(start) && Runs(p, start.slot.run)
    requires IsRun(start, steps) && FaithfulRun(p, start, steps)
    ensures var end := RunSteps(start, steps);
      && (forall i :: 0 <= i < |end.derivations| ==> AsEvaluated(p, end.derivations[i]))
      && (end.slot.run.state == Completed ==> end.slot.run.answer.Some? && end.slot.run.answer == Answer(p))
  {
    FaithfulFollows(p, start, steps);
    PortsIndependent(p, start, steps);
    AlwaysLiteral(p, start, steps);
    var ds := RunSteps(start, steps).derivations;
    forall i | 0 <= i < |ds|
      ensures AsEvaluated(p, ds[i])
    {
      assert PortsEvaluated(p, ds[i]) && ds[i] in ds;
    }
  }

  /** Two runs of one program, however differently scheduled, agree on every
    * node both have committed and on the answer when both complete. */
  lemma RunsAgree(p: Program, a: RunLog, stepsA: seq<Step>, b: RunLog, stepsB: seq<Step>, i: nat, j: nat)
    requires Ranked(p)
    requires Fresh(a) && Runs(p, a.slot.run) && IsRun(a, stepsA) && FaithfulRun(p, a, stepsA)
    requires Fresh(b) && Runs(p, b.slot.run) && IsRun(b, stepsB) && FaithfulRun(p, b, stepsB)
    requires i < |RunSteps(a, stepsA).derivations| && j < |RunSteps(b, stepsB).derivations|
    ensures var x, y := RunSteps(a, stepsA), RunSteps(b, stepsB);
      && (x.derivations[i].node == y.derivations[j].node ==>
            && x.derivations[i].inputs == y.derivations[j].inputs
            && x.derivations[i].outputs == y.derivations[j].outputs)
      && (x.slot.run.state == Completed && y.slot.run.state == Completed ==> x.slot.run.answer == y.slot.run.answer)
  {
    ScheduleIndependence(p, a, stepsA);
    ScheduleIndependence(p, b, stepsB);
    assert AsEvaluated(p, RunSteps(a, stepsA).derivations[i]) && AsEvaluated(p, RunSteps(b, stepsB).derivations[j]);
  }

  // ---------------------------------------------------------------- call by call

  /** The call commits, if anything, what the behaviour computes, port for port. */
  ghost predicate CallFollows(p: Program, slot: RunSlot, call: RunCall) {
    && !call.RInject?
    && (call.RCommit? && call.id in slot.claimed ==>
          SamePorts(call.outputs, p.f(slot.claimed[call.id].node, slot.claimed[call.id].inputs)))
  }

  ghost predicate SafelyConverging(p: Program, log: RunLog)
    requires Ranked(p)
  {
    Converging(p, log) && Safe(log.slot)
  }

  /** A call that follows the program keeps its run converging. */
  lemma ServeConverges(p: Program, world: World, log: RunLog, call: RunCall)
    requires Ranked(p) && Converging(p, log) && Safe(log.slot) && DistinctNodeIds(p.assembly.nodes)
    requires Accepted(world, log, call) && CallFollows(p, log.slot, call)
    ensures Converging(p, Serve(world, log, call))
  {
    var inv := (l: RunLog) => SafelyConverging(p, l);
    forall l: RunLog, m | inv(l) && Enabled(world, l.slot, m) && Makes(log.slot, call, l.slot, m)
      ensures inv(Apply(l, m))
    {
      assert Follows(p, l.slot, m) by {
        if m.MCommit? && m.id in l.slot.claimed {
          assert l.slot.claimed[m.id].(leaseUntil := 0) == log.slot.claimed[m.id].(leaseUntil := 0);
        }
      }
      ConvergingKept(p, world, l, m);
      SafetyKept(world, l, m);
    }
    ServeKeeps(inv, world, log, call);
  }
}
