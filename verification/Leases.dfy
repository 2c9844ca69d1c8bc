/** Who may commit a unit. A unit that is claimed again keeps its work id, and a
  * commit names nothing but the id: once somebody holds the unit anew, a commit
  * by the holder whose lease has lapsed is as good as one by the new holder. */
module Leases {
  import opened Base
  import opened Types
  import opened Scheduler
  import opened Moves
  import opened Accounting

  /** The move hands the unit of this id out. */
  ghost predicate HandsOut(runId: string, m: Move, id: WorkId) {
    m.MTake? && WorkId(runId, m.candidate.unit) == id
  }

  /** The move ends the lease on this id. */
  ghost predicate EndsLease(m: Move, id: WorkId) {
    ((m.MDrop? || m.MCommit?) && m.id == id) || m.MCancel?
  }

  /** From step `i` on the unit was handed out again, and that lease was not ended. */
  ghost predicate Reclaimed(runId: string, steps: seq<Step>, i: nat, id: WorkId) {
    exists j :: i <= j < |steps| && HandsOut(runId, steps[j].move, id) && StillHeld(steps, j, id)
  }

  ghost predicate StillHeld(steps: seq<Step>, j: nat, id: WorkId) {
    forall k :: j < k < |steps| ==> !EndsLease(steps[k].move, id)
  }

  lemma MoveHolds(log: RunLog, m: Move, id: WorkId)
    ensures id in Apply(log, m).slot.claimed
       <==> HandsOut(log.slot.run.id, m, id) || (id in log.slot.claimed && !EndsLease(m, id))
  {
  }

  lemma ReclaimedBefore(runId: string, steps: seq<Step>, s: Step, i: nat, id: WorkId)
    requires i <= |steps|
    ensures Reclaimed(runId, steps + [s], i, id)
       <==> HandsOut(runId, s.move, id) || (Reclaimed(runId, steps, i, id) && !EndsLease(s.move, id))
  {
    var longer, n := steps + [s], |steps|;
    if HandsOut(runId, s.move, id) {
      assert longer[n] == s && StillHeld(longer, n, id);
    }
    if Reclaimed(runId, steps, i, id) && !EndsLease(s.move, id) {
      var j :| i <= j < n && HandsOut(runId, steps[j].move, id) && StillHeld(steps, j, id);
      assert longer[j] == steps[j];
      assert StillHeld(longer, j, id);
    }
    if Reclaimed(runId, longer, i, id) && !HandsOut(runId, s.move, id) {
      var j :| i <= j < |longer| && HandsOut(runId, longer[j].move, id) && StillHeld(longer, j, id);
      assert j < n && longer[j] == steps[j] && longer[n] == s;
      forall k | j < k < n
        ensures !EndsLease(steps[k].move, id)
      {
        assert longer[k] == steps[k];
      }
      assert StillHeld(steps, j, id);
    }
  }

  /** After a lease has lapsed, the id is held if and only if it was handed out
    * again and that lease has not ended. */
  lemma {:induction false} HeldIffReclaimed(start: RunLog, steps: seq<Step>, i: nat, id: WorkId)
    requires i <= |steps| && id !in RunSteps(start, steps[..i]).slot.claimed
    ensures id in RunSteps(start, steps).slot.claimed <==> Reclaimed(start.slot.run.id, steps, i, id)
    decreases |steps|
  {
    if i == |steps| {
      assert steps[..i] == steps;
    } else {
      var front, last := steps[..|steps| - 1], steps[|steps| - 1];
      assert front[..i] == steps[..i] && steps == front + [last];
      HeldIffReclaimed(start, front, i, id);
      FrozenRun(start, front);
      MoveHolds(RunSteps(start, front), last.move, id);
      ReclaimedBefore(start.slot.run.id, front, last, i, id);
    }
  }

  /** A commit is refused as not claimed if and only if, after reaping, its id is
    * not held. */
  lemma ConflictIff(world: World, log: RunLog, id: WorkId, nodeId: string, outputs: seq<NamedArtifact>, now: int)
    ensures Commit(world, log, id, nodeId, outputs, now).1 == Some(Conflict)
       <==> !(id in log.slot.claimed && !Expired(log.slot.claimed[id], now))
  {
    var reaped := Reap(log.slot, now);
    if id in reaped.claimed {
      var cap := CapabilityFor(world.modules, reaped.claimed[id].node);
      if cap.Some? {
        FaultKinds(world.traits, cap.value, outputs);
      }
    }
  }

  /** The old holder's commit. In any run, after the lease on an id has lapsed, a
    * commit under that id gets past the refusal of work that is not claimed if and
    * only if the unit has been claimed again since, and that claim is neither
    * ended nor expired; nothing asks whose commit it is. */
  lemma StaleCommitIff(start: RunLog, steps: seq<Step>, i: nat, id: WorkId,
                       world: World, nodeId: string, outputs: seq<NamedArtifact>, now: int)
    requires i <= |steps| && id !in RunSteps(start, steps[..i]).slot.claimed
    ensures var log := RunSteps(start, steps);
      Commit(world, log, id, nodeId, outputs, now).1 != Some(Conflict)
      <==> Reclaimed(start.slot.run.id, steps, i, id)
           && id in log.slot.claimed && !Expired(log.slot.claimed[id], now)
  {
    HeldIffReclaimed(start, steps, i, id);
    ConflictIff(world, RunSteps(start, steps), id, nodeId, outputs, now);
  }
}
