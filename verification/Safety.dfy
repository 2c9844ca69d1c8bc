/** What holds of a run's slot at every moment: nobody shares a unit, attempts
  * stay within their bound, and the step counter counts committed units. */
module Safety {
  import opened Base
  import opened Types
  import opened Scheduler
  import opened Moves

  // ---------------------------------------------------------------- a run as it starts

  ghost predicate Fresh(log: RunLog) {
    var slot := log.slot;
    && log.derivations == [] && slot.claimed == map[] && slot.latest == map[] && slot.doneUnits == {}
    && slot.claimAttempts == map[] && slot.nodeCommits == map[]
    && slot.run.state == Running && slot.run.answer == None && slot.run.steps == 0 && slot.run.reason == ""
    && slot.run.maxSteps > 0 && slot.maxAttempts > 0
    && DistinctNodeIds(slot.run.assembly.nodes)
  }

  // ---------------------------------------------------------------- the invariant

  /** Every claim sits under the id of its unit and is for a node of the run. */
  ghost predicate ClaimsNamed(slot: RunSlot) {
    forall id :: id in slot.claimed ==>
      && id == WorkId(slot.run.id, slot.claimed[id].unit) && slot.claimed[id].id == id
      && slot.claimed[id].unit.node == slot.claimed[id].node.id
      && slot.claimed[id].node in slot.run.assembly.nodes
  }

  ghost predicate ClaimsNotDone(slot: RunSlot) {
    forall id :: id in slot.claimed ==> slot.claimed[id].unit !in slot.doneUnits
  }

  ghost predicate ClaimsCounted(slot: RunSlot) {
    forall id :: id in slot.claimed ==>
      slot.claimed[id].unit in slot.claimAttempts
      && slot.claimed[id].attempt == slot.claimAttempts[slot.claimed[id].unit]
  }

  ghost predicate AttemptsBounded(slot: RunSlot) {
    && slot.maxAttempts > 0
    && (forall u :: u in slot.claimAttempts ==> 1 <= slot.claimAttempts[u] <= slot.maxAttempts)
    && (forall u :: u in slot.doneUnits ==> u in slot.claimAttempts)
  }

  /** A unit that has used its last attempt is in someone's hands or done. */
  ghost predicate LastAttemptSpent(slot: RunSlot) {
    slot.run.state == Running ==>
      forall u :: u in slot.claimAttempts && slot.claimAttempts[u] == slot.maxAttempts ==>
        u in slot.doneUnits || WorkId(slot.run.id, u) in slot.claimed
  }

  ghost predicate WithinFlight(slot: RunSlot) {
    slot.maxInFlight != 0 ==> |slot.claimed| <= slot.maxInFlight
  }

  ghost predicate Safe(slot: RunSlot) {
    && ClaimsNamed(slot) && ClaimsNotDone(slot) && ClaimsCounted(slot)
    && AttemptsBounded(slot) && LastAttemptSpent(slot) && WithinFlight(slot)
  }

  /** Two leases never hold the same unit. */
  lemma NoSharedUnit(slot: RunSlot, a: WorkId, b: WorkId)
    requires ClaimsNamed(slot) && a in slot.claimed && b in slot.claimed
    ensures slot.claimed[a].unit == slot.claimed[b].unit ==> a == b
  {
  }

  lemma ClaimedById(slot: RunSlot, u: UnitKey)
    requires ClaimsNamed(slot)
    ensures IsClaimed(slot, u) <==> WorkId(slot.run.id, u) in slot.claimed
  {
    if WorkId(slot.run.id, u) in slot.claimed {
      assert slot.claimed[WorkId(slot.run.id, u)].unit == u;
    }
  }

  // ---------------------------------------------------------------- kept by every move

  ghost predicate Takeable(slot: RunSlot, c: Candidate) {
    && c.node in slot.run.assembly.nodes && c.unit.node == c.node.id
    && c.unit !in slot.doneUnits && WorkId(slot.run.id, c.unit) !in slot.claimed
    && Lookup(slot.claimAttempts, c.unit, 0) < slot.maxAttempts
  }

  lemma ReadyIsNew(world: World, slot: RunSlot, c: Candidate)
    requires Safe(slot) && slot.run.state == Running && IsReady(world.modules, slot, c)
    requires c.node in slot.run.assembly.nodes
    ensures Takeable(slot, c)
  {
    ClaimedById(slot, c.unit);
  }

  lemma TakeClaims(slot: RunSlot, c: Candidate, now: int)
    requires Takeable(slot, c) && ClaimsNamed(slot) && ClaimsNotDone(slot) && ClaimsCounted(slot)
    ensures var slot' := Take(slot, c, now); ClaimsNamed(slot') && ClaimsNotDone(slot') && ClaimsCounted(slot')
  {
    var slot' := Take(slot, c, now);
    forall other | other in slot'.claimed && other != WorkId(slot.run.id, c.unit)
      ensures slot'.claimed[other] == slot.claimed[other] && slot.claimed[other].unit != c.unit
    {
    }
  }

  lemma TakeAttempts(slot: RunSlot, c: Candidate, now: int)
    requires Takeable(slot, c) && AttemptsBounded(slot) && LastAttemptSpent(slot)
    ensures AttemptsBounded(Take(slot, c, now)) && LastAttemptSpent(Take(slot, c, now))
  {
  }

  lemma TakeSafe(slot: RunSlot, c: Candidate, now: int)
    requires Safe(slot) && HasRoom(slot) && Takeable(slot, c)
    ensures Safe(Take(slot, c, now))
  {
    TakeClaims(slot, c, now);
    TakeAttempts(slot, c, now);
    TakeFlight(slot, c, now);
  }

  lemma TakeFlight(slot: RunSlot, c: Candidate, now: int)
    requires HasRoom(slot) && WorkId(slot.run.id, c.unit) !in slot.claimed
    ensures WithinFlight(Take(slot, c, now))
  {
    assert Take(slot, c, now).claimed.Keys == slot.claimed.Keys + {WorkId(slot.run.id, c.unit)};
  }

  lemma DropSafe(slot: RunSlot, id: WorkId, terminal: bool)
    requires Safe(slot) && id in slot.claimed
    ensures Safe(Drop(slot, id, terminal))
  {
    var slot' := Drop(slot, id, terminal);
    assert slot'.claimed.Keys == slot.claimed.Keys - {id};
    forall other | other in slot'.claimed
      ensures slot'.claimed[other] == slot.claimed[other] && slot.claimed[other].unit != slot.claimed[id].unit
    {
      NoSharedUnit(slot, other, id);
    }
    SubsetCardinality(slot'.claimed.Keys, slot.claimed.Keys);
  }

  lemma RenewSafe(slot: RunSlot, id: WorkId, until: int)
    requires Safe(slot) && id in slot.claimed
    ensures Safe(Renew(slot, id, until))
  {
    assert Renew(slot, id, until).claimed.Keys == slot.claimed.Keys;
  }

  /** Safety reads only these parts of a slot. */
  lemma SafeFrame(slot: RunSlot, slot': RunSlot)
    requires Safe(slot)
    requires slot'.run.id == slot.run.id && slot'.run.assembly == slot.run.assembly
    requires slot'.run.state == Running ==> slot.run.state == Running
    requires slot'.claimed == slot.claimed && slot'.doneUnits == slot.doneUnits
    requires slot'.claimAttempts == slot.claimAttempts
    requires slot'.maxInFlight == slot.maxInFlight && slot'.maxAttempts == slot.maxAttempts
    ensures Safe(slot')
  {
  }

  /** To claims, attempts and done units, a commit is a unit given up for good. */
  lemma CommitLikeDrop(log: RunLog, id: WorkId, outputs: seq<NamedArtifact>)
    requires id in log.slot.claimed
    ensures var dropped, slot' := Drop(log.slot, id, true), CommitUnit(log, id, outputs).slot;
      && slot'.run.id == dropped.run.id && slot'.run.assembly == dropped.run.assembly
      && slot'.claimed == dropped.claimed && slot'.doneUnits == dropped.doneUnits
      && slot'.claimAttempts == dropped.claimAttempts
      && slot'.maxInFlight == dropped.maxInFlight && slot'.maxAttempts == dropped.maxAttempts
  {
  }

  lemma CommitSafe(log: RunLog, id: WorkId, outputs: seq<NamedArtifact>)
    requires Safe(log.slot) && id in log.slot.claimed && log.slot.run.state == Running
    ensures Safe(CommitUnit(log, id, outputs).slot)
  {
    DropSafe(log.slot, id, true);
    CommitLikeDrop(log, id, outputs);
    SafeFrame(Drop(log.slot, id, true), CommitUnit(log, id, outputs).slot);
  }

  lemma CancelSafe(slot: RunSlot)
    requires Safe(slot)
    ensures Safe(Cancel(slot))
  {
  }

  lemma SafetyKept(world: World, log: RunLog, m: Move)
    requires Safe(log.slot) && Enabled(world, log.slot, m)
    ensures Safe(Apply(log, m).slot)
  {
    var slot := log.slot;
    match m
    case MTake(c, now) => ReadyIsNew(world, slot, c); TakeSafe(slot, c, now);
    case MRenew(id, until) => RenewSafe(slot, id, until);
    case MDrop(id, terminal) => DropSafe(slot, id, terminal);
    case MCommit(id, outputs) => CommitSafe(log, id, outputs);
    case MInject(input) => SafeFrame(slot, Inject(slot, input));
    case MStall => SafeFrame(slot, Stall(slot));
    case MCancel => CancelSafe(slot);
  }

  /** Slot safety in every state of every run. */
  lemma {:induction false} AlwaysSafe(start: RunLog, steps: seq<Step>)
    requires Fresh(start) && IsRun(start, steps)
    ensures Safe(RunSteps(start, steps).slot)
  {
    if steps != [] {
      var front, last := steps[..|steps| - 1], steps[|steps| - 1];
      AlwaysSafe(start, front);
      SafetyKept(last.world, RunSteps(start, front), last.move);
    }
  }

  /** So does every call. */
  lemma ServeSafe(world: World, log: RunLog, call: RunCall)
    requires Safe(log.slot) && Accepted(world, log, call) && DistinctNodeIds(log.slot.run.assembly.nodes)
    ensures Safe(Serve(world, log, call).slot)
  {
    var inv := (l: RunLog) => Safe(l.slot);
    forall l: RunLog, m | inv(l) && Enabled(world, l.slot, m) && Makes(log.slot, call, l.slot, m)
      ensures inv(Apply(l, m))
    {
      SafetyKept(world, l, m);
    }
    ServeKeeps(inv, world, log, call);
  }
}
