/** The limits of a run are those its starter asked for: work in flight, steps,
  * attempts and lease times, read off the request of the accepted `start_run`. */
module Limits {
  import opened Base
  import opened Types
  import opened Scheduler
  import opened Moves
  import opened Safety
  import opened Accounting
  import opened Kernel
  import opened KernelRuns
  import opened Histories
  import opened Quotas

  // ---------------------------------------------------------------- what was asked for

  function Asked(req: RunRequest): Kernel.Limits {
    if req.limits.Some? then req.limits.value else Kernel.Limits(0, 0, 0, 0)
  }

  function AskedAttempts(req: RunRequest): nat {
    if Asked(req).maxAttempts == 0 then 3 else Asked(req).maxAttempts
  }

  function AskedLease(req: RunRequest): nat {
    if Asked(req).defaultLeaseMs == 0 then 60000 else Asked(req).defaultLeaseMs
  }

  function AskedSteps(req: RunRequest, nodes: nat): nat {
    if Asked(req).maxSteps == 0 then nodes else Asked(req).maxSteps
  }

  /** The k-th call started a run. */
  ghost predicate Starts(config: Config, calls: seq<Call>, k: nat) {
    k < |calls| && calls[k].CStart? && StartRun(After(config, calls[..k]), calls[k].request).1.None?
  }

  ghost predicate AsAsked(req: RunRequest, slot: RunSlot) {
    && slot.maxInFlight == Asked(req).maxInFlight && slot.maxAttempts == AskedAttempts(req)
    && slot.defaultLeaseMs == AskedLease(req)
    && slot.run.maxSteps == AskedSteps(req, |slot.run.assembly.nodes|) && slot.run.policy == req.policy
  }

  lemma FreshAsAsked(state: State, req: RunRequest)
    requires StartRun(state, req).1.None?
    ensures var state' := StartRun(state, req).0; req.id in state'.runs && AsAsked(req, state'.runs[req.id])
  {
    hide StartFault, Materialize;
  }

  lemma SameAsAsked(req: RunRequest, slot: RunSlot, slot': RunSlot)
    requires AsAsked(req, slot) && SameRun(slot, slot')
    ensures AsAsked(req, slot')
  {
  }

  /** What was asked for holds from the start of the run on. */
  lemma {:induction false} FrozenAsAsked(config: Config, calls: seq<Call>, k: nat)
    requires Starts(config, calls, k)
    ensures var r := calls[k].request.id;
      r in After(config, calls).runs && AsAsked(calls[k].request, After(config, calls).runs[r])
    decreases |calls|
  {
    hide AsAsked, StartRun, Served;
    var front, r := calls[..|calls| - 1], calls[k].request.id;
    if k == |calls| - 1 {
      FreshAsAsked(After(config, front), calls[k].request);
    } else {
      assert front[..k] == calls[..k];
      FrozenAsAsked(config, front, k);
      LastCall(config, calls, r);
      var state := After(config, front);
      FrameBefore(WorldOf(state), LogOf(state, r), CallOn(calls[|calls| - 1], r));
      SameAsAsked(calls[k].request, state.runs[r], After(config, calls).runs[r]);
    }
  }

  // ---------------------------------------------------------------- how often a unit was handed out

  /** The claims of a unit that the entries record. */
  function HandedOut(entries: seq<Payload>, id: WorkId): nat {
    if entries == [] then 0
    else
      var last := entries[|entries| - 1];
      HandedOut(entries[..|entries| - 1], id) + if last.WorkClaimed? && last.item.id == id then 1 else 0
  }

  lemma {:induction false} HandedAppend(a: seq<Payload>, b: seq<Payload>, id: WorkId)
    ensures HandedOut(a + b, id) == HandedOut(a, id) + HandedOut(b, id)
  {
    if b == [] {
      assert a + b == a;
    } else {
      HandedAppend(a, b[..|b| - 1], id);
      assert (a + b)[..|a + b| - 1] == a + b[..|b| - 1];
    }
  }

  lemma {:induction false} NoneHanded(entries: seq<Payload>, id: WorkId)
    requires NoClaims(entries)
    ensures HandedOut(entries, id) == 0
  {
    if entries != [] {
      NoneHanded(entries[..|entries| - 1], id);
    }
  }

  lemma {:induction false} TakesCounted(slot: RunSlot, cs: seq<Candidate>, now: int, unit: UnitKey)
    ensures HandedOut(ClaimEvents(slot, cs, now), WorkId(slot.run.id, unit)) + Lookup(slot.claimAttempts, unit, 0)
         == Lookup(TakeAll(slot, cs, now).claimAttempts, unit, 0)
    ensures forall id: WorkId :: id.run != slot.run.id ==> HandedOut(ClaimEvents(slot, cs, now), id) == 0
    decreases |cs|
  {
    if cs != [] {
      var slot' := Take(slot, cs[0], now);
      var first := [WorkClaimed(Unleased(slot'.claimed[WorkId(slot.run.id, cs[0].unit)]))];
      TakesCounted(slot', cs[1..], now, unit);
      assert first[..0] == [];
      HandedAppend(first, ClaimEvents(slot', cs[1..], now), WorkId(slot.run.id, unit));
      forall id: WorkId | id.run != slot.run.id
        ensures HandedOut(ClaimEvents(slot, cs, now), id) == 0
      {
        HandedAppend(first, ClaimEvents(slot', cs[1..], now), id);
      }
    }
  }

  /** How often the slot has counted the unit handed out. */
  function AttemptsOf(state: State, id: WorkId): nat {
    if id.run in state.runs then Lookup(state.runs[id.run].claimAttempts, id.unit, 0) else 0
  }

  lemma ClaimHands(state: State, req: ClaimRequest, now: int, order: seq<WorkId>, id: WorkId)
    requires req.runId in state.runs ==> state.runs[req.runId].run.id == req.runId
    requires HandedOut(state.ledger, id) == AttemptsOf(state, id)
    ensures var state' := Claim(state, req, now, order).0; HandedOut(state'.ledger, id) == AttemptsOf(state', id)
  {
    if RunFault(state, req.runId).None? {
      var slot := state.runs[req.runId];
      var reaped := Reap(slot, now);
      var chosen := ChosenFor(state.modules, reaped, req);
      var a, b := ReapEvents(slot, order), ClaimEvents(reaped, chosen, now);
      var c := StallEvents(slot, ClaimReady(state.modules, slot, req, now));
      ClaimEntries(state, req, now, order);
      TakesCounted(reaped, chosen, now, id.unit);
      assert ClaimReady(state.modules, slot, req, now).claimAttempts == TakeAll(reaped, chosen, now).claimAttempts;
      hide HandedOut, ReapEvents, ClaimEvents, ChosenFor, StallEvents, NoClaims, ClaimReady, TakeAll;
      MiddleHanded(state.ledger, a, b, c, id);
    }
  }

  lemma MiddleHanded(ledger: seq<Payload>, a: seq<Payload>, b: seq<Payload>, c: seq<Payload>, id: WorkId)
    requires NoClaims(a) && NoClaims(c)
    ensures HandedOut(ledger + (a + b + c), id) == HandedOut(ledger, id) + HandedOut(b, id)
  {
    NoneHanded(a, id);
    NoneHanded(c, id);
    HandedAppend(a, b, id);
    HandedAppend(a + b, c, id);
    HandedAppend(ledger, a + b + c, id);
  }

  /** Only claims count. */
  lemma ServeKeepsAttempts(world: World, log: RunLog, call: RunCall)
    requires Accepted(world, log, call) && DistinctNodeIds(log.slot.run.assembly.nodes) && !call.RClaim?
    ensures Serve(world, log, call).slot.claimAttempts == log.slot.claimAttempts
  {
    var inv := (l: RunLog) => l.slot.claimAttempts == log.slot.claimAttempts;
    forall l: RunLog, m | inv(l) && Enabled(world, l.slot, m) && Makes(log.slot, call, l.slot, m)
      ensures inv(Apply(l, m))
    {
    }
    ServeKeeps(inv, world, log, call);
  }

  lemma ServedKeepsAttempts(world: World, log: RunLog, call: Option<RunCall>)
    requires DistinctNodeIds(log.slot.run.assembly.nodes) && (call.Some? ==> !call.value.RClaim?)
    ensures Served(world, log, call).slot.claimAttempts == log.slot.claimAttempts
  {
    if call.Some? && Accepted(world, log, call.value) {
      ServeKeepsAttempts(world, log, call.value);
    }
  }

  lemma OnlyClaimsClaim(call: Call, r: string)
    ensures CallOn(call, r).Some? && CallOn(call, r).value.RClaim? ==> call.CClaim?
  {
  }

  /** The books of a unit: the ledger shows a claim for each attempt counted. */
  lemma {:induction false} HandedIsCounted(config: Config, calls: seq<Call>, id: WorkId)
    requires Unforged(calls)
    ensures HandedOut(After(config, calls).ledger, id) == AttemptsOf(After(config, calls), id)
  {
    if calls != [] {
      hide HandedOut, Served, Do, NoClaimsAdded;
      var front, call := calls[..|calls| - 1], calls[|calls| - 1];
      var state, state' := After(config, front), After(config, calls);
      HandedIsCounted(config, front, id);
      if call.CClaim? {
        KnownIds(config, front);
        ClaimHands(state, call.claim, call.now, call.order, id);
        assert state' == Claim(state, call.claim, call.now, call.order).0 by { ClaimIs(config, state, call); }
      } else {
        OthersQuiet(config, state, call);
        QuietlyHanded(state, state', id);
        AttemptsKept(config, calls, id);
      }
    }
  }

  lemma ClaimIs(config: Config, state: State, call: Call)
    requires call.CClaim?
    ensures Do(config, state, call) == Claim(state, call.claim, call.now, call.order).0
  {
  }

  lemma QuietlyHanded(state: State, state': State, id: WorkId)
    requires NoClaimsAdded(state, state')
    ensures HandedOut(state'.ledger, id) == HandedOut(state.ledger, id)
  {
    var events := state'.ledger[|state.ledger|..];
    assert state'.ledger == state.ledger + events;
    NoneHanded(events, id);
    HandedAppend(state.ledger, events, id);
  }

  lemma AttemptsKept(config: Config, calls: seq<Call>, id: WorkId)
    requires calls != [] && !calls[|calls| - 1].CClaim?
    ensures AttemptsOf(After(config, calls), id) == AttemptsOf(After(config, calls[..|calls| - 1]), id)
  {
    hide Served, CallOn, Fresh;
    var front, call := calls[..|calls| - 1], calls[|calls| - 1];
    if id.run in After(config, front).runs {
      LastCall(config, calls, id.run);
      OnlyClaimsClaim(call, id.run);
      ServedKeepsAttempts(WorldOf(After(config, front)), LogOf(After(config, front), id.run), CallOn(call, id.run));
    } else if id.run in After(config, calls).runs {
      FirstCall(config, calls, id.run);
      FreshCounts(LogOf(After(config, calls), id.run));
    }
  }

  lemma FreshCounts(log: RunLog)
    requires Fresh(log)
    ensures log.slot.claimAttempts == map[]
  {
  }

  // ---------------------------------------------------------------- the limits hold

  /** In any history, from the request alone: work in flight never exceeds a limit that
    * was asked for; steps never exceed what was asked for, or the number of nodes; and
    * no unit is handed out more often than asked for, or three times. */
  lemma LimitsHold(config: Config, calls: seq<Call>, k: nat)
    requires Starts(config, calls, k)
    ensures var req := calls[k].request;
      req.id in After(config, calls).runs &&
      var slot := After(config, calls).runs[req.id];
      && (Asked(req).maxInFlight != 0 ==> |slot.claimed| <= Asked(req).maxInFlight)
      && slot.run.steps <= (if Asked(req).maxSteps == 0 then |slot.run.assembly.nodes| else Asked(req).maxSteps)
      && (Unforged(calls) ==> forall unit ::
            HandedOut(After(config, calls).ledger, WorkId(req.id, unit))
              <= if Asked(req).maxAttempts == 0 then 3 else Asked(req).maxAttempts)
  {
    hide HandedOut;
    var req := calls[k].request;
    FrozenAsAsked(config, calls, k);
    KernelRunsAreSound(config, calls, req.id);
    if Unforged(calls) {
      forall unit
        ensures HandedOut(After(config, calls).ledger, WorkId(req.id, unit)) <= AskedAttempts(req)
      {
        HandedIsCounted(config, calls, WorkId(req.id, unit));
      }
    }
  }

  // ---------------------------------------------------------------- leases

  /** Adding 64-bit milliseconds to the clock: the upper half of the range counts as
    * negative, and the sum stays at the ends of the signed 64-bit range. */
  ghost predicate EndsAt(now: int, lease: nat, until: int) {
    var sum := if lease < 0x8000_0000_0000_0000 then now + lease else now + lease - 0x1_0000_0000_0000_0000;
    && (-0x8000_0000_0000_0000 <= sum < 0x8000_0000_0000_0000 ==> until == sum)
    && (sum >= 0x8000_0000_0000_0000 ==> until == 0x7FFF_FFFF_FFFF_FFFF)
    && (sum < -0x8000_0000_0000_0000 ==> until == -0x8000_0000_0000_0000)
  }

  lemma LeaseEndIs(now: int, lease: nat)
    ensures EndsAt(now, lease, LeaseEnd(now, lease))
  {
  }

  lemma {:induction false} TakenLease(slot: RunSlot, cs: seq<Candidate>, now: int, id: WorkId)
    requires id in TakeAll(slot, cs, now).claimed
    ensures TakeAll(slot, cs, now).defaultLeaseMs == slot.defaultLeaseMs
    ensures (id in slot.claimed && TakeAll(slot, cs, now).claimed[id] == slot.claimed[id])
         || TakeAll(slot, cs, now).claimed[id].leaseUntil == LeaseEnd(now, slot.defaultLeaseMs)
    decreases |cs|
  {
    if cs != [] {
      TakenLease(Take(slot, cs[0], now), cs[1..], now, id);
    }
  }

  lemma ClaimedLease(modules: seq<ModuleSlot>, slot: RunSlot, req: ClaimRequest, now: int, id: WorkId)
    requires id in ClaimReady(modules, slot, req, now).claimed
    ensures var slot' := ClaimReady(modules, slot, req, now);
      || (id in slot.claimed && !(0 < slot.claimed[id].leaseUntil <= now) && slot'.claimed[id] == slot.claimed[id])
      || EndsAt(now, slot.defaultLeaseMs, slot'.claimed[id].leaseUntil)
  {
    hide ChosenFor, EndsAt;
    var reaped := Reap(slot, now);
    LeaseEndIs(now, slot.defaultLeaseMs);
    if ChosenFor(modules, reaped, req) != [] {
      TakenLease(reaped, ChosenFor(modules, reaped, req), now, id);
    }
  }

  /** What a claim hands out is leased for the time its run was asked to lease for, or
    * a minute. */
  lemma LeasedAsAsked(config: Config, calls: seq<Call>, k: nat, req: ClaimRequest, now: int, order: seq<WorkId>,
                      id: WorkId)
    requires Starts(config, calls, k) && req.runId == calls[k].request.id
    requires req.runId in After(config, calls).runs && After(config, calls).runs[req.runId].run.state == Running
    requires var claim := CClaim(req, now, order);
      req.runId in After(config, calls + [claim]).runs && id in After(config, calls + [claim]).runs[req.runId].claimed
    ensures var asked := calls[k].request;
      var slot := After(config, calls).runs[req.runId];
      var slot' := After(config, calls + [CClaim(req, now, order)]).runs[req.runId];
      || (id in slot.claimed && !(0 < slot.claimed[id].leaseUntil <= now) && slot'.claimed[id] == slot.claimed[id])
      || EndsAt(now, if Asked(asked).defaultLeaseMs == 0 then 60000 else Asked(asked).defaultLeaseMs,
                slot'.claimed[id].leaseUntil)
  {
    hide EndsAt, ClaimReady;
    var all := calls + [CClaim(req, now, order)];
    assert all[..|calls|] == calls;
    FrozenAsAsked(config, calls, k);
    LastCall(config, all, req.runId);
    var state := After(config, calls);
    ClaimedLease(state.modules, state.runs[req.runId], req, now, id);
  }

  /** The unit was not handed out again, and its item is what it was. */
  ghost predicate SameLease(slot: RunSlot, id: WorkId, item: WorkItem) {
    && Lookup(slot.claimAttempts, id.unit, 0) >= item.attempt
    && (Lookup(slot.claimAttempts, id.unit, 0) == item.attempt && id in slot.claimed ==> slot.claimed[id] == item)
  }

  lemma ServeKeepsLease(world: World, log: RunLog, call: RunCall, id: WorkId, item: WorkItem)
    requires Accepted(world, log, call) && DistinctNodeIds(log.slot.run.assembly.nodes)
    requires log.slot.run.id == id.run && SameLease(log.slot, id, item) && (call.RBeat? ==> id !in call.ids)
    ensures SameLease(Serve(world, log, call).slot, id, item)
  {
    if call.RBeat? {
      RenewedUntil(log.slot, call.ids, BeatEnd(log.slot, call.extend, call.now), id);
      RenewingKeepsAttempts(log.slot, call.ids, BeatEnd(log.slot, call.extend, call.now));
    } else {
      var inv := (l: RunLog) => l.slot.run.id == id.run && SameLease(l.slot, id, item);
      forall l: RunLog, m | inv(l) && Enabled(world, l.slot, m) && Makes(log.slot, call, l.slot, m)
        ensures inv(Apply(l, m))
      {
        MoveKeepsLease(l, m, id, item);
      }
      ServeKeeps(inv, world, log, call);
    }
  }

  lemma {:induction false} RenewingKeepsAttempts(slot: RunSlot, ids: seq<WorkId>, until: int)
    ensures RenewAll(slot, ids, until).claimAttempts == slot.claimAttempts
    decreases |ids|
  {
    if ids != [] {
      RenewingKeepsAttempts(if ids[0] in slot.claimed then Renew(slot, ids[0], until) else slot, ids[1..], until);
    }
  }

  lemma MoveKeepsLease(log: RunLog, m: Move, id: WorkId, item: WorkItem)
    requires log.slot.run.id == id.run && SameLease(log.slot, id, item) && !m.MRenew?
    ensures Apply(log, m).slot.run.id == id.run && SameLease(Apply(log, m).slot, id, item)
  {
  }

  lemma ServedKeepsLease(world: World, log: RunLog, call: Option<RunCall>, id: WorkId, item: WorkItem)
    requires DistinctNodeIds(log.slot.run.assembly.nodes) && log.slot.run.id == id.run
    requires SameLease(log.slot, id, item) && (call.Some? && call.value.RBeat? ==> id !in call.value.ids)
    ensures SameLease(Served(world, log, call).slot, id, item)
  {
    if call.Some? && Accepted(world, log, call.value) {
      ServeKeepsLease(world, log, call.value, id, item);
    }
  }

  ghost predicate NeverRenewed(calls: seq<Call>, id: WorkId) {
    forall i :: 0 <= i < |calls| && calls[i].CHeartbeat? && calls[i].runId == id.run ==> id !in calls[i].ids
  }

  lemma LeasedNow(config: Config, calls: seq<Call>, id: WorkId)
    requires id.run in After(config, calls).runs && id in After(config, calls).runs[id.run].claimed
    ensures SameLease(After(config, calls).runs[id.run], id, After(config, calls).runs[id.run].claimed[id])
  {
    RunInOrder(config, calls, id.run);
  }

  lemma {:induction false} StaysLeased(config: Config, calls: seq<Call>, more: seq<Call>, id: WorkId)
    requires id.run in After(config, calls).runs && id in After(config, calls).runs[id.run].claimed
    requires NeverRenewed(more, id)
    ensures id.run in After(config, calls + more).runs
    ensures SameLease(After(config, calls + more).runs[id.run], id, After(config, calls).runs[id.run].claimed[id])
    decreases |more|
  {
    hide After, SameLease;
    if more == [] {
      assert calls + more == calls;
      LeasedNow(config, calls, id);
    } else {
      var all, front := calls + more, more[..|more| - 1];
      StaysLeased(config, calls, front, id);
      StillLeased(config, calls + front, more[|more| - 1], id, After(config, calls).runs[id.run].claimed[id]);
      assert calls + front + [more[|more| - 1]] == all;
    }
  }

  lemma StillLeased(config: Config, calls: seq<Call>, call: Call, id: WorkId, item: WorkItem)
    requires id.run in After(config, calls).runs && SameLease(After(config, calls).runs[id.run], id, item)
    requires call.CHeartbeat? && call.runId == id.run ==> id !in call.ids
    ensures id.run in After(config, calls + [call]).runs
    ensures SameLease(After(config, calls + [call]).runs[id.run], id, item)
  {
    hide Served, SameLease, Do;
    var all := calls + [call];
    assert all[..|all| - 1] == calls && all[|all| - 1] == call;
    LastCall(config, all, id.run);
    var state := After(config, calls);
    ServedKeepsLease(WorldOf(state), LogOf(state, id.run), CallOn(call, id.run), id, item);
  }

  /** A lease that no heartbeat names stands as it was given, for as long as the unit
    * is held at the same attempt. */
  lemma LeaseStands(config: Config, calls: seq<Call>, more: seq<Call>, id: WorkId)
    requires id.run in After(config, calls).runs && id in After(config, calls).runs[id.run].claimed
    requires NeverRenewed(more, id)
    ensures id.run in After(config, calls + more).runs
    ensures var item, slot := After(config, calls).runs[id.run].claimed[id], After(config, calls + more).runs[id.run];
      id in slot.claimed && slot.claimed[id].attempt == item.attempt ==> slot.claimed[id] == item
  {
    StaysLeased(config, calls, more, id);
    RunInOrder(config, calls + more, id.run);
  }
}
