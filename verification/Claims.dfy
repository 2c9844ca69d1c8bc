/** What claims, heartbeats and failures do, said of the items handed out, kept and
  * given up: which, how many, in what order, until when. */
module Claims {
  import opened Base
  import opened Types
  import opened Scheduler
  import opened Moves
  import opened Safety
  import opened Kernel
  import opened Limits

  // ---------------------------------------------------------------- what a claim asks for

  /** The caller's filter, each part of which admits everything when it is empty. */
  predicate Admitted(req: ClaimRequest, n: AssemblyNode) {
    && (req.mod == "" || req.mod == n.mod)
    && (req.modules == [] || exists i :: 0 <= i < |req.modules| && req.modules[i] == n.mod)
    && (req.nodeIds == [] || exists i :: 0 <= i < |req.nodeIds| && req.nodeIds[i] == n.id)
  }

  lemma AdmittedIff(req: ClaimRequest, n: AssemblyNode)
    ensures MatchesFilter(req, n) <==> Admitted(req, n)
  {
  }

  /** A node the claim could be given. */
  ghost predicate Wanted(modules: seq<ModuleSlot>, slot: RunSlot, req: ClaimRequest, n: AssemblyNode) {
    Admitted(req, n) && ReadyUnit(modules, slot, n).Some?
  }

  /** These candidates are the wanted ones among the nodes, in the order of the nodes. */
  ghost predicate InOrder(modules: seq<ModuleSlot>, slot: RunSlot, req: ClaimRequest, nodes: seq<AssemblyNode>,
                          cs: seq<Candidate>, at: seq<nat>) {
    && |at| == |cs| && (forall i :: 0 <= i < |at| ==> at[i] < |nodes|)
    && (forall i, j :: 0 <= i < j < |at| ==> at[i] < at[j])
    && (forall i :: 0 <= i < |at| ==>
          Admitted(req, nodes[at[i]]) && ReadyUnit(modules, slot, nodes[at[i]]) == Some(cs[i]))
  }

  ghost predicate AllThere(modules: seq<ModuleSlot>, slot: RunSlot, req: ClaimRequest, nodes: seq<AssemblyNode>,
                           at: seq<nat>) {
    forall k :: 0 <= k < |nodes| && Wanted(modules, slot, req, nodes[k]) ==> k in at
  }

  lemma StillThere(modules: seq<ModuleSlot>, slot: RunSlot, req: ClaimRequest, nodes: seq<AssemblyNode>, at: seq<nat>,
                   at': seq<nat>)
    requires nodes != [] && AllThere(modules, slot, req, nodes[1..], at)
    requires at' == Shifted(at) || at' == [0] + Shifted(at)
    requires Wanted(modules, slot, req, nodes[0]) ==> 0 in at'
    ensures AllThere(modules, slot, req, nodes, at')
  {
    hide Wanted;
    forall k | 0 <= k < |nodes| && Wanted(modules, slot, req, nodes[k])
      ensures k in at'
    {
      if k > 0 {
        assert nodes[1..][k - 1] == nodes[k];
        var i :| 0 <= i < |at| && at[i] == k - 1;
        assert at'[i + |at'| - |at|] == k;
      }
    }
  }

  lemma Passed(modules: seq<ModuleSlot>, slot: RunSlot, req: ClaimRequest, nodes: seq<AssemblyNode>, cs: seq<Candidate>,
               at: seq<nat>)
    requires nodes != [] && InOrder(modules, slot, req, nodes[1..], cs, at)
    ensures InOrder(modules, slot, req, nodes, cs, Shifted(at))
  {
    hide ReadyUnit, Admitted;
  }

  lemma Picked(modules: seq<ModuleSlot>, slot: RunSlot, req: ClaimRequest, nodes: seq<AssemblyNode>, cs: seq<Candidate>,
               at: seq<nat>)
    requires nodes != [] && InOrder(modules, slot, req, nodes, cs, Shifted(at)) && Wanted(modules, slot, req, nodes[0])
    ensures InOrder(modules, slot, req, nodes, [ReadyUnit(modules, slot, nodes[0]).value] + cs, [0] + Shifted(at))
  {
    hide ReadyUnit, Admitted;
  }

  lemma {:induction false} CandidatesInOrder(modules: seq<ModuleSlot>, slot: RunSlot, req: ClaimRequest,
                                             nodes: seq<AssemblyNode>)
    returns (at: seq<nat>)
    ensures InOrder(modules, slot, req, nodes, Candidates(modules, slot, req, nodes), at)
    ensures AllThere(modules, slot, req, nodes, at)
  {
    if nodes == [] {
      at := [];
    } else {
      hide ReadyUnit, MatchesFilter, Admitted, InOrder, AllThere;
      var rest := CandidatesInOrder(modules, slot, req, nodes[1..]);
      AdmittedIff(req, nodes[0]);
      var cs := Candidates(modules, slot, req, nodes[1..]);
      Passed(modules, slot, req, nodes, cs, rest);
      at := Shifted(rest);
      if Wanted(modules, slot, req, nodes[0]) {
        Picked(modules, slot, req, nodes, cs, rest);
        at := [0] + at;
        assert at[0] == 0;
      }
      StillThere(modules, slot, req, nodes, rest, at);
    }
  }

  function Shifted(at: seq<nat>): (r: seq<nat>)
    ensures |r| == |at| && forall i :: 0 <= i < |r| ==> r[i] == at[i] + 1
  {
    seq(|at|, i requires 0 <= i < |at| => at[i] + 1)
  }

  /** As many as were asked for, one if no number was given, within the room the run
    * has: all of its limit less what is claimed, or any number without a limit. */
  ghost predicate Allowance(slot: RunSlot, maxItems: nat, n: nat) {
    && n <= (if maxItems == 0 then 1 else maxItems)
    && (slot.maxInFlight != 0 ==> n <= slot.maxInFlight - |slot.claimed| || n == 0)
  }

  lemma WantedIsMost(slot: RunSlot, maxItems: nat)
    ensures Allowance(slot, maxItems, WantedItems(slot, maxItems))
    ensures forall n: nat :: Allowance(slot, maxItems, n) ==> n <= WantedItems(slot, maxItems)
  {
  }

  lemma {:induction false} TakenAre(slot: RunSlot, cs: seq<Candidate>, now: int)
    requires DistinctUnits(cs)
    ensures var items := TakenItems(slot, cs, now);
      forall i :: 0 <= i < |cs| ==>
        && items[i].node == cs[i].node && items[i].inputs == cs[i].inputs && items[i].unit == cs[i].unit
        && items[i].id == WorkId(slot.run.id, cs[i].unit)
        && items[i].attempt == Lookup(slot.claimAttempts, cs[i].unit, 0) + 1
        && items[i].leaseUntil == LeaseEnd(now, slot.defaultLeaseMs)
    decreases |cs|
  {
    if cs != [] {
      var slot', rest := Take(slot, cs[0], now), cs[1..];
      TakenAre(slot', rest, now);
      forall i | 0 <= i < |rest|
        ensures Lookup(slot'.claimAttempts, rest[i].unit, 0) == Lookup(slot.claimAttempts, rest[i].unit, 0)
      {
        assert rest[i] == cs[i + 1] && cs[0].unit != cs[i + 1].unit;
      }
    }
  }

  /** What a claim hands out: the first of the nodes that are ready and that the filter
    * admits, in assembly order, as many as are allowed and no fewer; each with the
    * inputs it is ready on, the next attempt and a lease from now. */
  lemma ClaimHandsOut(modules: seq<ModuleSlot>, slot: RunSlot, req: ClaimRequest, now: int) returns (at: seq<nat>)
    requires DistinctNodeIds(slot.run.assembly.nodes)
    ensures var reaped, nodes := Reap(slot, now), slot.run.assembly.nodes;
      var items := TakenItems(reaped, ChosenFor(modules, reaped, req), now);
      && |items| <= |at| && Allowance(reaped, req.maxItems, |items|)
      && (forall i :: 0 <= i < |at| ==> at[i] < |nodes| && Wanted(modules, reaped, req, nodes[at[i]]))
      && (forall i, j :: 0 <= i < j < |at| ==> at[i] < at[j])
      && (forall k :: 0 <= k < |nodes| && Wanted(modules, reaped, req, nodes[k]) ==> k in at)
      && (|items| < |at| ==> !Allowance(reaped, req.maxItems, |items| + 1))
      && forall i :: 0 <= i < |items| ==>
           && items[i].node == nodes[at[i]]
           && ReadyUnit(modules, reaped, items[i].node)
              == Some(Candidate(items[i].node, items[i].inputs, items[i].unit))
           && items[i].id == WorkId(slot.run.id, items[i].unit)
           && items[i].attempt == Lookup(slot.claimAttempts, items[i].unit, 0) + 1
           && EndsAt(now, slot.defaultLeaseMs, items[i].leaseUntil)
  {
    hide ReadyUnit, Admitted, WantedItems, LeaseEnd, EndsAt;
    var reaped, nodes := Reap(slot, now), slot.run.assembly.nodes;
    at := CandidatesInOrder(modules, reaped, req, nodes);
    var chosen := ChosenFor(modules, reaped, req);
    WantedIsMost(reaped, req.maxItems);
    ChosenReady(modules, reaped, req);
    TakenAre(reaped, chosen, now);
    LeaseEndIs(now, slot.defaultLeaseMs);
    var cs := Candidates(modules, reaped, req, nodes);
    forall i | 0 <= i < |chosen|
      ensures chosen[i] == cs[i] && chosen[i].node == nodes[at[i]]
    {
      assert ReadyUnit(modules, reaped, nodes[at[i]]) == Some(cs[i]);
      ReadyNode(modules, reaped, nodes[at[i]]);
    }
  }

  lemma ReadyNode(modules: seq<ModuleSlot>, slot: RunSlot, n: AssemblyNode)
    ensures ReadyUnit(modules, slot, n).Some? ==> ReadyUnit(modules, slot, n).value.node == n
  {
  }

  // ---------------------------------------------------------------- what ends a lease

  /** What reaping does to one lease: it goes exactly when its end is set and has
    * passed; its unit is then done if this was the last attempt, and free otherwise. */
  lemma ReapSettles(slot: RunSlot, now: int, id: WorkId)
    requires Safe(slot) && id in slot.claimed
    ensures var slot', item := Reap(slot, now), slot.claimed[id];
      && (id in slot'.claimed <==> !(0 < item.leaseUntil <= now))
      && (id in slot'.claimed ==> slot'.claimed[id] == item)
      && (item.unit in slot'.doneUnits <==> 0 < item.leaseUntil <= now && item.attempt >= slot.maxAttempts)
  {
  }

  /** What an accepted failure does: the unit is given up; it is done if the caller says
    * so or this was its last attempt, and free otherwise; nothing else is touched. */
  lemma FailSettles(modules: seq<ModuleSlot>, slot: RunSlot, id: WorkId, terminal: bool, now: int)
    requires Safe(slot)
    ensures var held := id in slot.claimed && !(0 < slot.claimed[id].leaseUntil <= now);
      var result := FailWork(modules, slot, id, terminal, now);
      && result.1 == (if held then None else Some(Conflict))
      && (held ==>
            var item, slot' := slot.claimed[id], result.0;
            && id !in slot'.claimed
            && (item.unit in slot'.doneUnits <==> terminal || item.attempt >= slot.maxAttempts)
            && (forall other :: other in slot'.claimed <==> other in Reap(slot, now).claimed && other != id)
            && slot'.claimAttempts == slot.claimAttempts && slot'.latest == slot.latest)
  {
    hide ShouldStall;
    if id in Reap(slot, now).claimed {
      ReapSettles(slot, now, id);
      DropSettles(Reap(slot, now), id, terminal);
    }
  }

  lemma DropSettles(slot: RunSlot, id: WorkId, terminal: bool)
    requires id in slot.claimed && slot.claimed[id].unit !in slot.doneUnits
    ensures var slot', item := Drop(slot, id, terminal), slot.claimed[id];
      && (forall other :: other in slot'.claimed <==> other in slot.claimed && other != id)
      && (item.unit in slot'.doneUnits <==> terminal || item.attempt >= slot.maxAttempts)
      && slot'.claimAttempts == slot.claimAttempts && slot'.latest == slot.latest
  {
  }

  /** A lease that a heartbeat names and that survives it ends when asked, counted from
    * now: after the time given, or the run's own when none is. */
  lemma HeartbeatEnds(slot: RunSlot, ids: seq<WorkId>, extend: nat, now: int, id: WorkId)
    requires id in Heartbeat(slot, ids, extend, now).claimed
    ensures var slot' := Heartbeat(slot, ids, extend, now);
      && id in slot.claimed
      && (id in ids ==> EndsAt(now, if extend == 0 then slot.defaultLeaseMs else extend, slot'.claimed[id].leaseUntil))
      && (id !in ids ==> slot'.claimed[id] == slot.claimed[id])
  {
    var until := LeaseEnd(now, if extend == 0 then slot.defaultLeaseMs else extend);
    RenewedUntil(slot, ids, until, id);
    LeaseEndIs(now, if extend == 0 then slot.defaultLeaseMs else extend);
  }

  /** What an accepted failure leaves on the ledger: after the reaped leases, one entry
    * with unit, attempt and reason, said to be terminal if the unit is now done. */
  lemma FailureEntry(state: State, r: string, id: WorkId, reason: string, terminal: bool, now: int, order: seq<WorkId>)
    requires Fail(state, r, id, reason, terminal, now, order).1.None?
    ensures r in state.runs && id in state.runs[r].claimed
    ensures var item := state.runs[r].claimed[id];
      var given := if reason == "" then "failed" else reason;
      var last := item.attempt >= state.runs[r].maxAttempts;
      var entry := WorkFailed(id, item.unit, given, terminal || last, item.attempt);
      var before := state.ledger + ReapEvents(state.runs[r], order);
      before + [entry] <= Fail(state, r, id, reason, terminal, now, order).0.ledger
  {
    hide StallIfIdle, ReapEvents;
  }

  /** The entry that reaping this lease leaves, or the second one on its last attempt. */
  ghost predicate ReapedEntry(slot: RunSlot, id: WorkId, p: Payload)
    requires id in slot.claimed
  {
    var item := slot.claimed[id];
    || p == WorkExpired(item.(leaseUntil := 0))
    || (item.attempt >= slot.maxAttempts
        && p == WorkFailed(id, item.unit, "lease expired; max_attempts exhausted", true, item.attempt))
  }

  lemma {:induction false} EntriesOf(slot: RunSlot, order: seq<WorkId>, p: Payload)
    ensures p in ReapEvents(slot, order) <==> exists id :: id in order && id in slot.claimed && ReapedEntry(slot, id, p)
  {
    if order != [] {
      var front, last := order[..|order| - 1], order[|order| - 1];
      EntriesOf(slot, front, p);
      assert order == front + [last];
    }
  }

  /** What reaping leaves on the ledger: an entry for each lease that has ended, with the
    * item as it was handed out, and another if that was the unit's last attempt. */
  lemma ReapEntries(slot: RunSlot, now: int, order: seq<WorkId>, p: Payload)
    requires ExpiredOrder(slot, now, order)
    ensures p in ReapEvents(slot, order)
       <==> exists id :: id in slot.claimed && 0 < slot.claimed[id].leaseUntil <= now && ReapedEntry(slot, id, p)
  {
    hide ReapedEntry;
    EntriesOf(slot, order, p);
  }
}
