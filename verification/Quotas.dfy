/** Structural termination, read off the ledger: while nothing is registered and
  * nothing is injected into a run, the ledger never shows more claims of it than
  * max_steps * nodes * max_attempts, whatever its callers do. */
module Quotas {
  import opened Base
  import opened Types
  import opened Scheduler
  import opened Moves
  import opened Safety
  import opened Accounting
  import opened Assemblies
  import opened Termination
  import opened Kernel
  import opened KernelRuns
  import opened Histories

  /** The claims of a run that the entries record. */
  function ClaimsLogged(entries: seq<Payload>, r: string): nat {
    if entries == [] then 0
    else
      var last := entries[|entries| - 1];
      ClaimsLogged(entries[..|entries| - 1], r) + if last.WorkClaimed? && last.item.id.run == r then 1 else 0
  }

  lemma {:induction false} ClaimsAppend(a: seq<Payload>, b: seq<Payload>, r: string)
    ensures ClaimsLogged(a + b, r) == ClaimsLogged(a, r) + ClaimsLogged(b, r)
  {
    if b == [] {
      assert a + b == a;
    } else {
      ClaimsAppend(a, b[..|b| - 1], r);
      assert (a + b)[..|a + b| - 1] == a + b[..|b| - 1];
    }
  }

  ghost predicate NoClaims(entries: seq<Payload>) {
    forall i :: 0 <= i < |entries| ==> !entries[i].WorkClaimed?
  }

  lemma {:induction false} NoClaimsLogged(entries: seq<Payload>, r: string)
    requires NoClaims(entries)
    ensures ClaimsLogged(entries, r) == 0
  {
    if entries != [] {
      NoClaimsLogged(entries[..|entries| - 1], r);
    }
  }

  lemma {:induction false} ReapingClaimsNone(slot: RunSlot, order: seq<WorkId>)
    ensures NoClaims(ReapEvents(slot, order))
  {
    if order != [] {
      ReapingClaimsNone(slot, order[..|order| - 1]);
    }
  }

  lemma {:induction false} ClaimingLogged(slot: RunSlot, cs: seq<Candidate>, now: int, r: string)
    ensures ClaimsLogged(ClaimEvents(slot, cs, now), r) == if slot.run.id == r then |cs| else 0
    decreases |cs|
  {
    if cs != [] {
      var slot' := Take(slot, cs[0], now);
      var first := [WorkClaimed(Unleased(slot'.claimed[WorkId(slot.run.id, cs[0].unit)]))];
      ClaimingLogged(slot', cs[1..], now, r);
      ClaimsAppend(first, ClaimEvents(slot', cs[1..], now), r);
      assert first[..0] == [] && ClaimsLogged(first[..0], r) == 0;
    }
  }

  /** What one call adds to the count. */
  function ClaimsMade(state: State, call: Call, r: string): nat {
    if r in state.runs && state.runs[r].run.state == Running && CallOn(call, r).Some? then
      ClaimsBy(state.modules, state.runs[r], CallOn(call, r).value)
    else 0
  }

  /** What an accepted claim appends: reaped leases, claims, perhaps a stall. */
  lemma ClaimEntries(state: State, req: ClaimRequest, now: int, order: seq<WorkId>)
    requires RunFault(state, req.runId).None?
    ensures var slot := state.runs[req.runId];
      var reaped := Reap(slot, now);
      var a, b := ReapEvents(slot, order), ClaimEvents(reaped, ChosenFor(state.modules, reaped, req), now);
      var c := StallEvents(slot, ClaimReady(state.modules, slot, req, now));
      Claim(state, req, now, order).0.ledger == state.ledger + (a + b + c) && NoClaims(a) && NoClaims(c)
  {
    hide Reap, ChosenFor, ClaimEvents, ClaimReady, NamePlaceholders;
    ReapingClaimsNone(state.runs[req.runId], order);
  }

  lemma ClaimLogged(state: State, req: ClaimRequest, now: int, order: seq<WorkId>, r: string)
    requires req.runId in state.runs ==> state.runs[req.runId].run.id == req.runId
    ensures ClaimsLogged(Claim(state, req, now, order).0.ledger, r)
         == ClaimsLogged(state.ledger, r) + ClaimsMade(state, CClaim(req, now, order), r)
  {
    if RunFault(state, req.runId).None? {
      var slot := state.runs[req.runId];
      var reaped := Reap(slot, now);
      var chosen := ChosenFor(state.modules, reaped, req);
      var a, b := ReapEvents(slot, order), ClaimEvents(reaped, chosen, now);
      var c := StallEvents(slot, ClaimReady(state.modules, slot, req, now));
      ClaimEntries(state, req, now, order);
      ClaimingLogged(reaped, chosen, now, r);
      assert reaped.run.id == slot.run.id;
      assert |chosen| == ClaimsBy(state.modules, slot, RClaim(req, now));
      hide ClaimsLogged, ReapEvents, ClaimEvents, ChosenFor, Claim, StallEvents, NoClaims, Reap, ClaimsBy, ClaimReady;
      MiddleClaims(state.ledger, a, b, c, r);
    }
  }

  /** Only the entries in the middle are claims. */
  lemma MiddleClaims(ledger: seq<Payload>, a: seq<Payload>, b: seq<Payload>, c: seq<Payload>, r: string)
    requires NoClaims(a) && NoClaims(c)
    ensures ClaimsLogged(ledger + (a + b + c), r) == ClaimsLogged(ledger, r) + ClaimsLogged(b, r)
  {
    NoClaimsLogged(a, r);
    NoClaimsLogged(c, r);
    ClaimsAppend(a, b, r);
    ClaimsAppend(a + b, c, r);
    ClaimsAppend(ledger, a + b + c, r);
  }

  /** Entries were added, and no claim is among them. */
  ghost predicate NoClaimsAdded(state: State, state': State) {
    state.ledger <= state'.ledger && NoClaims(state'.ledger[|state.ledger|..])
  }

  lemma Quietly(state: State, state': State, events: seq<Payload>)
    requires state'.ledger == state.ledger + events && NoClaims(events)
    ensures NoClaimsAdded(state, state')
  {
    assert state'.ledger[|state.ledger|..] == events;
  }

  lemma QuietlyLogged(state: State, state': State, r: string)
    requires NoClaimsAdded(state, state')
    ensures ClaimsLogged(state'.ledger, r) == ClaimsLogged(state.ledger, r)
  {
    var events := state'.ledger[|state.ledger|..];
    assert state'.ledger == state.ledger + events;
    NoClaimsLogged(events, r);
    ClaimsAppend(state.ledger, events, r);
  }

  lemma BeatQuiet(state: State, q: string, ids: seq<WorkId>, extend: nat, now: int, order: seq<WorkId>)
    ensures NoClaimsAdded(state, Beat(state, q, ids, extend, now, order).0)
  {
    if RunFault(state, q).None? {
      var renewed := RenewAll(state.runs[q], ids, BeatEnd(state.runs[q], extend, now));
      ReapingClaimsNone(renewed, order);
      Quietly(state, Beat(state, q, ids, extend, now, order).0, ReapEvents(renewed, order));
    }
  }

  lemma FailQuiet(state: State, q: string, id: WorkId, reason: string, terminal: bool, now: int, order: seq<WorkId>)
    ensures NoClaimsAdded(state, Fail(state, q, id, reason, terminal, now, order).0)
  {
    hide FailWork;
    if RunFault(state, q).None? {
      var state' := Fail(state, q, id, reason, terminal, now, order).0;
      ReapingClaimsNone(state.runs[q], order);
      Quietly(state, state', state'.ledger[|state.ledger|..]);
    }
  }

  lemma CommitQuiet(state: State, q: string, id: WorkId, nodeId: string, outputs: seq<NamedArtifact>, now: int,
                     order: seq<WorkId>)
    ensures NoClaimsAdded(state, CommitWork(state, q, id, nodeId, outputs, now, order).0)
  {
    hide Commit;
    if RunFault(state, q).None? {
      var state' := CommitWork(state, q, id, nodeId, outputs, now, order).0;
      ReapingClaimsNone(state.runs[q], order);
      Quietly(state, state', state'.ledger[|state.ledger|..]);
    }
  }

  lemma StartQuiet(state: State, req: RunRequest)
    ensures NoClaimsAdded(state, StartRun(state, req).0)
  {
    hide StartFault, Materialize, FreshSlot;
    var state' := StartRun(state, req).0;
    Quietly(state, state', state'.ledger[|state.ledger|..]);
  }

  lemma OneEntryQuiet(config: Config, state: State, call: Call)
    requires call.CInject? || call.CCancel?
    ensures NoClaimsAdded(state, Do(config, state, call))
  {
    var state' := Do(config, state, call);
    Quietly(state, state', state'.ledger[|state.ledger|..]);
  }

  lemma RunCallQuiet(config: Config, state: State, call: Call)
    requires !LeavesRuns(call) && !call.CClaim?
    ensures NoClaimsAdded(state, Do(config, state, call))
  {
    hide StartRun, InjectInput, Beat, Fail, CommitWork, CancelRun;
    match call
    case CStart(request) => StartQuiet(state, request);
    case CHeartbeat(q, ids, extend, now, order) => BeatQuiet(state, q, ids, extend, now, order);
    case CFail(q, id, reason, terminal, now, order) => FailQuiet(state, q, id, reason, terminal, now, order);
    case CCommit(q, id, nodeId, outputs, now, order) => CommitQuiet(state, q, id, nodeId, outputs, now, order);
    case _ => OneEntryQuiet(config, state, call);
  }

  /** A registry call appends at most one entry, and no claim. */
  lemma RegistryAppends(config: Config, state: State, call: Call) returns (events: seq<Payload>)
    requires LeavesRuns(call) && !call.CPutContract? && (call.CAppend? ==> call.payload.Foreign?)
    ensures Do(config, state, call).ledger == state.ledger + events && NoClaims(events)
  {
    hide NamePlaceholders, ManifestRefs, ContentValid, ExternalsStored, LedgerTraits, SetLifecycle;
    var ledger := Do(config, state, call).ledger;
    events := ledger[|state.ledger|..];
  }

  lemma ContractAppends(hashes: Hashes, state: State, contract: Contract) returns (events: seq<Payload>)
    ensures PutContract(hashes, state, contract).0.ledger == state.ledger + events && NoClaims(events)
  {
    events := PutContract(hashes, state, contract).0.ledger[|state.ledger|..];
  }

  lemma RegistryCallQuiet(config: Config, state: State, call: Call)
    requires LeavesRuns(call) && (call.CAppend? ==> call.payload.Foreign?)
    ensures NoClaimsAdded(state, Do(config, state, call))
  {
    hide Register, Transition, PutContract, PutArtifact, PutBlob;
    var events;
    if call.CPutContract? {
      events := ContractAppends(config.hashes, state, call.contract);
    } else {
      events := RegistryAppends(config, state, call);
    }
    Quietly(state, Do(config, state, call), events);
  }

  lemma OthersQuiet(config: Config, state: State, call: Call)
    requires !call.CClaim? && (call.CAppend? ==> call.payload.Foreign?)
    ensures NoClaimsAdded(state, Do(config, state, call))
  {
    hide NoClaimsAdded;
    if LeavesRuns(call) {
      RegistryCallQuiet(config, state, call);
    } else {
      RunCallQuiet(config, state, call);
    }
  }

  /** A call adds to the claims of a run on the ledger what it claims of it. */
  lemma DoLogged(config: Config, state: State, call: Call, r: string)
    requires call.CAppend? ==> call.payload.Foreign?
    requires forall q :: q in state.runs ==> state.runs[q].run.id == q
    ensures ClaimsLogged(Do(config, state, call).ledger, r)
         == ClaimsLogged(state.ledger, r) + ClaimsMade(state, call, r)
  {
    if call.CClaim? {
      ClaimLogged(state, call.claim, call.now, call.order, r);
    } else {
      OthersQuiet(config, state, call);
      QuietlyLogged(state, Do(config, state, call), r);
    }
  }

  // ---------------------------------------------------------------- the budget over a history

  /** Nothing registered, nothing injected into the run. */
  ghost function QuietIn(r: string): CallRule {
    (state: State, call: Call) => !call.CRegister? && !(call.CInject? && call.runId == r)
  }

  ghost predicate SameManifests(modules: seq<ModuleSlot>, modules': seq<ModuleSlot>) {
    |modules'| == |modules| && forall i :: 0 <= i < |modules| ==> modules'[i].manifest == modules[i].manifest
  }

  lemma ManifestsStay(config: Config, state: State, call: Call)
    requires !call.CRegister?
    ensures SameManifests(state.modules, Do(config, state, call).modules)
  {
    hide Claim, Beat, Fail, CommitWork, StartRun, InjectInput, CancelRun, PutContract, PutArtifact, PutBlob;
    if call.CTransition? {
    } else {
      ModulesStay(config, state, call);
    }
  }

  lemma ModulesStay(config: Config, state: State, call: Call)
    requires !call.CRegister? && !call.CTransition?
    ensures Do(config, state, call).modules == state.modules
  {
  }

  /** The budget reads manifests, not lifecycles. */
  lemma SameBudget(modules: seq<ModuleSlot>, modules': seq<ModuleSlot>, slot: RunSlot)
    requires SameManifests(modules, modules')
    ensures Budget(modules', slot) == Budget(modules, slot)
  {
    forall n | n in slot.run.assembly.nodes
      ensures Unused(modules', slot, n) == Unused(modules, slot, n)
    {
      ProvidersGrow(modules, modules', n);
      ProvidersGrow(modules', modules, n);
    }
    SameSum(modules, modules', slot, slot.run.assembly.nodes);
  }

  lemma {:induction false} SameSum(modules: seq<ModuleSlot>, modules': seq<ModuleSlot>, slot: RunSlot,
                                   nodes: seq<AssemblyNode>)
    requires forall n :: n in nodes ==> Unused(modules', slot, n) == Unused(modules, slot, n)
    ensures UnusedSum(modules', slot, nodes) == UnusedSum(modules, slot, nodes)
  {
    if nodes != [] {
      assert nodes[0] in nodes;
      SameSum(modules, modules', slot, nodes[1..]);
    }
  }

  lemma ServedSpends(world: World, log: RunLog, call: Option<RunCall>)
    requires Safe(log.slot) && StepsBounded(log.slot.run) && DistinctNodeIds(log.slot.run.assembly.nodes)
    requires call.Some? ==> !call.value.RInject?
    ensures Budget(world.modules, Served(world, log, call).slot)
            + (if call.Some? && log.slot.run.state == Running then ClaimsBy(world.modules, log.slot, call.value) else 0)
         <= Budget(world.modules, log.slot)
    ensures ClaimBound(Served(world, log, call).slot) == ClaimBound(log.slot)
  {
    if call.Some? && Accepted(world, log, call.value) {
      ServeSpends(world, log, call.value);
      ServeFreezes(world, log, call.value);
    }
  }

  lemma KnownIds(config: Config, calls: seq<Call>)
    ensures forall q :: q in After(config, calls).runs ==> After(config, calls).runs[q].run.id == q
  {
    forall q | q in After(config, calls).runs
      ensures After(config, calls).runs[q].run.id == q
    {
      RunInOrder(config, calls, q);
    }
  }

  lemma LastCallLogged(config: Config, calls: seq<Call>, r: string)
    requires calls != [] && History(config, calls) && Unforged(calls)
    ensures var state := After(config, calls[..|calls| - 1]);
      ClaimsLogged(After(config, calls).ledger, r)
        == ClaimsLogged(state.ledger, r) + ClaimsMade(state, calls[|calls| - 1], r)
  {
    KnownIds(config, calls[..|calls| - 1]);
    DoLogged(config, After(config, calls[..|calls| - 1]), calls[|calls| - 1], r);
  }

  /** Claims already on the ledger and claims still possible. */
  ghost predicate WithinQuota(state: State, r: string)
    requires r in state.runs
  {
    ClaimsLogged(state.ledger, r) + Budget(state.modules, state.runs[r]) <= ClaimBound(state.runs[r])
  }

  lemma QuotaKept(config: Config, calls: seq<Call>, r: string)
    requires calls != [] && History(config, calls) && Unforged(calls) && r in After(config, calls[..|calls| - 1]).runs
    requires QuietIn(r)(After(config, calls[..|calls| - 1]), calls[|calls| - 1])
    requires WithinQuota(After(config, calls[..|calls| - 1]), r)
    ensures r in After(config, calls).runs && WithinQuota(After(config, calls), r)
  {
    hide Budget, Served, ClaimBound, Do, CallOn, ClaimsBy, History;
    var front, call := calls[..|calls| - 1], calls[|calls| - 1];
    var state, state' := After(config, front), After(config, calls);
    LastCallLogged(config, calls, r);
    LastCall(config, calls, r);
    assert CallOn(call, r).Some? ==> !CallOn(call, r).value.RInject? by { QuietCall(call, r, state); }
    ServedSpends(WorldOf(state), LogOf(state, r), CallOn(call, r));
    ManifestsStay(config, state, call);
    SameBudget(state.modules, state'.modules, state'.runs[r]);
  }

  lemma QuietCall(call: Call, r: string, state: State)
    requires QuietIn(r)(state, call)
    ensures CallOn(call, r).Some? ==> !CallOn(call, r).value.RInject?
  {
  }

  lemma {:induction false} BudgetHolds(config: Config, calls: seq<Call>, r: string)
    requires History(config, calls) && Unforged(calls) && Throughout(config, calls, r, QuietIn(r))
    ensures var state := After(config, calls);
      if r in state.runs then WithinQuota(state, r) else ClaimsLogged(state.ledger, r) == 0
  {
    if calls != [] {
      hide WithinQuota, Fresh, Do;
      var state, state' := After(config, calls[..|calls| - 1]), After(config, calls);
      BudgetHolds(config, calls[..|calls| - 1], r);
      if r in state.runs {
        QuotaKept(config, calls, r);
      } else {
        LastCallLogged(config, calls, r);
        if r in state'.runs {
          FirstCall(config, calls, r);
          FreshBudget(state'.modules, LogOf(state', r));
          QuotaOpens(state', r);
        }
      }
    }
  }

  lemma QuotaOpens(state: State, r: string)
    requires r in state.runs && ClaimsLogged(state.ledger, r) == 0
    requires Budget(state.modules, state.runs[r]) <= ClaimBound(state.runs[r])
    ensures WithinQuota(state, r)
  {
  }

  /** At any moment: as long as nothing was registered since the run was started
    * and nothing injected into it, the ledger shows at most max_steps * nodes *
    * max_attempts claims of it. */
  lemma ClaimsBounded(config: Config, calls: seq<Call>, r: string)
    requires History(config, calls) && Unforged(calls) && r in After(config, calls).runs
    requires Throughout(config, calls, r, QuietIn(r))
    ensures var slot := After(config, calls).runs[r];
      ClaimsLogged(After(config, calls).ledger, r)
        <= slot.run.maxSteps * (|slot.run.assembly.nodes| * slot.maxAttempts)
  {
    BudgetHolds(config, calls, r);
  }
}
