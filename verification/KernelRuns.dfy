/** Every run a kernel holds, after any history of calls, is a run of the
  * scheduler: it started fresh from a validated assembly and took only enabled
  * moves, in a registry and artifact store that only grew. So the scheduler's
  * theorems hold of the kernel. */
module KernelRuns {
  import opened Base
  import opened Types
  import opened Scheduler
  import opened Moves
  import opened Assemblies
  import opened Safety
  import opened Accounting
  import opened Provenance
  import opened Deliveries
  import opened Kernel

  // ---------------------------------------------------------------- a call as one run sees it

  /** What a kernel call asks of the run `r`, if it is about that run. */
  function CallOn(call: Call, r: string): Option<RunCall> {
    match call
    case CInject(runId, input) => if runId == r then Some(RInject(input)) else None
    case CClaim(claim, now, _) => if claim.runId == r then Some(RClaim(claim, now)) else None
    case CHeartbeat(runId, ids, extend, now, _) => if runId == r then Some(RBeat(ids, extend, now)) else None
    case CFail(runId, id, _, terminal, now, _) => if runId == r then Some(RFail(id, terminal, now)) else None
    case CCommit(runId, id, nodeId, outputs, now, _) =>
      if runId == r then Some(RCommit(id, nodeId, outputs, now)) else None
    case CCancel(runId) => if runId == r then Some(RCancel) else None
    case _ => None
  }

  /** A run is served the calls about it that are not refused. */
  function Served(world: World, log: RunLog, call: Option<RunCall>): RunLog {
    if call.Some? && Accepted(world, log, call.value) then Serve(world, log, call.value) else log
  }

  // ---------------------------------------------------------------- the kernel refines its runs

  /** Claims carry ids of their own run, and derivations belong to known runs. */
  ghost predicate Owned(state: State) {
    && (forall r, id :: r in state.runs && id in state.runs[r].claimed ==> state.runs[r].claimed[id].id.run == r)
    && (forall i :: 0 <= i < |state.derivations| ==> state.derivations[i].work.run in state.runs)
  }

  /** What one kernel call does to the runs already there. */
  ghost predicate Refines(state: State, state': State, call: Call) {
    && Grows(WorldOf(state), WorldOf(state'))
    && (forall r :: r in state.runs ==>
          r in state'.runs && LogOf(state', r) == Served(WorldOf(state), LogOf(state, r), CallOn(call, r)))
    && (forall i :: 0 <= i < |state'.derivations| ==> state'.derivations[i].work.run in state'.runs)
  }

  lemma {:induction false} NoDerivations(ds: seq<Derivation>, r: string)
    requires forall i :: 0 <= i < |ds| ==> ds[i].work.run != r
    ensures DerivationsOf(ds, r) == []
  {
    if ds != [] {
      NoDerivations(ds[..|ds| - 1], r);
    }
  }

  lemma DerivationsGrow(ds: seq<Derivation>, d: Derivation, r: string)
    ensures DerivationsOf(ds + [d], r) == DerivationsOf(ds, r) + if d.work.run == r then [d] else []
  {
    assert (ds + [d])[..|ds|] == ds;
  }

  lemma RunsUntouched(state: State, state': State, call: Call)
    requires Owned(state) && Grows(WorldOf(state), WorldOf(state'))
    requires state'.runs == state.runs && state'.derivations == state.derivations
    requires forall r :: r in state.runs ==> Served(WorldOf(state), LogOf(state, r), CallOn(call, r)) == LogOf(state, r)
    ensures Refines(state, state', call)
  {
  }

  /** A call that its run refuses. */
  lemma NothingServed(state: State, r: string, call: Call)
    requires Owned(state) && forall q :: q != r ==> CallOn(call, q).None?
    requires r in state.runs && CallOn(call, r).Some? ==>
      !Accepted(WorldOf(state), LogOf(state, r), CallOn(call, r).value)
    ensures Refines(state, state, call)
  {
    RunsUntouched(state, state, call);
  }

  lemma OneRunServed(state: State, r: string, slot: RunSlot, events: seq<Payload>, call: Call)
    requires Owned(state) && r in state.runs && CallOn(call, r).Some?
    requires forall q :: q != r ==> CallOn(call, q).None?
    requires Accepted(WorldOf(state), LogOf(state, r), CallOn(call, r).value)
    requires Serve(WorldOf(state), LogOf(state, r), CallOn(call, r).value) == LogOf(state, r).(slot := slot)
    ensures Refines(state, Update(state, r, slot, events), call)
  {
    var state' := Update(state, r, slot, events);
    assert LogOf(state', r) == Serve(WorldOf(state), LogOf(state, r), CallOn(call, r).value);
  }

  lemma ClaimRefines(state: State, req: ClaimRequest, now: int, order: seq<WorkId>)
    requires Owned(state)
    ensures Refines(state, Claim(state, req, now, order).0, CClaim(req, now, order))
  {
    var call := CClaim(req, now, order);
    if RunFault(state, req.runId).None? {
      var slot := state.runs[req.runId];
      var events := ReapEvents(slot, order)
        + ClaimEvents(Reap(slot, now), ChosenFor(state.modules, Reap(slot, now), req), now)
        + StallEvents(slot, ClaimReady(state.modules, slot, req, now));
      OneRunServed(state, req.runId, ClaimReady(state.modules, slot, req, now), events, call);
    } else {
      NothingServed(state, req.runId, call);
    }
  }

  lemma BeatRefines(state: State, r: string, ids: seq<WorkId>, extend: nat, now: int, order: seq<WorkId>)
    requires Owned(state)
    ensures Refines(state, Beat(state, r, ids, extend, now, order).0, CHeartbeat(r, ids, extend, now, order))
  {
    var call := CHeartbeat(r, ids, extend, now, order);
    if RunFault(state, r).None? {
      var slot := state.runs[r];
      var until := LeaseEnd(now, if extend == 0 then slot.defaultLeaseMs else extend);
      OneRunServed(state, r, Heartbeat(slot, ids, extend, now), ReapEvents(RenewAll(slot, ids, until), order), call);
    } else {
      NothingServed(state, r, call);
    }
  }

  lemma FailRefines(state: State, r: string, id: WorkId, reason: string, terminal: bool, now: int, order: seq<WorkId>)
    requires Owned(state)
    ensures Refines(state, Fail(state, r, id, reason, terminal, now, order).0,
                    CFail(r, id, reason, terminal, now, order))
  {
    var call := CFail(r, id, reason, terminal, now, order);
    if RunFault(state, r).None? {
      var state' := Fail(state, r, id, reason, terminal, now, order).0;
      var events := state'.ledger[|state.ledger|..];
      var slot := FailWork(state.modules, state.runs[r], id, terminal, now).0;
      assert state' == Update(state, r, slot, events);
      OneRunServed(state, r, slot, events, call);
    } else {
      NothingServed(state, r, call);
    }
  }

  lemma InjectRefines(state: State, r: string, input: NamedArtifact)
    requires Owned(state)
    ensures Refines(state, InjectInput(state, r, input).0, CInject(r, input))
  {
    if InjectFault(state, r, input).None? {
      OneRunServed(state, r, Inject(state.runs[r], input), [InputInjected(r, input)], CInject(r, input));
    } else {
      NothingServed(state, r, CInject(r, input));
    }
  }

  lemma CancelRefines(state: State, r: string)
    requires Owned(state)
    ensures Refines(state, CancelRun(state, r).0, CCancel(r))
  {
    if RunFault(state, r).None? {
      var slot := Cancel(state.runs[r]);
      OneRunServed(state, r, slot, [RunUpdated(slot.run)], CCancel(r));
    } else {
      NothingServed(state, r, CCancel(r));
    }
  }

  /** A commit adds its derivation to its own run's log and to no other. */
  lemma AcceptedCommitRefines(state: State, r: string, slot: RunSlot, d: Derivation, events: seq<Payload>, call: Call)
    requires Owned(state) && r in state.runs && CallOn(call, r).Some? && d.work.run == r
    requires forall q :: q != r ==> CallOn(call, q).None?
    requires Accepted(WorldOf(state), LogOf(state, r), CallOn(call, r).value)
    requires Serve(WorldOf(state), LogOf(state, r), CallOn(call, r).value)
          == RunLog(slot, DerivationsOf(state.derivations, r) + [d])
    ensures Refines(state, Update(state, r, slot, events).(derivations := state.derivations + [d]), call)
  {
    var state' := Update(state, r, slot, events).(derivations := state.derivations + [d]);
    forall q | q in state.runs
      ensures LogOf(state', q) == Served(WorldOf(state), LogOf(state, q), CallOn(call, q))
    {
      DerivationsGrow(state.derivations, d, q);
    }
  }

  lemma CommitRefines(state: State, r: string, id: WorkId, nodeId: string, outputs: seq<NamedArtifact>, now: int,
                      order: seq<WorkId>)
    requires Owned(state)
    ensures Refines(state, CommitWork(state, r, id, nodeId, outputs, now, order).0,
                    CCommit(r, id, nodeId, outputs, now, order))
  {
    var call := CCommit(r, id, nodeId, outputs, now, order);
    if RunFault(state, r).None? {
      var slot, log := state.runs[r], LogOf(state, r);
      var reaped := Reap(slot, now);
      var result := Commit(WorldOf(state), log, id, nodeId, outputs, now);
      if result.1.Some? || id !in reaped.claimed {
        OneRunServed(state, r, result.0.slot, ReapEvents(slot, order), call);
      } else {
        var d := DerivationOf(reaped.claimed[id], outputs);
        assert reaped.claimed[id] == slot.claimed[id];
        AcceptedCommitRefines(state, r, result.0.slot, d,
                              ReapEvents(slot, order) + [DerivationCommitted(d), RunUpdated(result.0.slot.run)], call);
      }
    } else {
      NothingServed(state, r, call);
    }
  }

  lemma StartRefines(state: State, req: RunRequest)
    requires Owned(state)
    ensures Refines(state, StartRun(state, req).0, CStart(req))
  {
    hide StartFault, Materialize, FreshSlot, Accepted, Serve;
    var state' := StartRun(state, req).0;
    assert WorldOf(state') == WorldOf(state) && state'.derivations == state.derivations;
    forall r | r in state.runs
      ensures r in state'.runs && LogOf(state', r) == LogOf(state, r)
    {
      StartKeepsRuns(state, req, r);
    }
  }

  lemma StartKeepsRuns(state: State, req: RunRequest, r: string)
    requires r in state.runs
    ensures var state' := StartRun(state, req).0;
      r in state'.runs && state'.runs[r] == state.runs[r] && state'.derivations == state.derivations
  {
    hide AssemblyFault, Materialize, FreshSlot;
  }

  lemma RegisterGrows(hashes: Hashes, state: State, manifest: ModuleManifest)
    ensures Grows(WorldOf(state), WorldOf(Register(hashes, state, manifest)))
  {
  }

  lemma TransitionGrows(state: State, name: string, to: Lifecycle)
    ensures Grows(WorldOf(state), WorldOf(Transition(state, name, to).0))
  {
  }

  lemma PutArtifactGrows(config: Config, state: State, traits: map<string, Trait>, about: seq<string>)
    ensures Grows(WorldOf(state), WorldOf(PutArtifact(config.hashes, config.policy, state, traits, about).0))
  {
  }

  /** Calls that touch no run. */
  predicate LeavesRuns(call: Call) {
    call.CRegister? || call.CTransition? || call.CPutContract? || call.CPutArtifact? || call.CPutBlob?
    || call.CPublish? || call.CAppend?
  }

  lemma RunsStay(config: Config, state: State, call: Call)
    requires LeavesRuns(call)
    ensures Do(config, state, call).runs == state.runs && Do(config, state, call).derivations == state.derivations
  {
  }

  lemma ContractKeepsWorld(hashes: Hashes, state: State, contract: Contract)
    ensures WorldOf(PutContract(hashes, state, contract).0) == WorldOf(state)
  {
  }

  lemma BlobKeepsWorld(config: Config, state: State, namespace: string, data: Bytes)
    ensures WorldOf(PutBlob(config.hashes, config.policy, state, namespace, data).0) == WorldOf(state)
  {
  }

  lemma RegistryGrows(config: Config, state: State, call: Call)
    requires LeavesRuns(call)
    ensures Grows(WorldOf(state), WorldOf(Do(config, state, call)))
  {
    hide Register, Transition, PutContract, PutArtifact, PutBlob;
    match call
    case CRegister(manifest) => RegisterGrows(config.hashes, state, manifest);
    case CTransition(name, to) => TransitionGrows(state, name, to);
    case CPutArtifact(traits, about) => PutArtifactGrows(config, state, traits, about);
    case CPutContract(contract) => ContractKeepsWorld(config.hashes, state, contract);
    case CPutBlob(namespace, data) => BlobKeepsWorld(config, state, namespace, data);
    case _ =>
  }

  lemma RegistryCallRefines(config: Config, state: State, call: Call)
    requires Owned(state) && LeavesRuns(call)
    ensures Refines(state, Do(config, state, call), call)
  {
    RunsStay(config, state, call);
    RegistryGrows(config, state, call);
    RunsUntouched(state, Do(config, state, call), call);
  }

  lemma RunCallRefines(config: Config, state: State, call: Call)
    requires Owned(state) && !LeavesRuns(call)
    ensures Refines(state, Do(config, state, call), call)
  {
    match call
    case CStart(request) => StartRefines(state, request);
    case CInject(runId, input) => InjectRefines(state, runId, input);
    case CClaim(claim, now, order) => ClaimRefines(state, claim, now, order);
    case CHeartbeat(runId, ids, extend, now, order) => BeatRefines(state, runId, ids, extend, now, order);
    case CFail(runId, work, reason, terminal, now, order) =>
      FailRefines(state, runId, work, reason, terminal, now, order);
    case CCommit(runId, work, nodeId, outputs, now, order) =>
      CommitRefines(state, runId, work, nodeId, outputs, now, order);
    case CCancel(runId) => CancelRefines(state, runId);
  }

  /** Each kernel call is, for each run already started, either nothing or one
    * call served by the scheduler, in a world that only grows. */
  lemma DoRefines(config: Config, state: State, call: Call)
    requires Owned(state)
    ensures Refines(state, Do(config, state, call), call)
  {
    if LeavesRuns(call) {
      RegistryCallRefines(config, state, call);
    } else {
      RunCallRefines(config, state, call);
    }
  }

  // ---------------------------------------------------------------- runs are genuine

  ghost function FromBase(base: World): StepRule {
    (log: RunLog, s: Step) => Grows(base, s.world)
  }

  /** The run started as `start`, validated in `base`, and got here by moves. */
  ghost predicate Origin(world: World, r: string, log: RunLog, base: World, start: RunLog) {
    && Fresh(start) && EpochsFit(start.slot) && start.slot.run.id == r
    && ValidAssembly(base, start.slot.run.assembly, start.slot.run.inputs)
    && Grows(base, world) && Reaches(FromBase(base), world, start, log)
  }

  ghost predicate Genuine(world: World, r: string, log: RunLog) {
    exists base: World, start: RunLog :: Origin(world, r, log, base, start)
  }

  lemma OriginSound(world: World, r: string, log: RunLog, base: World, start: RunLog)
    requires Origin(world, r, log, base, start)
    ensures Safe(log.slot) && Accounted(log) && AllSourced(log) && NotAhead(log.slot)
    ensures log.slot.run.id == r && DistinctNodeIds(log.slot.run.assembly.nodes)
  {
    var steps: seq<Step> :| Leads(FromBase(base), world, start, steps, log);
    AlwaysSafe(start, steps);
    AlwaysAccounted(start, steps);
    AlwaysSourced(start, steps);
    NeverAhead(start, steps);
    FrozenRun(start, steps);
  }

  lemma GenuineLater(world: World, later: World, r: string, log: RunLog)
    requires Genuine(world, r, log) && Grows(world, later)
    ensures Genuine(later, r, log)
  {
    var base: World, start: RunLog :| Origin(world, r, log, base, start);
    GrowsTransitive(base, world, later);
    ReachLater(FromBase(base), world, later, start, log);
    assert Origin(later, r, log, base, start);
  }

  lemma GenuineServed(world: World, r: string, log: RunLog, call: Option<RunCall>)
    requires Genuine(world, r, log)
    ensures Genuine(world, r, Served(world, log, call))
  {
    if call.Some? && Accepted(world, log, call.value) {
      var base: World, start: RunLog :| Origin(world, r, log, base, start);
      OriginSound(world, r, log, base, start);
      ServeIsPath(FromBase(base), world, start, log, call.value);
      assert Origin(world, r, Serve(world, log, call.value), base, start);
    }
  }

  lemma StartsGenuine(world: World, req: RunRequest, assembly: Assembly)
    requires ValidAssembly(world, assembly, req.inputs)
    ensures Genuine(world, req.id, RunLog(FreshSlot(req, assembly), []))
  {
    var start := RunLog(FreshSlot(req, assembly), []);
    ReachSelf(FromBase(world), world, start);
    assert Origin(world, req.id, start, world, start);
  }

  ghost predicate AllGenuine(state: State) {
    && (forall r :: r in state.runs ==> Genuine(WorldOf(state), r, LogOf(state, r)))
    && (forall i :: 0 <= i < |state.derivations| ==> state.derivations[i].work.run in state.runs)
  }

  lemma GenuineNamed(world: World, r: string, log: RunLog)
    requires Genuine(world, r, log)
    ensures ClaimsNamed(log.slot) && log.slot.run.id == r
  {
    var base: World, start: RunLog :| Origin(world, r, log, base, start);
    OriginSound(world, r, log, base, start);
  }

  lemma GenuineOwned(state: State)
    requires AllGenuine(state)
    ensures Owned(state)
  {
    forall r, id | r in state.runs && id in state.runs[r].claimed
      ensures state.runs[r].claimed[id].id.run == r
    {
      GenuineNamed(WorldOf(state), r, LogOf(state, r));
    }
  }

  lemma OnlyStartAddsRuns(config: Config, state: State, call: Call, r: string)
    requires r !in state.runs && r in Do(config, state, call).runs
    ensures call.CStart? && StartFault(state, call.request).None? && call.request.id == r
  {
    hide Register, Transition, PutContract, PutArtifact, PutBlob, Claim, Beat, Fail, CommitWork;
    if LeavesRuns(call) {
      RunsStay(config, state, call);
    } else if !call.CStart? {
      RunCallAddsNone(config, state, call, r);
    }
  }

  lemma RunCallAddsNone(config: Config, state: State, call: Call, r: string)
    requires !LeavesRuns(call) && !call.CStart?
    ensures r in Do(config, state, call).runs ==> r in state.runs
  {
  }

  /** What starting a run asks for, once nothing is wrong with it. */
  lemma Startable(state: State, req: RunRequest)
    requires StartFault(state, req).None?
    ensures req.assembly.Some? && Materialize(req.assembly.value, req.includeNodes).Some?
    ensures ValidAssembly(WorldOf(state), Materialize(req.assembly.value, req.includeNodes).value, req.inputs)
  {
    hide AssemblyFault, ValidAssembly, Materialize;
  }

  lemma StartedLog(state: State, req: RunRequest, assembly: Assembly)
    requires StartFault(state, req).None? && Materialize(req.assembly.value, req.includeNodes) == Some(assembly)
    requires forall i :: 0 <= i < |state.derivations| ==> state.derivations[i].work.run in state.runs
    ensures var state' := StartRun(state, req).0;
      && req.id !in state.runs && req.id in state'.runs && WorldOf(state') == WorldOf(state)
      && LogOf(state', req.id) == RunLog(FreshSlot(req, assembly), [])
  {
    hide AssemblyFault, Materialize, FreshSlot;
    NoDerivations(state.derivations, req.id);
  }

  lemma NewRunsGenuine(config: Config, state: State, call: Call, r: string)
    requires AllGenuine(state) && r !in state.runs && r in Do(config, state, call).runs
    ensures Genuine(WorldOf(Do(config, state, call)), r, LogOf(Do(config, state, call), r))
  {
    hide Genuine, Materialize, FreshSlot, StartFault, StartRun, WorldOf, LogOf;
    OnlyStartAddsRuns(config, state, call, r);
    Startable(state, call.request);
    var assembly := Materialize(call.request.assembly.value, call.request.includeNodes).value;
    StartedLog(state, call.request, assembly);
    StartsGenuine(WorldOf(state), call.request, assembly);
  }

  lemma DoGenuine(config: Config, state: State, call: Call)
    requires AllGenuine(state)
    ensures AllGenuine(Do(config, state, call))
  {
    GenuineOwned(state);
    DoRefines(config, state, call);
    var state' := Do(config, state, call);
    forall r | r in state'.runs
      ensures Genuine(WorldOf(state'), r, LogOf(state', r))
    {
      if r in state.runs {
        GenuineServed(WorldOf(state), r, LogOf(state, r), CallOn(call, r));
        GenuineLater(WorldOf(state), WorldOf(state'), r, LogOf(state', r));
      } else {
        NewRunsGenuine(config, state, call, r);
      }
    }
  }

  /** After any history of calls, every run of the kernel is a scheduler run. */
  lemma {:induction false} HistoryIsGenuine(config: Config, calls: seq<Call>)
    ensures AllGenuine(After(config, calls))
  {
    if calls != [] {
      HistoryIsGenuine(config, calls[..|calls| - 1]);
      DoGenuine(config, After(config, calls[..|calls| - 1]), calls[|calls| - 1]);
    }
  }

  /** The scheduler's invariants, for every run of every kernel history. */
  lemma KernelRunsAreSound(config: Config, calls: seq<Call>, r: string)
    requires r in After(config, calls).runs
    ensures var state := After(config, calls);
      Safe(state.runs[r]) && Accounted(LogOf(state, r)) && AllSourced(LogOf(state, r)) && NotAhead(state.runs[r])
  {
    HistoryIsGenuine(config, calls);
    var state := After(config, calls);
    var base: World, start: RunLog :| Origin(WorldOf(state), r, LogOf(state, r), base, start);
    OriginSound(WorldOf(state), r, LogOf(state, r), base, start);
  }

  /** The steps by which a run of a kernel got where it is, and the world in which
    * it was validated. */
  lemma StepsOf(config: Config, calls: seq<Call>, r: string) returns (base: World, start: RunLog, steps: seq<Step>)
    requires r in After(config, calls).runs
    ensures Fresh(start) && IsRun(start, steps) && RunSteps(start, steps) == LogOf(After(config, calls), r)
    ensures forall i :: 0 <= i < |steps| ==> Grows(base, steps[i].world)
    ensures Grows(base, WorldOf(After(config, calls)))
    ensures ValidAssembly(base, start.slot.run.assembly, start.slot.run.inputs)
    ensures SameRun(start.slot, After(config, calls).runs[r]) && start.slot.run.id == r
    ensures Capable(base, start.slot.run.assembly.nodes)
  {
    hide Fresh, ValidAssembly;
    HistoryIsGenuine(config, calls);
    var state := After(config, calls);
    var b: World, s: RunLog :| Origin(WorldOf(state), r, LogOf(state, r), b, s);
    base, start := b, s;
    steps :| Leads(FromBase(base), WorldOf(state), start, steps, LogOf(state, r));
    forall i | 0 <= i < |steps|
      ensures Grows(base, steps[i].world)
    {
      assert FromBase(base)(RunSteps(start, steps[..i]), steps[i]);
    }
    FrozenRun(start, steps);
    ValidCapable(base, start.slot.run.assembly, start.slot.run.inputs);
  }
}
