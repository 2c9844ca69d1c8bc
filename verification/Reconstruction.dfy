/** Ledger reconstruction for whole histories: after any proper calls, replaying
  * the ledger gives the kernel's state, as far as a ledger can show it. */
module Reconstruction {
  import opened Base
  import opened Types
  import opened Scheduler
  import opened Moves
  import opened Safety
  import opened Kernel
  import opened KernelRuns
  import opened Replay
  import opened Forgery

  /** The call appended these entries, and replaying them makes its change. */
  ghost predicate Recorded(hashes: Hashes, state: State, state': State, entries: seq<Payload>) {
    state'.ledger == state.ledger + entries && ReplayAll(hashes, ViewState(state), entries) == ViewState(state')
  }

  ghost predicate IsRecorded(hashes: Hashes, state: State, state': State) {
    exists entries :: Recorded(hashes, state, state', entries)
  }

  lemma Unchanged(hashes: Hashes, state: State)
    ensures IsRecorded(hashes, state, state)
  {
    assert state.ledger + [] == state.ledger;
    assert Recorded(hashes, state, state, []);
  }

  lemma OneEntry(hashes: Hashes, state: State, state': State, p: Payload)
    requires state'.ledger == state.ledger + [p]
    requires ReplayEntry(hashes, ViewState(state), p) == ViewState(state')
    ensures IsRecorded(hashes, state, state')
  {
    ReplayOne(hashes, ViewState(state), p);
    assert Recorded(hashes, state, state', [p]);
  }

  // ---------------------------------------------------------------- registry and stores

  lemma RegisterRecorded(hashes: Hashes, state: State, manifest: ModuleManifest)
    ensures IsRecorded(hashes, state, Register(hashes, state, manifest))
  {
    OneEntry(hashes, state, Register(hashes, state, manifest), ModuleRegistered(manifest));
  }

  lemma TransitionRecorded(hashes: Hashes, state: State, name: string, to: Lifecycle)
    ensures IsRecorded(hashes, state, Transition(state, name, to).0)
  {
    var state' := Transition(state, name, to).0;
    if state'.ledger == state.ledger + [ModuleAdvanced(name, to)] {
      OneEntry(hashes, state, state', ModuleAdvanced(name, to));
    } else {
      Unchanged(hashes, state);
    }
  }

  lemma ContractRecorded(hashes: Hashes, state: State, contract: Contract)
    ensures IsRecorded(hashes, state, PutContract(hashes, state, contract).0)
  {
    var state' := PutContract(hashes, state, contract).0;
    if state' != state {
      var c := state'.contracts[contract.ref];
      OneEntry(hashes, state, state', ContractRegistered(c));
    } else {
      Unchanged(hashes, state);
    }
  }

  /** Clearing the bodies of external traits clears nothing: a valid external
    * trait has no body. So the entry holds the whole stored artifact. */
  lemma NothingCleared(hashes: Hashes, policy: StorePolicy, traits: map<string, Trait>)
    requires ContentValid(hashes, policy, traits)
    ensures LedgerTraits(traits) == traits
  {
    forall c | c in traits
      ensures LedgerTraits(traits)[c] == traits[c]
    {
      assert TraitWellFormed(hashes, traits[c]);
    }
  }

  lemma ArtifactRecorded(config: Config, state: State, traits: map<string, Trait>, about: seq<string>)
    ensures IsRecorded(config.hashes, state, PutArtifact(config.hashes, config.policy, state, traits, about).0)
  {
    var state' := PutArtifact(config.hashes, config.policy, state, traits, about).0;
    if state' != state {
      NothingCleared(config.hashes, config.policy, traits);
      OneEntry(config.hashes, state, state', ArtifactPut(Artifact(config.hashes.artifact(traits), traits, about)));
    } else {
      Unchanged(config.hashes, state);
    }
  }

  lemma BlobRecorded(config: Config, state: State, namespace: string, data: Bytes)
    ensures IsRecorded(config.hashes, state, PutBlob(config.hashes, config.policy, state, namespace, data).0)
  {
    var state' := PutBlob(config.hashes, config.policy, state, namespace, data).0;
    if state' != state {
      var ref := ObjectRef(config.hashes.blob(data), |data|, namespace);
      assert ViewState(state').blobs == ViewState(state).blobs[(namespace, ref.digest) := ref];
      OneEntry(config.hashes, state, state', BlobPut(ref));
    } else {
      Unchanged(config.hashes, state);
    }
  }

  lemma FreshView(req: RunRequest, assembly: Assembly)
    ensures ViewSlot(FreshSlot(req, assembly)) == StartedView(FreshSlot(req, assembly).run)
    ensures FreshSlot(req, assembly).run.id == req.id
  {
  }

  lemma StartedRecorded(hashes: Hashes, state: State, r: string, slot: RunSlot)
    requires slot.run.id == r && ViewSlot(slot) == StartedView(slot.run)
    ensures IsRecorded(hashes, state, Update(state, r, slot, [RunStarted(slot.run)]))
  {
    RunsView(state, r, slot);
    OneEntry(hashes, state, Update(state, r, slot, [RunStarted(slot.run)]), RunStarted(slot.run));
  }

  lemma StartRecorded(hashes: Hashes, state: State, req: RunRequest)
    ensures IsRecorded(hashes, state, StartRun(state, req).0)
  {
    if StartFault(state, req).None? {
      var assembly := Materialize(req.assembly.value, req.includeNodes).value;
      FreshView(req, assembly);
      StartedRecorded(hashes, state, req.id, FreshSlot(req, assembly));
    } else {
      Unchanged(hashes, state);
    }
  }

  // ---------------------------------------------------------------- runs

  lemma RunsView(state: State, r: string, slot: RunSlot)
    ensures ViewState(state.(runs := state.runs[r := slot]))
         == ViewState(state).(runs := ViewState(state).runs[r := ViewSlot(slot)])
  {
  }

  lemma UpdateRecorded(hashes: Hashes, state: State, r: string, slot: RunSlot, events: seq<Payload>)
    requires r in state.runs && AboutRun(r, events)
    requires ReplayRunAll(ViewSlot(state.runs[r]), events) == ViewSlot(slot)
    ensures IsRecorded(hashes, state, Update(state, r, slot, events))
  {
    ReplayAboutRun(hashes, ViewState(state), r, events);
    RunsView(state, r, slot);
    assert ViewState(Update(state, r, slot, events)) == ViewState(state.(runs := state.runs[r := slot]));
    assert Recorded(hashes, state, Update(state, r, slot, events), events);
  }

  ghost predicate RunNamed(state: State, r: string) {
    r in state.runs ==> IdsMatch(state.runs[r]) && state.runs[r].run.id == r
  }

  lemma AboutBoth(r: string, a: seq<Payload>, b: seq<Payload>)
    requires AboutRun(r, a) && AboutRun(r, b)
    ensures AboutRun(r, a + b)
  {
  }

  lemma ClaimRecorded(hashes: Hashes, state: State, req: ClaimRequest, now: int, order: seq<WorkId>)
    requires RunNamed(state, req.runId)
    requires req.runId in state.runs ==> ExpiredOrder(state.runs[req.runId], now, order)
    ensures IsRecorded(hashes, state, Claim(state, req, now, order).0)
  {
    if RunFault(state, req.runId).Some? {
      Unchanged(hashes, state);
    } else {
      var slot := state.runs[req.runId];
      var reaped, slot' := Reap(slot, now), ClaimReady(state.modules, slot, req, now);
      var cs := ChosenFor(state.modules, reaped, req);
      ReapingReplays(slot, now, order);
      ReapKeepsIds(slot, now);
      ClaimsReplay(reaped, cs, now);
      ClaimThenStall(state.modules, slot, req, now);
      var a, b, c := ReapEvents(slot, order), ClaimEvents(reaped, cs, now), StallEvents(slot, slot');
      ReplayRunAppend(ViewSlot(slot), a, b);
      ReplayRunAppend(ViewSlot(slot), a + b, c);
      AboutBoth(req.runId, a, b);
      AboutBoth(req.runId, a + b, c);
      UpdateRecorded(hashes, state, req.runId, slot', a + b + c);
    }
  }

  /** After the claims either nothing more happens, or the idle run stalls. */
  lemma ClaimThenStall(modules: seq<ModuleSlot>, slot: RunSlot, req: ClaimRequest, now: int)
    requires slot.run.state == Running
    ensures var reaped, slot' := Reap(slot, now), ClaimReady(modules, slot, req, now);
      var taken := TakeAll(reaped, ChosenFor(modules, reaped, req), now);
      && ReplayRunAll(ViewSlot(taken), StallEvents(slot, slot')) == ViewSlot(slot')
      && AboutRun(slot.run.id, StallEvents(slot, slot'))
  {
    var reaped := Reap(slot, now);
    var chosen := ChosenFor(modules, reaped, req);
    TakeAllRun(reaped, chosen, now);
    if chosen == [] {
      StallReplays(modules, reaped);
    }
  }

  lemma BeatRecorded(hashes: Hashes, state: State, r: string, ids: seq<WorkId>, extend: nat, now: int,
                     order: seq<WorkId>)
    requires RunNamed(state, r)
    requires Proper(state, CHeartbeat(r, ids, extend, now, order))
    ensures IsRecorded(hashes, state, Beat(state, r, ids, extend, now, order).0)
  {
    if RunFault(state, r).Some? {
      Unchanged(hashes, state);
    } else {
      var slot := state.runs[r];
      var until := LeaseEnd(now, if extend == 0 then slot.defaultLeaseMs else extend);
      RenewalsInvisible(slot, ids, until);
      ReapingReplays(RenewAll(slot, ids, until), now, order);
      UpdateRecorded(hashes, state, r, Heartbeat(slot, ids, extend, now),
                     ReapEvents(RenewAll(slot, ids, until), order));
    }
  }

  lemma DropReplays(slot: RunSlot, id: WorkId, reason: string, terminal: bool)
    requires IdsMatch(slot) && id in slot.claimed
    ensures var item := slot.claimed[id];
      var e := WorkFailed(id, item.unit, reason, terminal || item.attempt >= slot.maxAttempts, item.attempt);
      ReplayRunAll(ViewSlot(slot), [e]) == ViewSlot(Drop(slot, id, terminal)) && AboutRun(slot.run.id, [e])
  {
    var item := slot.claimed[id];
    var e := WorkFailed(id, item.unit, reason, terminal || item.attempt >= slot.maxAttempts, item.attempt);
    assert [e][..0] == [] && ReplayRunAll(ViewSlot(slot), []) == ViewSlot(slot);
    UnleasedRemove(slot.claimed, id);
  }

  /** A reaping, a failure and perhaps a stall, as entries. */
  lemma FailureRecorded(hashes: Hashes, state: State, r: string, reaped: RunSlot, a: seq<Payload>, id: WorkId,
                        reason: string, terminal: bool)
    requires r in state.runs && state.runs[r].run.id == r && state.runs[r].run.state == Running
    requires reaped.run == state.runs[r].run && IdsMatch(reaped) && id in reaped.claimed && AboutRun(r, a)
    requires ReplayRunAll(ViewSlot(state.runs[r]), a) == ViewSlot(reaped)
    ensures var item := reaped.claimed[id];
      var slot' := StallIfIdle(state.modules, Drop(reaped, id, terminal));
      var e := WorkFailed(id, item.unit, reason, terminal || item.attempt >= reaped.maxAttempts, item.attempt);
      IsRecorded(hashes, state, Update(state, r, slot', a + [e] + StallEvents(state.runs[r], slot')))
  {
    DropReplays(reaped, id, reason, terminal);
    var item, slot := reaped.claimed[id], state.runs[r];
    var b := [WorkFailed(id, item.unit, reason, terminal || item.attempt >= reaped.maxAttempts, item.attempt)];
    StallReplays(state.modules, Drop(reaped, id, terminal));
    var slot' := StallIfIdle(state.modules, Drop(reaped, id, terminal));
    var c := StallEvents(slot, slot');
    ReplayRunAppend(ViewSlot(slot), a, b);
    ReplayRunAppend(ViewSlot(slot), a + b, c);
    AboutBoth(r, a, b);
    AboutBoth(r, a + b, c);
    UpdateRecorded(hashes, state, r, slot', a + b + c);
  }

  lemma FailRecorded(hashes: Hashes, state: State, r: string, id: WorkId, reason: string, terminal: bool, now: int,
                     order: seq<WorkId>)
    requires RunNamed(state, r)
    requires r in state.runs ==> ExpiredOrder(state.runs[r], now, order)
    ensures IsRecorded(hashes, state, Fail(state, r, id, reason, terminal, now, order).0)
  {
    hide StallIfIdle, IsRecorded, ReapEvents, ExpiredOrder, AboutRun;
    if RunFault(state, r).Some? {
      Unchanged(hashes, state);
    } else {
      var slot := state.runs[r];
      var reaped := Reap(slot, now);
      ReapingReplays(slot, now, order);
      ReapKeepsIds(slot, now);
      var a := ReapEvents(slot, order);
      if id !in reaped.claimed {
        assert a + [] + [] == a;
        UpdateRecorded(hashes, state, r, reaped, a);
      } else {
        FailureRecorded(hashes, state, r, reaped, a, id, if reason == "" then "failed" else reason, terminal);
      }
    }
  }

  lemma InjectRecorded(hashes: Hashes, state: State, r: string, input: NamedArtifact)
    ensures IsRecorded(hashes, state, InjectInput(state, r, input).0)
  {
    if InjectFault(state, r, input).Some? {
      Unchanged(hashes, state);
    } else {
      var slot, e := state.runs[r], InputInjected(r, input);
      assert [e][..0] == [] && ReplayRunAll(ViewSlot(slot), []) == ViewSlot(slot);
      assert ReplayRunAll(ViewSlot(slot), [e]) == ViewSlot(Inject(slot, input));
      UpdateRecorded(hashes, state, r, Inject(slot, input), [e]);
    }
  }

  lemma CancelRecorded(hashes: Hashes, state: State, r: string)
    requires RunNamed(state, r)
    ensures IsRecorded(hashes, state, CancelRun(state, r).0)
  {
    if RunFault(state, r).Some? {
      Unchanged(hashes, state);
    } else {
      var slot := state.runs[r];
      var e := RunUpdated(Cancel(slot).run);
      assert [e][..0] == [] && ReplayRunAll(ViewSlot(slot), []) == ViewSlot(slot);
      assert UnleasedAll(map[]) == map[];
      UpdateRecorded(hashes, state, r, Cancel(slot), [e]);
    }
  }

  // ---------------------------------------------------------------- commits

  lemma DerivationReplays(log: RunLog, id: WorkId, outputs: seq<NamedArtifact>)
    requires IdsMatch(log.slot) && id in log.slot.claimed
    ensures ReplayRun(ViewSlot(log.slot), DerivationCommitted(DerivationOf(log.slot.claimed[id], outputs)))
         == ViewSlot(CommitUnit(log, id, outputs).slot).(run := log.slot.run)
  {
    UnleasedRemove(log.slot.claimed, id);
  }

  lemma AdvanceNotCancelled(run: Run, node: string, outputs: seq<NamedArtifact>)
    requires run.state == Running
    ensures Advance(run, node, outputs).state != Cancelled && Advance(run, node, outputs).id == run.id
  {
  }

  lemma RunReplays(modules: seq<ModuleSlot>, slot: RunSlot, before: Run)
    requires slot.run.state != Cancelled
    ensures var slot' := StallIfIdle(modules, slot);
      ReplayRun(ViewSlot(slot).(run := before), RunUpdated(slot'.run)) == ViewSlot(slot')
  {
  }

  lemma CommitUnitReplays(modules: seq<ModuleSlot>, log: RunLog, id: WorkId, outputs: seq<NamedArtifact>)
    requires IdsMatch(log.slot) && id in log.slot.claimed && log.slot.run.state == Running
    ensures var d := DerivationOf(log.slot.claimed[id], outputs);
      var slot' := StallIfIdle(modules, CommitUnit(log, id, outputs).slot);
      && ReplayRun(ReplayRun(ViewSlot(log.slot), DerivationCommitted(d)), RunUpdated(slot'.run)) == ViewSlot(slot')
      && slot'.run.id == log.slot.run.id
  {
    AdvanceNotCancelled(log.slot.run, log.slot.claimed[id].node.id, outputs);
    DerivationReplays(log, id, outputs);
    RunReplays(modules, CommitUnit(log, id, outputs).slot, log.slot.run);
  }

  lemma CommitEntries(hashes: Hashes, v: View, r: string, d: Derivation, run: Run)
    requires r in v.runs && d.work.run == r && run.id == r
    ensures ReplayAll(hashes, v, [DerivationCommitted(d), RunUpdated(run)]) == v.(
      runs := v.runs[r := ReplayRun(ReplayRun(v.runs[r], DerivationCommitted(d)), RunUpdated(run))],
      derivations := v.derivations + [d])
  {
    var a, b := DerivationCommitted(d), RunUpdated(run);
    assert [a, b][..1] == [a];
    ReplayOne(hashes, v, a);
    var mid := ReplayEntry(hashes, v, a);
    assert mid.runs[r := ReplayRun(mid.runs[r], b)] == v.runs[r := ReplayRun(mid.runs[r], b)];
  }

  lemma CommitRecorded(hashes: Hashes, state: State, r: string, id: WorkId, nodeId: string,
                       outputs: seq<NamedArtifact>, now: int, order: seq<WorkId>)
    requires RunNamed(state, r)
    requires r in state.runs ==> ExpiredOrder(state.runs[r], now, order)
    ensures IsRecorded(hashes, state, CommitWork(state, r, id, nodeId, outputs, now, order).0)
  {
    if RunFault(state, r).Some? {
      Unchanged(hashes, state);
    } else {
      var slot := state.runs[r];
      ReapingReplays(slot, now, order);
      ReapKeepsIds(slot, now);
      var reaped := Reap(slot, now);
      if Commit(WorldOf(state), LogOf(state, r), id, nodeId, outputs, now).1.Some? || id !in reaped.claimed {
        UpdateRecorded(hashes, state, r, reaped, ReapEvents(slot, order));
      } else {
        AcceptedCommitRecorded(hashes, state, r, id, nodeId, outputs, now, order);
      }
    }
  }

  /** Entries about one run, then its derivation and its new state. */
  lemma CommitEntriesReplay(hashes: Hashes, v: View, r: string, a: seq<Payload>, mid: RunView, d: Derivation,
                            run: Run, end: RunView)
    requires r in v.runs && AboutRun(r, a) && ReplayRunAll(v.runs[r], a) == mid
    requires d.work.run == r && run.id == r
    requires ReplayRun(ReplayRun(mid, DerivationCommitted(d)), RunUpdated(run)) == end
    ensures ReplayAll(hashes, v, a + [DerivationCommitted(d), RunUpdated(run)])
         == v.(runs := v.runs[r := end], derivations := v.derivations + [d])
  {
    ReplayAboutRun(hashes, v, r, a);
    ReplayAppend(hashes, v, a, [DerivationCommitted(d), RunUpdated(run)]);
    var between := v.(runs := v.runs[r := mid]);
    CommitEntries(hashes, between, r, d, run);
    assert between.runs[r := end] == v.runs[r := end];
  }

  lemma CommittedState(state: State, r: string, slot': RunSlot, events: seq<Payload>, d: Derivation)
    ensures ViewState(Update(state, r, slot', events).(derivations := state.derivations + [d]))
         == ViewState(state).(runs := ViewState(state).runs[r := ViewSlot(slot')],
                              derivations := state.derivations + [d])
  {
  }

  lemma AcceptedCommitIs(state: State, r: string, id: WorkId, nodeId: string, outputs: seq<NamedArtifact>, now: int,
                         order: seq<WorkId>)
    requires RunFault(state, r).None? && id in Reap(state.runs[r], now).claimed
    requires Commit(WorldOf(state), LogOf(state, r), id, nodeId, outputs, now).1.None?
    ensures var reaped := LogOf(state, r).(slot := Reap(state.runs[r], now));
      var d := DerivationOf(reaped.slot.claimed[id], outputs);
      var slot' := StallIfIdle(state.modules, CommitUnit(reaped, id, outputs).slot);
      CommitWork(state, r, id, nodeId, outputs, now, order).0
        == Update(state, r, slot', ReapEvents(state.runs[r], order) + [DerivationCommitted(d), RunUpdated(slot'.run)])
             .(derivations := state.derivations + [d])
  {
    hide AnyReady, OutputFault, ArityFits;
  }

  lemma RecordedBy(hashes: Hashes, state: State, r: string, slot': RunSlot, entries: seq<Payload>, d: Derivation)
    requires ReplayAll(hashes, ViewState(state), entries)
          == ViewState(state).(runs := ViewState(state).runs[r := ViewSlot(slot')],
                               derivations := state.derivations + [d])
    ensures IsRecorded(hashes, state, Update(state, r, slot', entries).(derivations := state.derivations + [d]))
  {
    hide ReplayAll, ViewSlot, ViewState;
    CommittedState(state, r, slot', entries, d);
    assert Recorded(hashes, state, Update(state, r, slot', entries).(derivations := state.derivations + [d]), entries);
  }

  lemma CommitRecordedAs(hashes: Hashes, state: State, r: string, reaped: RunLog, id: WorkId,
                         outputs: seq<NamedArtifact>, a: seq<Payload>)
    requires r in state.runs && id in reaped.slot.claimed && reaped.slot.run.id == r && IdsMatch(reaped.slot)
    requires reaped.slot.run.state == Running
    requires ReplayRunAll(ViewSlot(state.runs[r]), a) == ViewSlot(reaped.slot) && AboutRun(r, a)
    ensures var d := DerivationOf(reaped.slot.claimed[id], outputs);
      var slot' := StallIfIdle(state.modules, CommitUnit(reaped, id, outputs).slot);
      var entries := a + [DerivationCommitted(d), RunUpdated(slot'.run)];
      IsRecorded(hashes, state, Update(state, r, slot', entries).(derivations := state.derivations + [d]))
  {
    hide IsRecorded, ReplayRunAll, ReplayAll, AboutRun, Update;
    var d := DerivationOf(reaped.slot.claimed[id], outputs);
    var slot' := StallIfIdle(state.modules, CommitUnit(reaped, id, outputs).slot);
    CommitUnitReplays(state.modules, reaped, id, outputs);
    CommitEntriesReplay(hashes, ViewState(state), r, a, ViewSlot(reaped.slot), d, slot'.run, ViewSlot(slot'));
    RecordedBy(hashes, state, r, slot', a + [DerivationCommitted(d), RunUpdated(slot'.run)], d);
  }

  lemma AcceptedCommitRecorded(hashes: Hashes, state: State, r: string, id: WorkId, nodeId: string,
                               outputs: seq<NamedArtifact>, now: int, order: seq<WorkId>)
    requires RunFault(state, r).None? && state.runs[r].run.id == r && IdsMatch(Reap(state.runs[r], now))
    requires id in Reap(state.runs[r], now).claimed
    requires Commit(WorldOf(state), LogOf(state, r), id, nodeId, outputs, now).1.None?
    requires ReplayRunAll(ViewSlot(state.runs[r]), ReapEvents(state.runs[r], order))
          == ViewSlot(Reap(state.runs[r], now))
    requires AboutRun(r, ReapEvents(state.runs[r], order))
    ensures IsRecorded(hashes, state, CommitWork(state, r, id, nodeId, outputs, now, order).0)
  {
    var reaped := LogOf(state, r).(slot := Reap(state.runs[r], now));
    AcceptedCommitIs(state, r, id, nodeId, outputs, now, order);
    hide *;
    assert reaped.slot == Reap(state.runs[r], now);
    CommitRecordedAs(hashes, state, r, reaped, id, outputs, ReapEvents(state.runs[r], order));
  }

  // ---------------------------------------------------------------- any history

  lemma AllRunsNamed(state: State, r: string)
    requires AllGenuine(state)
    ensures RunNamed(state, r)
  {
    if r in state.runs {
      GenuineNamed(WorldOf(state), r, LogOf(state, r));
      NamedIds(state.runs[r]);
    }
  }

  lemma NamedIds(slot: RunSlot)
    requires ClaimsNamed(slot)
    ensures IdsMatch(slot)
  {
  }

  ghost function CalledRun(call: Call): string {
    match call
    case CClaim(claim, _, _) => claim.runId
    case CHeartbeat(r, _, _, _, _) => r
    case CFail(r, _, _, _, _, _) => r
    case CCommit(r, _, _, _, _, _) => r
    case CCancel(r) => r
    case _ => ""
  }

  lemma DoRecorded(config: Config, state: State, call: Call)
    requires RunNamed(state, CalledRun(call)) && Proper(state, call)
    requires call.CAppend? ==> Harmless(ViewState(state), call.payload)
    ensures IsRecorded(config.hashes, state, Do(config, state, call))
  {
    var hashes := config.hashes;
    match call
    case CRegister(manifest) => RegisterRecorded(hashes, state, manifest);
    case CTransition(name, to) => TransitionRecorded(hashes, state, name, to);
    case CPutContract(contract) => ContractRecorded(hashes, state, contract);
    case CPutArtifact(traits, about) => ArtifactRecorded(config, state, traits, about);
    case CPutBlob(namespace, data) => BlobRecorded(config, state, namespace, data);
    case CPublish(topic, event) => OneEntry(hashes, state, Do(config, state, call), EventPublished(topic, event));
    case CAppend(payload) =>
      HarmlessIff(hashes, ViewState(state), payload);
      OneEntry(hashes, state, Do(config, state, call), payload);
    case CStart(request) => StartRecorded(hashes, state, request);
    case CInject(r, input) => InjectRecorded(hashes, state, r, input);
    case CClaim(claim, now, order) => ClaimRecorded(hashes, state, claim, now, order);
    case CHeartbeat(r, ids, extend, now, order) => BeatRecorded(hashes, state, r, ids, extend, now, order);
    case CFail(r, work, reason, terminal, now, order) =>
      FailRecorded(hashes, state, r, work, reason, terminal, now, order);
    case CCommit(r, work, nodeId, outputs, now, order) =>
      CommitRecorded(hashes, state, r, work, nodeId, outputs, now, order);
    case CCancel(r) => CancelRecorded(hashes, state, r);
  }

  /** After any history in which whatever is appended is harmless, the ledger
    * alone rebuilds the kernel's state. */
  lemma {:induction false} LedgerReconstructs(config: Config, calls: seq<Call>)
    requires History(config, calls) && Truthful(config, calls)
    ensures Rebuild(config.hashes, After(config, calls).ledger) == ViewState(After(config, calls))
  {
    if calls == [] {
      assert ViewState(EmptyState) == View([], map[], map[], map[], map[], []);
    } else {
      var front, last := calls[..|calls| - 1], calls[|calls| - 1];
      var state, state' := After(config, front), After(config, calls);
      TruthfulFront(config, calls);
      LedgerReconstructs(config, front);
      HistoryIsGenuine(config, front);
      AllRunsNamed(state, CalledRun(last));
      DoRecorded(config, state, last);
      var entries :| Recorded(config.hashes, state, state', entries);
      RebuildAppend(config.hashes, state.ledger, entries);
    }
  }

  lemma AppendIsOneEntry(config: Config, calls: seq<Call>, p: Payload)
    ensures var longer := calls + [CAppend(p)];
      After(config, longer) == After(config, calls).(ledger := After(config, calls).ledger + [p])
  {
    assert (calls + [CAppend(p)])[..|calls|] == calls;
  }

  /** Exactly which appended entries mislead: after any history in which modules
    * append only their own kinds, and after any in which they append what is
    * harmless, one more appended entry of any kind leaves the ledger rebuilding
    * the state if and only if it is harmless. */
  lemma AppendMisleadsIff(config: Config, calls: seq<Call>, p: Payload)
    requires History(config, calls) && (Unforged(calls) || Truthful(config, calls))
    ensures var state := After(config, calls + [CAppend(p)]);
      Rebuild(config.hashes, state.ledger) == ViewState(state) <==> Harmless(ViewState(After(config, calls)), p)
  {
    if Unforged(calls) {
      UnforgedIsTruthful(config, calls);
    }
    LedgerReconstructs(config, calls);
    AppendIsOneEntry(config, calls, p);
    OneMoreEntry(config.hashes, After(config, calls).ledger, p);
    assert ViewState(After(config, calls + [CAppend(p)])) == ViewState(After(config, calls));
  }

  /** So anyone who appends an entry of the kind the kernel writes for a new run
    * makes the ledger rebuild a run the kernel never had. */
  lemma ForgedEntryMisleads(config: Config, run: Run)
    ensures var forged := [CAppend(RunStarted(run))];
      Rebuild(config.hashes, After(config, forged).ledger) != ViewState(After(config, forged))
  {
    AppendMisleadsIff(config, [], RunStarted(run));
    assert [] + [CAppend(RunStarted(run))] == [CAppend(RunStarted(run))];
  }

  /** All that two kernels have in common when their ledgers are equal: everything but when
    * leases end, what limits were frozen and the bytes of blobs. */
  ghost predicate Alike(a: State, b: State) {
    && a.modules == b.modules && a.contracts == b.contracts && a.artifacts == b.artifacts
    && a.derivations == b.derivations && a.blobs.Keys == b.blobs.Keys && a.runs.Keys == b.runs.Keys
    && (forall k :: k in a.blobs ==> a.blobs[k].ref == b.blobs[k].ref)
    && forall r :: r in a.runs ==> AlikeRuns(a.runs[r], b.runs[r])
  }

  ghost predicate AlikeRuns(x: RunSlot, y: RunSlot) {
    && x.run == y.run && x.latest == y.latest && x.doneUnits == y.doneUnits && x.nodeCommits == y.nodeCommits
    && x.claimAttempts == y.claimAttempts && x.inputEpochs == y.inputEpochs && x.claimed.Keys == y.claimed.Keys
    && forall id :: id in x.claimed ==>
         var v, w := x.claimed[id], y.claimed[id];
         v.id == w.id && v.node == w.node && v.inputs == w.inputs && v.unit == w.unit && v.attempt == w.attempt
  }

  lemma AlikeViews(x: RunSlot, y: RunSlot)
    requires ViewSlot(x) == ViewSlot(y)
    ensures AlikeRuns(x, y)
  {
    assert UnleasedAll(x.claimed).Keys == x.claimed.Keys && UnleasedAll(y.claimed).Keys == y.claimed.Keys;
    forall id | id in x.claimed
      ensures Unleased(x.claimed[id]) == Unleased(y.claimed[id])
    {
      assert UnleasedAll(x.claimed)[id] == UnleasedAll(y.claimed)[id];
    }
  }

  lemma AlikeStates(a: State, b: State)
    requires ViewState(a) == ViewState(b)
    ensures Alike(a, b)
  {
    hide ViewSlot, AlikeRuns;
    var v, w := ViewState(a), ViewState(b);
    assert a.blobs.Keys == v.blobs.Keys == w.blobs.Keys == b.blobs.Keys;
    assert a.runs.Keys == v.runs.Keys == w.runs.Keys == b.runs.Keys;
    forall k | k in a.blobs
      ensures a.blobs[k].ref == b.blobs[k].ref
    {
      assert v.blobs[k] == w.blobs[k];
    }
    forall r | r in a.runs
      ensures AlikeRuns(a.runs[r], b.runs[r])
    {
      assert v.runs[r] == w.runs[r];
      AlikeViews(a.runs[r], b.runs[r]);
    }
  }

  /** Kernels with one ledger are in one state, however they came to it. */
  lemma LedgerDetermines(config: Config, calls: seq<Call>, calls': seq<Call>)
    requires History(config, calls) && Truthful(config, calls) && History(config, calls') && Truthful(config, calls')
    requires After(config, calls).ledger == After(config, calls').ledger
    ensures Alike(After(config, calls), After(config, calls'))
  {
    hide After, ViewState, Alike, Rebuild;
    LedgerReconstructs(config, calls);
    LedgerReconstructs(config, calls');
    AlikeStates(After(config, calls), After(config, calls'));
  }
}
