/** The kernel in its own form: an object whose methods change its fields in
  * place, loop by loop. Each method is proved to do what the function of the
  * same name in module `Kernel` says, so everything proved about histories of
  * those functions holds of this class. */
module Memory {
  import opened Base
  import opened Types
  import opened Strings
  import opened Scheduler
  import opened Moves
  import opened Kernel
  import opened Validation
  import opened Safety
  import opened Accounting
  import opened Provenance
  import opened KernelRuns
  import opened Evaluator
  import opened Convergence
  import opened Histories
  import opened Quotas
  import opened Integrity
  import opened Replay
  import opened Forgery
  import opened Reconstruction

  // ---------------------------------------------------------------- loops and recursions

  lemma {:induction false} NamedAppend(hashes: Hashes, contracts: map<string, Contract>, a: seq<string>, b: seq<string>)
    ensures NamePlaceholders(hashes, contracts, a + b)
         == NamePlaceholders(hashes, NamePlaceholders(hashes, contracts, a), b)
    decreases |a|
  {
    if a == [] {
      assert a + b == b;
    } else {
      var named := if a[0] == "" || a[0] in contracts then contracts else contracts[a[0] := Placeholder(hashes, a[0])];
      assert (a + b)[1..] == a[1..] + b;
      NamedAppend(hashes, named, a[1..], b);
    }
  }

  lemma {:induction false} ReplaceAt(inputs: seq<NamedArtifact>, input: NamedArtifact, i: nat)
    requires i < |inputs| && inputs[i].name == input.name && forall j :: 0 <= j < i ==> inputs[j].name != input.name
    ensures Replace(inputs, input) == inputs[i := input]
  {
    if i > 0 {
      ReplaceAt(inputs[1..], input, i - 1);
      assert inputs[i := input] == [inputs[0]] + inputs[1..][i - 1 := input];
    } else {
      assert inputs[0 := input] == [input] + inputs[1..];
    }
  }

  lemma {:induction false} ReplaceNew(inputs: seq<NamedArtifact>, input: NamedArtifact)
    requires forall j :: 0 <= j < |inputs| ==> inputs[j].name != input.name
    ensures Replace(inputs, input) == inputs + [input]
  {
    if inputs != [] {
      ReplaceNew(inputs[1..], input);
    }
  }

  /** One more lease reaped. */
  lemma DropNext(slot: RunSlot, order: seq<WorkId>, id: WorkId)
    requires Distinct(order) && id !in order && id in slot.claimed
    requires forall other :: other in order ==> other in slot.claimed
    ensures var before := DropAll(slot, order);
      && id in before.claimed && before.claimed[id] == slot.claimed[id] && before.maxAttempts == slot.maxAttempts
      && DropAll(slot, order + [id]) == Drop(before, id, false)
    ensures ReapEvents(slot, order + [id]) == ReapEvents(slot, order) + ExpiryEvents(slot, id)
  {
    DropAllEffect(slot, order);
    assert (order + [id])[..|order|] == order;
  }

  lemma NoneDropped(slot: RunSlot)
    ensures DropAll(slot, []) == slot && ReapEvents(slot, []) == []
  {
  }

  lemma {:induction false} EventsOfItems(slot: RunSlot, cs: seq<Candidate>, now: int)
    ensures |ClaimEvents(slot, cs, now)| == |cs|
    ensures forall i :: 0 <= i < |cs| ==>
      ClaimEvents(slot, cs, now)[i] == WorkClaimed(Unleased(TakenItems(slot, cs, now)[i]))
    decreases |cs|
  {
    if cs != [] {
      EventsOfItems(Take(slot, cs[0], now), cs[1..], now);
    }
  }

  // ---------------------------------------------------------------- reading

  /** `assembly_any_ready`. */
  method AssemblyAnyReady(modules: seq<ModuleSlot>, slot: RunSlot) returns (any: bool)
    ensures any <==> AnyReady(modules, slot)
  {
    var nodes := slot.run.assembly.nodes;
    for i := 0 to |nodes|
      invariant forall j :: 0 <= j < i ==> ReadyUnit(modules, slot, nodes[j]).None?
    {
      if ReadyUnit(modules, slot, nodes[i]).Some? {
        return true;
      }
    }
    return false;
  }

  /** The ready units that pass the claim's filter, in node order. */
  method ReadyCandidates(modules: seq<ModuleSlot>, slot: RunSlot, req: ClaimRequest) returns (cs: seq<Candidate>)
    ensures cs == Candidates(modules, slot, req, slot.run.assembly.nodes)
  {
    var nodes := slot.run.assembly.nodes;
    cs := [];
    assert nodes[0..] == nodes;
    for i := 0 to |nodes|
      invariant cs + Candidates(modules, slot, req, nodes[i..]) == Candidates(modules, slot, req, nodes)
    {
      assert nodes[i..][0] == nodes[i] && nodes[i..][1..] == nodes[i + 1..];
      if MatchesFilter(req, nodes[i]) {
        var unit := ReadyUnit(modules, slot, nodes[i]);
        if unit.Some? {
          cs := cs + [unit.value];
        }
      }
    }
    assert nodes[|nodes|..] == [];
  }

  method CountOutputs(outputs: seq<NamedArtifact>, name: string) returns (n: nat)
    ensures n == CountNamed(outputs, name)
  {
    n := 0;
    assert outputs[0..] == outputs;
    for i := 0 to |outputs|
      invariant n + CountNamed(outputs[i..], name) == CountNamed(outputs, name)
    {
      assert outputs[i..][0] == outputs[i] && outputs[i..][1..] == outputs[i + 1..];
      if outputs[i].name == name {
        n := n + 1;
      }
    }
    assert outputs[|outputs|..] == [];
  }

  /** `validate_outputs`: first the count on every port, then each output. */
  method ValidateOutputs(traits: map<string, set<string>>, cap: Capability, outputs: seq<NamedArtifact>)
    returns (fault: Option<KernelError>)
    ensures fault == if ArityFits(cap.outputs, outputs) then OutputFault(traits, cap, outputs) else Some(Invalid)
  {
    for i := 0 to |cap.outputs|
      invariant ArityFits(cap.outputs[..i], outputs)
    {
      var n := CountOutputs(outputs, cap.outputs[i].name);
      if (n == 0 && !cap.outputs[i].optional) || (n > 1 && !cap.outputs[i].multiple) {
        return Some(Invalid);
      }
      assert cap.outputs[..i + 1] == cap.outputs[..i] + [cap.outputs[i]];
    }
    assert cap.outputs[..|cap.outputs|] == cap.outputs;
    assert outputs[0..] == outputs;
    for i := 0 to |outputs|
      invariant OutputFault(traits, cap, outputs[i..]) == OutputFault(traits, cap, outputs)
    {
      var o := outputs[i];
      assert outputs[i..][0] == o && outputs[i..][1..] == outputs[i + 1..];
      var expected := FindPort(cap.outputs, o.name);
      if expected.None? || o.artifact.None? {
        return Some(Invalid);
      }
      if o.artifact.value !in traits {
        return Some(NotFound);
      }
      if !Carries(traits, o.artifact.value, expected.value.traits) {
        return Some(Invalid);
      }
    }
    assert outputs[|outputs|..] == [];
    return None;
  }

  lemma TakeIs(slot: RunSlot, c: Candidate, now: int)
    ensures var id, attempt := WorkId(slot.run.id, c.unit), Lookup(slot.claimAttempts, c.unit, 0) + 1;
      var item := WorkItem(id, c.node, c.inputs, c.unit, attempt, LeaseEnd(now, slot.defaultLeaseMs));
      && Take(slot, c, now) == slot.(
           claimAttempts := slot.claimAttempts[c.unit := attempt], claimed := slot.claimed[id := item])
      && Take(slot, c, now).claimed[id] == item
  {
  }

  lemma TakeFirst(slot: RunSlot, cs: seq<Candidate>, now: int, i: nat)
    requires i < |cs|
    ensures var slot', id := Take(slot, cs[i], now), WorkId(slot.run.id, cs[i].unit);
      && TakeAll(slot, cs[i..], now) == TakeAll(slot', cs[i + 1..], now)
      && id in slot'.claimed
      && TakenItems(slot, cs[i..], now) == [slot'.claimed[id]] + TakenItems(slot', cs[i + 1..], now)
  {
    assert cs[i..][0] == cs[i] && cs[i..][1..] == cs[i + 1..];
    TakeIs(slot, cs[i], now);
    hide Take;
  }

  lemma TakeNone(slot: RunSlot, now: int)
    ensures TakeAll(slot, [], now) == slot && TakenItems(slot, [], now) == []
  {
  }

  /** Claim units one after another. */
  method TakeEach(slot: RunSlot, cs: seq<Candidate>, now: int) returns (slot': RunSlot, items: seq<WorkItem>)
    ensures slot' == TakeAll(slot, cs, now) && items == TakenItems(slot, cs, now)
  {
    hide Take, TakeAll, TakenItems;
    slot', items := slot, [];
    assert cs[0..] == cs;
    for i := 0 to |cs|
      invariant TakeAll(slot', cs[i..], now) == TakeAll(slot, cs, now)
      invariant items + TakenItems(slot', cs[i..], now) == TakenItems(slot, cs, now)
      invariant slot'.run.id == slot.run.id
    {
      var c := cs[i];
      TakeFirst(slot', cs, now, i);
      TakeIs(slot', c, now);
      var attempt := Lookup(slot'.claimAttempts, c.unit, 0) + 1;
      var id := WorkId(slot'.run.id, c.unit);
      var item := WorkItem(id, c.node, c.inputs, c.unit, attempt, LeaseEnd(now, slot'.defaultLeaseMs));
      slot' := slot'.(claimAttempts := slot'.claimAttempts[c.unit := attempt], claimed := slot'.claimed[id := item]);
      items := items + [item];
    }
    assert cs[|cs|..] == [];
    TakeNone(slot', now);
  }

  /** The slot after claiming these units, or after finding none. */
  function AfterClaim(modules: seq<ModuleSlot>, reaped: RunSlot, chosen: seq<Candidate>, now: int): RunSlot {
    if chosen == [] then StallIfIdle(modules, reaped) else TakeAll(reaped, chosen, now)
  }

  lemma ClaimReadyIs(modules: seq<ModuleSlot>, slot: RunSlot, req: ClaimRequest, now: int)
    ensures var reaped := Reap(slot, now);
      var slot' := AfterClaim(modules, reaped, ChosenFor(modules, reaped, req), now);
      && Scheduler.ClaimReady(modules, slot, req, now) == slot' && reaped.run == slot.run
      && StallEvents(slot, slot') == StallEvents(reaped, slot')
  {
    var reaped := Reap(slot, now);
    TakeAllRun(reaped, ChosenFor(modules, reaped, req), now);
  }

  lemma ClaimIs(state: State, req: ClaimRequest, now: int, order: seq<WorkId>)
    requires RunFault(state, req.runId).None?
    ensures var slot := state.runs[req.runId];
      var reaped := Reap(slot, now);
      var chosen := ChosenFor(state.modules, reaped, req);
      var slot' := AfterClaim(state.modules, reaped, chosen, now);
      Claim(state, req, now, order) == (state.(
        runs := state.runs[req.runId := reaped][req.runId := slot'],
        ledger := state.ledger + ReapEvents(slot, order) + ClaimEvents(reaped, chosen, now)
          + StallEvents(reaped, slot')), None)
  {
    var slot := state.runs[req.runId];
    var reaped := Reap(slot, now);
    var chosen := ChosenFor(state.modules, reaped, req);
    var slot' := AfterClaim(state.modules, reaped, chosen, now);
    ClaimReadyIs(state.modules, slot, req, now);
    var a, b, c := ReapEvents(slot, order), ClaimEvents(reaped, chosen, now), StallEvents(reaped, slot');
    assert Claim(state, req, now, order) == (Update(state, req.runId, slot', a + b + c), None);
    hide *;
    UpdateRegrouped(state, req.runId, reaped, slot', a, b, c);
  }

  lemma UpdateRegrouped(state: State, r: string, mid: RunSlot, slot: RunSlot, a: seq<Payload>, b: seq<Payload>,
                        c: seq<Payload>)
    ensures Update(state, r, slot, a + b + c)
         == state.(runs := state.runs[r := mid][r := slot], ledger := state.ledger + a + b + c)
  {
    assert state.runs[r := mid][r := slot] == state.runs[r := slot];
    assert state.ledger + (a + b + c) == state.ledger + a + b + c;
  }

  /** The named leases that are held, in the order named. */
  function HeldOf(ids: seq<WorkId>, held: set<WorkId>): seq<WorkId> {
    if ids == [] then []
    else HeldOf(ids[..|ids| - 1], held) + if ids[|ids| - 1] in held then [ids[|ids| - 1]] else []
  }

  function LostOf(ids: seq<WorkId>, held: set<WorkId>): seq<WorkId> {
    if ids == [] then []
    else LostOf(ids[..|ids| - 1], held) + if ids[|ids| - 1] in held then [] else [ids[|ids| - 1]]
  }

  /** Of the leases a heartbeat names, those renewed are held, those lost are not, and each
    * is told as often as it is named. */
  lemma {:induction false} RenewedOrLost(ids: seq<WorkId>, held: set<WorkId>)
    ensures forall id :: id in HeldOf(ids, held) <==> id in ids && id in held
    ensures forall id :: id in LostOf(ids, held) <==> id in ids && id !in held
    ensures multiset(HeldOf(ids, held)) + multiset(LostOf(ids, held)) == multiset(ids)
  {
    if ids != [] {
      RenewedOrLost(ids[..|ids| - 1], held);
      assert ids == ids[..|ids| - 1] + [ids[|ids| - 1]];
    }
  }

  /** Renew the named leases that are held. */
  method RenewEach(before: RunSlot, ids: seq<WorkId>, until: int)
    returns (slot: RunSlot, renewed: seq<WorkId>, lost: seq<WorkId>)
    ensures slot == RenewAll(before, ids, until)
    ensures renewed == HeldOf(ids, before.claimed.Keys) && lost == LostOf(ids, before.claimed.Keys)
  {
    slot, renewed, lost := before, [], [];
    assert ids[0..] == ids;
    for i := 0 to |ids|
      invariant RenewAll(slot, ids[i..], until) == RenewAll(before, ids, until)
      invariant slot.claimed.Keys == before.claimed.Keys
      invariant renewed == HeldOf(ids[..i], before.claimed.Keys) && lost == LostOf(ids[..i], before.claimed.Keys)
    {
      assert ids[i..][0] == ids[i] && ids[i..][1..] == ids[i + 1..];
      assert ids[..i + 1][..i] == ids[..i];
      if ids[i] in slot.claimed {
        slot := slot.(claimed := slot.claimed[ids[i] := slot.claimed[ids[i]].(leaseUntil := until)]);
        renewed := renewed + [ids[i]];
      } else {
        lost := lost + [ids[i]];
      }
    }
    assert ids[|ids|..] == [] && ids[..|ids|] == ids;
  }

  /** The slot after its unit is committed, before the stall check. */
  function Committing(slot: RunSlot, id: WorkId, outputs: seq<NamedArtifact>): RunSlot
    requires id in slot.claimed
  {
    CommitUnit(RunLog(slot, []), id, outputs).slot
  }

  lemma CommittingIs(slot: RunSlot, id: WorkId, outputs: seq<NamedArtifact>)
    requires id in slot.claimed
    ensures var item := slot.claimed[id];
      var node := item.node.id;
      Committing(slot, id, outputs) == slot.(
        claimed := slot.claimed - {id}, doneUnits := slot.doneUnits + {item.unit},
        latest := slot.latest[node := DerivationOf(item, outputs)],
        nodeCommits := slot.nodeCommits[node := Lookup(slot.nodeCommits, node, 0) + 1],
        run := Advance(slot.run, node, outputs))
  {
  }

  lemma ClosedStays(modules: seq<ModuleSlot>, slot: RunSlot)
    ensures slot.run.state != Running ==> StallIfIdle(modules, slot) == slot
  {
  }

  lemma FailIs(state: State, runId: string, id: WorkId, reason: string, terminal: bool, now: int, order: seq<WorkId>)
    requires RunFault(state, runId).None?
    ensures var slot := state.runs[runId];
      var reaped := Reap(slot, now);
      Kernel.Fail(state, runId, id, reason, terminal, now, order) ==
        if id !in reaped.claimed then
          (state.(runs := state.runs[runId := reaped],
                  ledger := state.ledger + ReapEvents(slot, order)), Some(Conflict))
        else
          var dropped := Drop(reaped, id, terminal);
          var slot' := StallIfIdle(state.modules, dropped);
          var item := reaped.claimed[id];
          var e := WorkFailed(id, item.unit, if reason == "" then "failed" else reason,
                              terminal || item.attempt >= slot.maxAttempts, item.attempt);
          (state.(runs := state.runs[runId := reaped][runId := dropped][runId := slot'],
                  ledger := state.ledger + ReapEvents(slot, order) + [e] + StallEvents(dropped, slot')), None)
  {
    var slot := state.runs[runId];
    var reaped := Reap(slot, now);
    var a := ReapEvents(slot, order);
    if id !in reaped.claimed {
      assert a + [] + [] == a;
    } else {
      var dropped := Drop(reaped, id, terminal);
      var slot' := StallIfIdle(state.modules, dropped);
      var item := reaped.claimed[id];
      var e := WorkFailed(id, item.unit, if reason == "" then "failed" else reason,
                          terminal || item.attempt >= slot.maxAttempts, item.attempt);
      assert state.runs[runId := reaped][runId := dropped][runId := slot'] == state.runs[runId := slot'];
      assert state.ledger + (a + [e] + StallEvents(dropped, slot'))
         == state.ledger + a + [e] + StallEvents(dropped, slot');
    }
  }

  lemma CommitParts(world: World, log: RunLog, id: WorkId, nodeId: string, outputs: seq<NamedArtifact>, now: int)
    ensures var reaped := Reap(log.slot, now);
      var fault := CommitFault(world, reaped, id, nodeId, outputs);
      var result := Commit(world, log, id, nodeId, outputs, now);
      && result.1 == fault
      && result.0.slot == (if fault.Some? then reaped else StallIfIdle(world.modules, Committing(reaped, id, outputs)))
      && (fault.None? ==> id in reaped.claimed)
  {
    hide CapabilityFor, OutputFault, ArityFits, AnyReady, Advance;
  }

  lemma CommitIs(state: State, runId: string, id: WorkId, nodeId: string, outputs: seq<NamedArtifact>, now: int,
                 order: seq<WorkId>)
    requires RunFault(state, runId).None?
    ensures var slot := state.runs[runId];
      var reaped := Reap(slot, now);
      var fault := CommitFault(WorldOf(state), reaped, id, nodeId, outputs);
      CommitWork(state, runId, id, nodeId, outputs, now, order) ==
        if fault.Some? then
          (state.(runs := state.runs[runId := reaped], ledger := state.ledger + ReapEvents(slot, order)), fault)
        else
          var d := DerivationOf(reaped.claimed[id], outputs);
          var slot' := StallIfIdle(state.modules, Committing(reaped, id, outputs));
          (state.(runs := state.runs[runId := reaped][runId := slot'], derivations := state.derivations + [d],
                  ledger := state.ledger + ReapEvents(slot, order)
                    + [DerivationCommitted(d), RunUpdated(slot'.run)]), None)
  {
    var slot := state.runs[runId];
    var reaped := Reap(slot, now);
    var a := ReapEvents(slot, order);
    CommitParts(WorldOf(state), LogOf(state, runId), id, nodeId, outputs, now);
    if CommitFault(WorldOf(state), reaped, id, nodeId, outputs).None? {
      var d := DerivationOf(reaped.claimed[id], outputs);
      var slot' := StallIfIdle(state.modules, Committing(reaped, id, outputs));
      assert state.runs[runId := reaped][runId := slot'] == state.runs[runId := slot'];
      var b := [DerivationCommitted(d), RunUpdated(slot'.run)];
      assert state.ledger + (a + b) == state.ledger + a + b;
    }
  }

  // ---------------------------------------------------------------- the object

  class MemoryKernel {
    const config: Config
    var modules: seq<ModuleSlot>
    var contracts: map<string, Contract>
    var artifacts: map<string, Artifact>
    var blobs: map<(string, string), BlobSlot>
    var runs: map<string, RunSlot>
    var derivations: seq<Derivation>
    var ledger: seq<Payload>
    ghost var calls: seq<Call>

    /** All fields together. */
    function Contents(): State
      reads this
    {
      State(modules, contracts, artifacts, blobs, runs, derivations, ledger)
    }

    /** The fields are what the calls served so far lead to. */
    ghost predicate Valid()
      reads this
    {
      History(config, calls) && Contents() == After(config, calls)
    }

    constructor (config: Config)
      ensures this.config == config && Contents() == EmptyState && Valid() && calls == []
    {
      this.config := config;
      modules, contracts, artifacts, blobs := [], map[], map[], map[];
      runs, derivations, ledger, calls := map[], [], [], [];
    }

    // -------------------------------------------------------------- registry

    /** Name the contracts of one list of ports. */
    method NamePorts(ports: seq<Port>)
      modifies this`contracts
      ensures contracts == NamePlaceholders(config.hashes, old(contracts), PortRefs(ports))
    {
      assert ports[0..] == ports;
      for i := 0 to |ports|
        invariant NamePlaceholders(config.hashes, contracts, PortRefs(ports[i..]))
               == NamePlaceholders(config.hashes, old(contracts), PortRefs(ports))
      {
        assert ports[i..][0] == ports[i] && ports[i..][1..] == ports[i + 1..];
        NamedAppend(config.hashes, contracts, ports[i].traits, PortRefs(ports[i + 1..]));
        NameContracts(ports[i].traits);
      }
      assert ports[|ports|..] == [];
    }

    method NameContracts(refs: seq<string>)
      modifies this`contracts
      ensures contracts == NamePlaceholders(config.hashes, old(contracts), refs)
    {
      assert refs[0..] == refs;
      for i := 0 to |refs|
        invariant NamePlaceholders(config.hashes, contracts, refs[i..])
               == NamePlaceholders(config.hashes, old(contracts), refs)
      {
        assert refs[i..][0] == refs[i] && refs[i..][1..] == refs[i + 1..];
        if refs[i] != "" && refs[i] !in contracts {
          contracts := contracts[refs[i] := Placeholder(config.hashes, refs[i])];
        }
      }
      assert refs[|refs|..] == [];
    }

    /** `register`. */
    method Register(manifest: ModuleManifest)
      modifies this`modules, this`contracts, this`ledger
      ensures Contents() == Kernel.Register(config.hashes, old(Contents()), manifest)
    {
      var caps := manifest.capabilities;
      assert caps[0..] == caps;
      for i := 0 to |caps|
        invariant modules == old(modules) && ledger == old(ledger)
        invariant NamePlaceholders(config.hashes, contracts, ManifestRefs(caps[i..]))
               == NamePlaceholders(config.hashes, old(contracts), ManifestRefs(caps))
      {
        assert caps[i..][0] == caps[i] && caps[i..][1..] == caps[i + 1..];
        var ins, outs, rest := PortRefs(caps[i].inputs), PortRefs(caps[i].outputs), ManifestRefs(caps[i + 1..]);
        NamedAppend(config.hashes, contracts, ins + outs, rest);
        NamedAppend(config.hashes, contracts, ins, outs);
        NamePorts(caps[i].inputs);
        NamePorts(caps[i].outputs);
      }
      assert caps[|caps|..] == [];
      modules := modules + [ModuleSlot(manifest, Registered)];
      ledger := ledger + [ModuleRegistered(manifest)];
    }

    /** `transition`: one step forward, or nothing. */
    method Transition(name: string, to: Lifecycle) returns (err: Option<KernelError>)
      modifies this`modules, this`ledger
      ensures (Contents(), err) == Kernel.Transition(old(Contents()), name, to)
    {
      var i := FindModule(modules, name);
      if i.None? {
        return Some(NotFound);
      }
      if Next(modules[i.value].lifecycle) == Some(to) {
        modules := modules[i.value := modules[i.value].(lifecycle := to)];
        ledger := ledger + [ModuleAdvanced(name, to)];
      }
      return None;
    }

    /** `put_contract`. */
    method PutContract(submitted: Contract) returns (err: Option<KernelError>)
      modifies this`contracts, this`ledger
      ensures (Contents(), err) == Kernel.PutContract(config.hashes, old(Contents()), submitted)
    {
      if submitted.ref == "" {
        return Some(Invalid);
      }
      var compatible := SortNames(submitted.compatibleWith);
      var digest := config.hashes.contract(submitted.mediaType, submitted.schema, submitted.version, compatible);
      if submitted.digest != "" && submitted.digest != digest {
        return Some(Invalid);
      }
      var contract := submitted.(digest := digest, compatibleWith := compatible);
      if contract.ref in contracts {
        var existing := contracts[contract.ref];
        if existing.digest == digest {
          return None;
        }
        if !IsPlaceholder(existing) || IsPlaceholder(contract) {
          return Some(Conflict);
        }
      }
      contracts := contracts[contract.ref := contract];
      ledger := ledger + [ContractRegistered(contract)];
      return None;
    }

    // -------------------------------------------------------------- artifacts

    /** `validate_artifact_content`: the map of traits is walked in ascending order. */
    method CheckContent(traits: map<string, Trait>, refs: seq<string>) returns (fault: Option<StoreError>)
      requires forall i :: 0 <= i < |refs| ==> refs[i] in traits
      ensures fault == TraitFaults(config.hashes, config.policy, traits, refs)
    {
      assert refs[0..] == refs;
      for i := 0 to |refs|
        invariant TraitFaults(config.hashes, config.policy, traits, refs[i..])
               == TraitFaults(config.hashes, config.policy, traits, refs)
      {
        assert refs[i..][0] == refs[i] && refs[i..][1..] == refs[i + 1..];
        fault := TraitFault(config.hashes, config.policy, refs[i], traits[refs[i]]);
        if fault.Some? {
          return;
        }
      }
      assert refs[|refs|..] == [];
      return None;
    }

    /** `verify_object_ref_locked` for each external trait. */
    method CheckExternals(traits: map<string, Trait>, refs: seq<string>) returns (fault: Option<StoreError>)
      requires forall i :: 0 <= i < |refs| ==> refs[i] in traits
      ensures fault == RefFaults(config.hashes, blobs, traits, refs)
    {
      assert refs[0..] == refs;
      for i := 0 to |refs|
        invariant RefFaults(config.hashes, blobs, traits, refs[i..]) == RefFaults(config.hashes, blobs, traits, refs)
      {
        assert refs[i..][0] == refs[i] && refs[i..][1..] == refs[i + 1..];
        var t := traits[refs[i]];
        if HasExternal(t) {
          var ref := t.external.value;
          if (ref.namespace, ref.digest) !in blobs {
            return Some(BlobNotFound);
          }
          var stored := blobs[(ref.namespace, ref.digest)];
          if stored.ref.byteCount != ref.byteCount {
            return Some(BlobIntegrity);
          }
          if config.hashes.blob(stored.data) != ref.digest || |stored.data| != ref.byteCount {
            return Some(BlobIntegrity);
          }
        }
      }
      assert refs[|refs|..] == [];
      return None;
    }

    /** `put_artifact`. */
    method PutArtifact(traits: map<string, Trait>, about: seq<string>) returns (id: Result<string, StoreError>)
      modifies this`artifacts, this`ledger
      ensures (Contents(), id) == Kernel.PutArtifact(config.hashes, config.policy, old(Contents()), traits, about)
    {
      if traits == map[] {
        return Failure(InvalidContent);
      }
      var refs := Keys(traits.Keys);
      SortedIsListing(traits.Keys, refs);
      refs := SortNames(refs);
      var fault := CheckContent(traits, refs);
      if fault.Some? {
        return Failure(fault.value);
      }
      fault := CheckExternals(traits, refs);
      if fault.Some? {
        return Failure(fault.value);
      }
      var address := config.hashes.artifact(traits);
      if address !in artifacts {
        artifacts := artifacts[address := Artifact(address, traits, about)];
        ledger := ledger + [ArtifactPut(Artifact(address, LedgerTraits(traits), about))];
      }
      return Success(address);
    }

    /** `put_blob`. */
    method PutBlob(namespace: string, data: Bytes) returns (ref: Result<ObjectRef, StoreError>)
      modifies this`blobs, this`ledger
      ensures (Contents(), ref) == Kernel.PutBlob(config.hashes, config.policy, old(Contents()), namespace, data)
    {
      if config.policy.maxBlob > 0 && |data| > config.policy.maxBlob {
        return Failure(ResourceExhausted);
      }
      var r := ObjectRef(config.hashes.blob(data), |data|, namespace);
      if (namespace, r.digest) !in blobs {
        blobs := blobs[(namespace, r.digest) := BlobSlot(data, r)];
        ledger := ledger + [BlobPut(r)];
      }
      return Success(r);
    }

    // -------------------------------------------------------------- starting and feeding runs

    /** `start_run`. */
    method StartRun(req: RunRequest) returns (err: Option<KernelError>)
      modifies this`runs, this`ledger
      ensures (Contents(), err) == Kernel.StartRun(old(Contents()), req)
    {
      if req.id == "" {
        return Some(Invalid);
      }
      if req.id in runs {
        return Some(Conflict);
      }
      if req.assembly.None? {
        return Some(Invalid);
      }
      var assembly := Materialize(req.assembly.value, req.includeNodes);
      if assembly.None? {
        return Some(Invalid);
      }
      err := ValidateAssembly(WorldOf(Contents()), assembly.value, req.inputs);
      if err.Some? {
        return;
      }
      var epochs := FirstEpochs(req.inputs);
      var slot := FreshSlot(req, assembly.value).(inputEpochs := epochs);
      runs := runs[req.id := slot];
      ledger := ledger + [RunStarted(slot.run)];
    }

    method FirstEpochs(inputs: seq<NamedArtifact>) returns (epochs: map<string, nat>)
      ensures epochs == StartEpochs(inputs)
    {
      epochs := map[];
      for i := 0 to |inputs|
        invariant epochs == StartEpochs(inputs[..i])
      {
        EpochNext(inputs, i);
        epochs := epochs[inputs[i].name := 0];
      }
      assert inputs[..|inputs|] == inputs;
    }

    /** `inject_input`: replace the input of that name in place, or add it. */
    method InjectInput(runId: string, input: NamedArtifact) returns (err: Option<KernelError>)
      modifies this`runs, this`ledger
      ensures (Contents(), err) == Kernel.InjectInput(old(Contents()), runId, input)
    {
      err := InjectFault(Contents(), runId, input);
      if err.Some? {
        return;
      }
      var slot := runs[runId];
      var inputs := slot.run.inputs;
      var i := 0;
      while i < |inputs| && inputs[i].name != input.name
        invariant i <= |inputs| && forall j :: 0 <= j < i ==> inputs[j].name != input.name
      {
        i := i + 1;
      }
      if i < |inputs| {
        ReplaceAt(inputs, input, i);
        inputs := inputs[i := input];
      } else {
        ReplaceNew(inputs, input);
        inputs := inputs + [input];
      }
      var epoch := SaturatingSucc(Lookup(slot.inputEpochs, input.name, 0));
      runs := runs[runId := slot.(run := slot.run.(inputs := inputs),
                            inputEpochs := slot.inputEpochs[input.name := epoch])];
      ledger := ledger + [InputInjected(runId, input)];
    }

    // -------------------------------------------------------------- leases

    /** `reap_expired_locked`. The map is walked in an order of its own choosing,
      * which the result names. */
    method ReapExpired(runId: string, now: int) returns (ghost order: seq<WorkId>)
      requires runId in runs
      modifies this`runs, this`ledger
      ensures ExpiredOrder(old(runs[runId]), now, order)
      ensures runs == old(runs)[runId := Reap(old(runs[runId]), now)]
      ensures ledger == old(ledger) + ReapEvents(old(runs[runId]), order)
    {
      hide DropAll, ReapEvents, Reap;
      var slot, before := runs[runId], runs[runId];
      var remaining := set id | id in slot.claimed && Expired(slot.claimed[id], now);
      var events := [];
      order := [];
      NoneDropped(before);
      while remaining != {}
        invariant Distinct(order) && forall id :: id in order ==> id in before.claimed && id !in remaining
        invariant forall id :: (id in order || id in remaining) <==>
          id in before.claimed && Expired(before.claimed[id], now)
        invariant slot == DropAll(before, order) && events == ReapEvents(before, order)
        invariant runs == old(runs) && ledger == old(ledger)
        decreases |remaining|
      {
        var id :| id in remaining;
        remaining := remaining - {id};
        DropNext(before, order, id);
        var item := slot.claimed[id];
        slot := slot.(claimed := slot.claimed - {id});
        events := events + [WorkExpired(Unleased(item))];
        if item.attempt >= slot.maxAttempts {
          slot := slot.(doneUnits := slot.doneUnits + {item.unit});
          events := events + [WorkFailed(id, item.unit, EXPIRED_REASON, true, item.attempt)];
        }
        order := order + [id];
      }
      DropAllIsReap(before, now, order);
      runs := runs[runId := slot];
      ledger := ledger + events;
    }

    // -------------------------------------------------------------- working on runs

    /** Claim these units, then record them. */
    method TakeChosen(runId: string, cs: seq<Candidate>, now: int) returns (items: seq<WorkItem>)
      requires runId in runs
      modifies this`runs, this`ledger
      ensures runs == old(runs)[runId := TakeAll(old(runs[runId]), cs, now)]
      ensures items == TakenItems(old(runs[runId]), cs, now)
      ensures ledger == old(ledger) + ClaimEvents(old(runs[runId]), cs, now)
    {
      var slot;
      slot, items := TakeEach(runs[runId], cs, now);
      EventsOfItems(runs[runId], cs, now);
      ghost var events := ClaimEvents(runs[runId], cs, now);
      runs := runs[runId := slot];
      for i := 0 to |items|
        invariant runs == old(runs)[runId := slot] && ledger == old(ledger) + events[..i]
      {
        ledger := ledger + [WorkClaimed(Unleased(items[i]))];
      }
    }

    /** A running run with nothing claimed and nothing ready stalls, unless it is open. */
    method IdleCheck(slot: RunSlot) returns (checked: RunSlot)
      requires slot.run.state == Running
      ensures checked == StallIfIdle(modules, slot)
    {
      checked := slot;
      if !IsOpen(slot.run) && slot.claimed == map[] {
        var ready := AssemblyAnyReady(modules, slot);
        if !ready {
          checked := slot.(run := slot.run.(state := Stalled, reason := STALL_REASON));
        }
      }
    }

    /** Close an idle run. */
    method StallCheck(runId: string)
      requires runId in runs && runs[runId].run.state == Running
      modifies this`runs, this`ledger
      ensures runs == old(runs)[runId := StallIfIdle(modules, old(runs[runId]))]
      ensures ledger == old(ledger) + StallEvents(old(runs[runId]), StallIfIdle(modules, old(runs[runId])))
    {
      var slot := runs[runId];
      var checked := IdleCheck(slot);
      if checked.run.state == Stalled {
        ledger := ledger + [RunUpdated(checked.run)];
      }
      runs := runs[runId := checked];
    }

    /** `claim_ready`. */
    method ClaimReady(req: ClaimRequest, now: int) returns (r: Result<seq<WorkItem>, KernelError>,
                      ghost order: seq<WorkId>)
      modifies this`runs, this`ledger
      ensures Proper(old(Contents()), CClaim(req, now, order))
      ensures Contents() == Claim(old(Contents()), req, now, order).0
      ensures match Claim(old(Contents()), req, now, order).1
        case Some(error) => r == Failure(error)
        case None =>
          var reaped := Reap(old(runs[req.runId]), now);
          r == Success(TakenItems(reaped, ChosenFor(modules, reaped, req), now))
    {
      var fault := RunFault(Contents(), req.runId);
      if fault.Some? {
        order := AnyOrder(Contents(), req.runId, now);
        return Failure(fault.value), order;
      }
      order := ReapExpired(req.runId, now);
      var items := ClaimFrom(req, now);
      ClaimIs(old(Contents()), req, now, order);
      return Success(items), order;
    }

    /** The part of `claim_ready` after reaping. */
    method ClaimFrom(req: ClaimRequest, now: int) returns (items: seq<WorkItem>)
      requires req.runId in runs && runs[req.runId].run.state == Running
      modifies this`runs, this`ledger
      ensures var reaped := old(runs[req.runId]);
        var chosen := ChosenFor(modules, reaped, req);
        && items == TakenItems(reaped, chosen, now)
        && runs == old(runs)[req.runId := AfterClaim(modules, reaped, chosen, now)]
        && ledger == old(ledger) + ClaimEvents(reaped, chosen, now)
                     + StallEvents(reaped, AfterClaim(modules, reaped, chosen, now))
    {
      var slot := runs[req.runId];
      var want := WantedItems(slot, req.maxItems);
      var chosen := [];
      if want > 0 {
        var ready := ReadyCandidates(modules, slot, req);
        chosen := ready[..Min(want, |ready|)];
      }
      assert chosen == ChosenFor(modules, slot, req);
      items := TakeChosen(req.runId, chosen, now);
      TakeAllRun(slot, chosen, now);
      if items == [] {
        assert runs == old(runs)[req.runId := slot];
        StallCheck(req.runId);
      }
    }

    /** Some walk of the expired leases, for a call that is refused anyway. */
    lemma AnyOrder(state: State, runId: string, now: int) returns (order: seq<WorkId>)
      ensures runId in state.runs ==> ExpiredOrder(state.runs[runId], now, order)
    {
      order := [];
      if runId in state.runs {
        order := SomeOrder(set id | id in state.runs[runId].claimed && Expired(state.runs[runId].claimed[id], now));
      }
    }

    lemma AnyBeatOrder(state: State, runId: string, ids: seq<WorkId>, extend: nat,
                       now: int) returns (order: seq<WorkId>)
      ensures Proper(state, CHeartbeat(runId, ids, extend, now, order))
    {
      order := [];
      if runId in state.runs {
        var slot := state.runs[runId];
        var renewed := RenewAll(slot, ids, LeaseEnd(now, if extend == 0 then slot.defaultLeaseMs else extend));
        order := SomeOrder(set id | id in renewed.claimed && Expired(renewed.claimed[id], now));
      }
    }

    /** `heartbeat`: renew, then reap. */
    method Heartbeat(runId: string, ids: seq<WorkId>, extend: nat, now: int)
      returns (err: Option<KernelError>, renewed: seq<WorkId>, lost: seq<WorkId>, ghost order: seq<WorkId>)
      modifies this`runs, this`ledger
      ensures Proper(old(Contents()), CHeartbeat(runId, ids, extend, now, order))
      ensures (Contents(), err) == Beat(old(Contents()), runId, ids, extend, now, order)
      ensures err.None? ==> renewed == HeldOf(ids, old(runs[runId].claimed.Keys))
      ensures err.None? ==> lost == LostOf(ids, old(runs[runId].claimed.Keys))
    {
      err, renewed, lost := RunFault(Contents(), runId), [], [];
      if err.Some? {
        order := AnyBeatOrder(Contents(), runId, ids, extend, now);
        return;
      }
      var slot := runs[runId];
      var until := LeaseEnd(now, if extend == 0 then slot.defaultLeaseMs else extend);
      slot, renewed, lost := RenewEach(slot, ids, until);
      runs := runs[runId := slot];
      order := ReapExpired(runId, now);
      assert runs == old(runs)[runId := Reap(slot, now)];
    }

    /** `fail_work`. */
    method Fail(runId: string, id: WorkId, reason: string, terminal: bool,
                now: int) returns (err: Option<KernelError>, ghost order: seq<WorkId>)
      modifies this`runs, this`ledger
      ensures Proper(old(Contents()), CFail(runId, id, reason, terminal, now, order))
      ensures (Contents(), err) == Kernel.Fail(old(Contents()), runId, id, reason, terminal, now, order)
    {
      err := RunFault(Contents(), runId);
      if err.Some? {
        order := AnyOrder(Contents(), runId, now);
        return;
      }
      order := ReapExpired(runId, now);
      hide StallIfIdle, StallEvents, ReapEvents, Reap, Kernel.Fail;
      var slot := runs[runId];
      if id !in slot.claimed {
        FailIs(old(Contents()), runId, id, reason, terminal, now, order);
        return Some(Conflict), order;
      }
      var item := slot.claimed[id];
      var done := terminal || item.attempt >= slot.maxAttempts;
      runs := runs[runId := slot.(
        claimed := slot.claimed - {id}, doneUnits := if done then slot.doneUnits + {item.unit} else slot.doneUnits)];
      ledger := ledger + [WorkFailed(id, item.unit, if reason == "" then "failed" else reason, done, item.attempt)];
      StallCheck(runId);
      FailIs(old(Contents()), runId, id, reason, terminal, now, order);
    }

    /** `commit`. A refusal keeps what the reaping before it did. */
    method Commit(runId: string, id: WorkId, nodeId: string, outputs: seq<NamedArtifact>, now: int)
      returns (err: Option<KernelError>, ghost order: seq<WorkId>)
      modifies this`runs, this`derivations, this`ledger
      ensures Proper(old(Contents()), CCommit(runId, id, nodeId, outputs, now, order))
      ensures (Contents(), err) == CommitWork(old(Contents()), runId, id, nodeId, outputs, now, order)
    {
      err := RunFault(Contents(), runId);
      if err.Some? {
        order := AnyOrder(Contents(), runId, now);
        return;
      }
      order := ReapExpired(runId, now);
      CommitIs(old(Contents()), runId, id, nodeId, outputs, now, order);
      err := CheckCommit(runs[runId], id, nodeId, outputs);
      if err.Some? {
        return;
      }
      ApplyCommit(runId, id, outputs);
    }

    /** The checks of `commit`, in their order. */
    method CheckCommit(slot: RunSlot, id: WorkId, nodeId: string,
                       outputs: seq<NamedArtifact>) returns (fault: Option<KernelError>)
      ensures fault == CommitFault(WorldOf(Contents()), slot, id, nodeId, outputs)
    {
      if id !in slot.claimed {
        return Some(Conflict);
      }
      var item := slot.claimed[id];
      if nodeId != "" && nodeId != item.node.id {
        return Some(Invalid);
      }
      if slot.run.steps >= slot.run.maxSteps {
        return Some(RunClosed(Failed));
      }
      var cap := CapabilityFor(modules, item.node);
      if cap.None? {
        return Some(Invalid);
      }
      fault := ValidateOutputs(TraitsOf(artifacts), cap.value, outputs);
    }

    /** One step further: the terminal's output answers and closes the run unless
      * it is open, and the last step fails it. */
    method AdvanceRun(before: Run, node: string, outputs: seq<NamedArtifact>) returns (run: Run, closed: bool)
      requires before.state == Running
      ensures run == Advance(before, node, outputs) && (closed <==> run.state != Running)
    {
      run, closed := before.(steps := before.steps + 1), false;
      if run.assembly.terminal.Some? && run.assembly.terminal.value.node == node {
        var answer := ArtifactNamed(outputs, run.assembly.terminal.value.port);
        if answer.Some? {
          run := run.(answer := answer);
          if !IsOpen(run) {
            run, closed := run.(state := Completed), true;
          }
        }
      }
      if !closed && run.steps >= run.maxSteps {
        run, closed := run.(state := RunState.Failed, reason := STEPS_REASON), true;
      }
    }

    /** An accepted commit: the unit ends, the run advances, the books are kept. */
    method ApplyCommit(runId: string, id: WorkId, outputs: seq<NamedArtifact>)
      requires runId in runs && id in runs[runId].claimed && runs[runId].run.state == Running
      modifies this`runs, this`derivations, this`ledger
      ensures var before := old(runs[runId]);
        var d := DerivationOf(before.claimed[id], outputs);
        var slot' := StallIfIdle(modules, Committing(before, id, outputs));
        && runs == old(runs)[runId := slot'] && derivations == old(derivations) + [d]
        && ledger == old(ledger) + [DerivationCommitted(d), RunUpdated(slot'.run)]
    {
      hide Committing, Advance, StallIfIdle;
      var slot := runs[runId];
      var item := slot.claimed[id];
      var d := DerivationOf(item, outputs);
      var node := item.node.id;
      slot := slot.(
        claimed := slot.claimed - {id}, doneUnits := slot.doneUnits + {item.unit}, latest := slot.latest[node := d],
        nodeCommits := slot.nodeCommits[node := Lookup(slot.nodeCommits, node, 0) + 1]);
      var run, closed := AdvanceRun(slot.run, node, outputs);
      slot := slot.(run := run);
      CommittingIs(old(runs[runId]), id, outputs);
      ClosedStays(modules, slot);
      if !closed {
        slot := IdleCheck(slot);
      }
      runs := runs[runId := slot];
      derivations := derivations + [d];
      ledger := ledger + [DerivationCommitted(d)];
      ledger := ledger + [RunUpdated(slot.run)];
    }

    /** `cancel_run`. */
    method CancelRun(runId: string) returns (err: Option<KernelError>)
      modifies this`runs, this`ledger
      ensures (Contents(), err) == Kernel.CancelRun(old(Contents()), runId)
    {
      err := RunFault(Contents(), runId);
      if err.Some? {
        return;
      }
      var slot := runs[runId];
      slot := slot.(run := slot.run.(state := Cancelled, reason := "cancelled"), claimed := map[]);
      runs := runs[runId := slot];
      ledger := ledger + [RunUpdated(slot.run)];
    }

    /** `publish` and `append`: one entry each, of whatever kind; delivery to
      * subscribers is not part of the state. */
    method Publish(topic: string, event: Bytes)
      modifies this`ledger
      ensures Contents() == Do(config, old(Contents()), CPublish(topic, event))
    {
      ledger := ledger + [EventPublished(topic, event)];
    }

    method Append(kind: string, subject: string, detail: Bytes, read: Reader)
      modifies this`ledger
      ensures Contents() == Do(config, old(Contents()), CAppend(Appended(read, kind, subject, detail)))
    {
      AppendLocked(Appended(read, kind, subject, detail));
    }

    method AppendLocked(entry: Payload)
      modifies this`ledger
      ensures Contents() == Do(config, old(Contents()), CAppend(entry))
    {
      ledger := ledger + [entry];
    }

    /** `list_derivations`: those of one run, in commit order. */
    method ListDerivations(runId: string) returns (list: Option<seq<Derivation>>)
      ensures list == if runId in runs then Some(DerivationsOf(derivations, runId)) else None
    {
      if runId !in runs {
        return None;
      }
      var ds := [];
      for i := 0 to |derivations|
        invariant ds == DerivationsOf(derivations[..i], runId)
      {
        assert derivations[..i + 1][..i] == derivations[..i];
        if derivations[i].work.run == runId {
          ds := ds + [derivations[i]];
        }
      }
      assert derivations[..|derivations|] == derivations;
      return Some(ds);
    }

    // -------------------------------------------------------------- serving calls

    /** Serve a call that touches no run. */
    method HandleRegistry(call: Call)
      requires LeavesRuns(call)
      modifies this`modules, this`contracts, this`artifacts, this`blobs, this`ledger
      ensures Contents() == Do(config, old(Contents()), call)
    {
      match call {
        case CRegister(manifest) => Register(manifest);
        case CTransition(name, to) => var _ := Transition(name, to);
        case CPutContract(contract) => var _ := PutContract(contract);
        case CPutArtifact(traits, about) => var _ := PutArtifact(traits, about);
        case CPutBlob(namespace, data) => var _ := PutBlob(namespace, data);
        case CPublish(topic, event) => Publish(topic, event);
        case CAppend(payload) => AppendLocked(payload);
      }
    }

    /** Serve a call on a run. The walk of the expired leases, where there is one,
      * is the kernel's own; `made` says which it was. */
    method HandleRun(call: Call) returns (ghost made: Call)
      requires !LeavesRuns(call)
      modifies this`runs, this`derivations, this`ledger
      ensures Contents() == Do(config, old(Contents()), made)
      ensures SameRequest(call, made) && Proper(old(Contents()), made)
    {
      hide Kernel.StartRun, Kernel.InjectInput, Claim, Beat, Kernel.Fail, CommitWork, Kernel.CancelRun, ExpiredOrder;
      made := call;
      match call {
        case CStart(request) => var _ := StartRun(request);
        case CInject(runId, input) => var _ := InjectInput(runId, input);
        case CClaim(claim, now, _) =>
          var _, walked := ClaimReady(claim, now);
          made := CClaim(claim, now, walked);
        case CHeartbeat(runId, ids, extend, now, _) =>
          var _, _, _, walked := Heartbeat(runId, ids, extend, now);
          made := CHeartbeat(runId, ids, extend, now, walked);
        case CFail(runId, work, reason, terminal, now, _) =>
          var _, walked := Fail(runId, work, reason, terminal, now);
          made := CFail(runId, work, reason, terminal, now, walked);
        case CCommit(runId, work, nodeId, outputs, now, _) =>
          var _, walked := Commit(runId, work, nodeId, outputs, now);
          made := CCommit(runId, work, nodeId, outputs, now, walked);
        case CCancel(runId) => var _ := CancelRun(runId);
      }
    }

    /** Serve any call. */
    method Handle(call: Call) returns (ghost made: Call)
      requires Valid()
      modifies this
      ensures Valid() && calls == old(calls) + [made] && SameRequest(call, made)
      ensures Contents() == Do(config, old(Contents()), made)
    {
      if LeavesRuns(call) {
        HandleRegistry(call);
        made := call;
      } else {
        made := HandleRun(call);
      }
      hide Do;
      OneMoreCall(config, old(calls), made);
      calls := calls + [made];
    }

    /** The ledger alone rebuilds the kernel, if what others appended to it was
      * harmless, as entries of their own kinds are; and then one more appended
      * entry leaves it so if and only if it is harmless too. */
    lemma LedgerHoldsAll(entry: Payload)
      requires Valid() && (Unforged(calls) || Truthful(config, calls))
      ensures Rebuild(config.hashes, ledger) == ViewState(Contents())
      ensures Rebuild(config.hashes, ledger + [entry]) == ViewState(Contents())
         <==> Harmless(ViewState(Contents()), entry)
    {
      if Unforged(calls) {
        UnforgedIsTruthful(config, calls);
      }
      LedgerReconstructs(config, calls);
      OneMoreEntry(config.hashes, ledger, entry);
    }

    /** What has been asked of callers, by the calls the object has served. */
    lemma RunsAsPromised(r: string, p: Program)
      requires Valid() && r in runs
      ensures Ranked(p) && Runs(p, runs[r].run) && Throughout(config, calls, r, FollowsIn(p, r)) ==>
        Converging(p, LogOf(Contents(), r))
      ensures Throughout(config, calls, r, QuietIn(r)) && Unforged(calls) ==>
        ClaimsLogged(ledger, r) <= runs[r].run.maxSteps * (|runs[r].run.assembly.nodes| * runs[r].maxAttempts)
    {
      if Ranked(p) && Runs(p, runs[r].run) && Throughout(config, calls, r, FollowsIn(p, r)) {
        RunsConverge(config, calls, r, p);
      }
      if Throughout(config, calls, r, QuietIn(r)) && Unforged(calls) {
        ClaimsBounded(config, calls, r);
      }
    }

    /** Its runs are sound, and nothing it holds refers to what it does not. */
    lemma RunsAreSound(r: string)
      requires Valid() && r in runs
      ensures Safe(runs[r]) && Accounted(LogOf(Contents(), r)) && AllSourced(LogOf(Contents(), r))
      ensures Intact(config, Contents()) && Referenced(WorldOf(Contents()), LogOf(Contents(), r))
    {
      KernelRunsAreSound(config, calls, r);
      NothingDangles(config, calls);
    }
  }

  /** The same call, up to the order in which the kernel walks its leases. */
  predicate SameRequest(a: Call, b: Call) {
    match (a, b)
    case (CClaim(c, now, _), CClaim(d, now', _)) => c == d && now == now'
    case (CHeartbeat(r, ids, extend, now, _), CHeartbeat(r', ids', extend', now', _)) =>
      r == r' && ids == ids' && extend == extend' && now == now'
    case (CFail(r, w, reason, terminal, now, _), CFail(r', w', reason', terminal', now', _)) =>
      r == r' && w == w' && reason == reason' && terminal == terminal' && now == now'
    case (CCommit(r, w, n, outputs, now, _), CCommit(r', w', n', outputs', now', _)) =>
      r == r' && w == w' && n == n' && outputs == outputs' && now == now'
    case _ => a == b
  }

  lemma OneMoreCall(config: Config, calls: seq<Call>, call: Call)
    requires History(config, calls) && Proper(After(config, calls), call)
    ensures History(config, calls + [call])
    ensures After(config, calls + [call]) == Do(config, After(config, calls), call)
  {
    assert (calls + [call])[..|calls|] == calls;
  }

  lemma EpochNext(inputs: seq<NamedArtifact>, i: nat)
    requires i < |inputs|
    ensures StartEpochs(inputs[..i + 1]) == StartEpochs(inputs[..i])[inputs[i].name := 0]
  {
    var longer, shorter := inputs[..i + 1], inputs[..i];
    assert longer == shorter + [inputs[i]];
    forall n
      ensures n in StartEpochs(longer) <==> n in StartEpochs(shorter) || n == inputs[i].name
    {
      if n in StartEpochs(shorter) {
        var j :| 0 <= j < |shorter| && shorter[j].name == n;
        assert longer[j].name == n;
      }
      assert longer[i].name == inputs[i].name;
    }
  }
}
