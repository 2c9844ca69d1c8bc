/** Referential integrity: in every state a kernel can reach, artifacts are
  * stored under their content address and never change, every external ref
  * names an unharmed blob, and everything a run names is stored. */
module Integrity {
  import opened Base
  import opened Types
  import opened Strings
  import opened Scheduler
  import opened Moves
  import opened Assemblies
  import opened Safety
  import opened Kernel
  import opened KernelRuns

  // ---------------------------------------------------------------- what runs name

  ghost predicate ItemsStored(traits: map<string, set<string>>, items: seq<NamedArtifact>) {
    forall i :: 0 <= i < |items| ==> items[i].artifact.Some? && items[i].artifact.value in traits
  }

  ghost predicate DerivationsStored(traits: map<string, set<string>>, ds: seq<Derivation>) {
    forall i :: 0 <= i < |ds| ==> ItemsStored(traits, ds[i].inputs) && ItemsStored(traits, ds[i].outputs)
  }

  ghost predicate SlotStored(traits: map<string, set<string>>, slot: RunSlot) {
    && ItemsStored(traits, slot.run.inputs)
    && (forall id :: id in slot.claimed ==> ItemsStored(traits, slot.claimed[id].inputs))
    && (forall n :: n in slot.latest ==> ItemsStored(traits, slot.latest[n].outputs))
    && (slot.run.answer.Some? ==> slot.run.answer.value in traits)
  }

  /** Inputs, claimed and committed work and the answer name stored artifacts. */
  ghost predicate Referenced(world: World, log: RunLog) {
    SlotStored(world.traits, log.slot) && DerivationsStored(world.traits, log.derivations)
  }

  lemma ReferencedGrows(world: World, later: World, log: RunLog)
    requires Referenced(world, log) && Grows(world, later)
    ensures Referenced(later, log)
  {
  }

  lemma ResolvedStored(traits: map<string, set<string>>, slot: RunSlot, b: Binding)
    requires SlotStored(traits, slot) && ResolveBinding(slot.run.inputs, slot.latest, b).Some?
    ensures ResolveBinding(slot.run.inputs, slot.latest, b).value in traits
  {
  }

  lemma CandidateStored(world: World, slot: RunSlot, c: Candidate)
    requires SlotStored(world.traits, slot) && IsReady(world.modules, slot, c)
    ensures ItemsStored(world.traits, c.inputs)
  {
    var bs := BoundTo(slot, c.node);
    forall i | 0 <= i < |c.inputs|
      ensures c.inputs[i].artifact.Some? && c.inputs[i].artifact.value in world.traits
    {
      assert c.inputs[i].artifact == ResolveBinding(slot.run.inputs, slot.latest, bs[i]);
      ResolvedStored(world.traits, slot, bs[i]);
    }
  }

  lemma TakeReferenced(traits: map<string, set<string>>, slot: RunSlot, c: Candidate, now: int)
    requires SlotStored(traits, slot) && ItemsStored(traits, c.inputs)
    ensures SlotStored(traits, Take(slot, c, now))
  {
  }

  lemma OutputsStored(world: World, slot: RunSlot, id: WorkId, outputs: seq<NamedArtifact>)
    requires CommitAllowed(world, slot, id, outputs)
    ensures ItemsStored(world.traits, outputs)
  {
    var cap := CapabilityFor(world.modules, slot.claimed[id].node).value;
    forall i | 0 <= i < |outputs|
      ensures outputs[i].artifact.Some? && outputs[i].artifact.value in world.traits
    {
      assert FitsPort(world.traits, cap.outputs, outputs[i]);
    }
  }

  lemma CommitReferenced(traits: map<string, set<string>>, log: RunLog, id: WorkId, outputs: seq<NamedArtifact>)
    requires SlotStored(traits, log.slot) && DerivationsStored(traits, log.derivations)
    requires id in log.slot.claimed && ItemsStored(traits, outputs)
    ensures var log' := CommitUnit(log, id, outputs);
      SlotStored(traits, log'.slot) && DerivationsStored(traits, log'.derivations)
  {
  }

  lemma {:induction false} ReplaceStored(traits: map<string, set<string>>, inputs: seq<NamedArtifact>,
                                         input: NamedArtifact)
    requires ItemsStored(traits, inputs) && input.artifact.Some? && input.artifact.value in traits
    ensures ItemsStored(traits, Replace(inputs, input))
  {
    if inputs != [] && inputs[0].name != input.name {
      ReplaceStored(traits, inputs[1..], input);
    }
  }

  lemma MoveReferenced(world: World, log: RunLog, m: Move)
    requires Referenced(world, log) && Enabled(world, log.slot, m)
    ensures Referenced(world, Apply(log, m))
  {
    match m
    case MTake(c, now) =>
      CandidateStored(world, log.slot, c);
      TakeReferenced(world.traits, log.slot, c, now);
    case MCommit(id, outputs) =>
      OutputsStored(world, log.slot, id, outputs);
      CommitReferenced(world.traits, log, id, outputs);
    case MInject(input) => ReplaceStored(world.traits, log.slot.run.inputs, input);
    case _ =>
  }

  lemma FreshReferenced(base: World, start: RunLog)
    requires Fresh(start) && ValidAssembly(base, start.slot.run.assembly, start.slot.run.inputs)
    ensures Referenced(base, start)
  {
  }

  /** In every run of a validated assembly, whatever the run names is stored. */
  lemma {:induction false} AlwaysReferenced(base: World, start: RunLog, steps: seq<Step>, world: World)
    requires Fresh(start) && ValidAssembly(base, start.slot.run.assembly, start.slot.run.inputs)
    requires IsRun(start, steps) && WorldsGrow(steps, world) && Grows(base, world)
    requires AllOk(FromBase(base), start, steps)
    ensures Referenced(world, RunSteps(start, steps))
  {
    if steps == [] {
      FreshReferenced(base, start);
      ReferencedGrows(base, world, start);
    } else {
      var front, last := steps[..|steps| - 1], steps[|steps| - 1];
      ShorterOk(FromBase(base), start, steps);
      AlwaysReferenced(base, start, front, last.world);
      MoveReferenced(last.world, RunSteps(start, front), last.move);
      ReferencedGrows(last.world, world, RunSteps(start, steps));
    }
  }

  // ---------------------------------------------------------------- what is stored

  /** Blobs sit under their digest, with the size they say. */
  ghost predicate BlobsIntact(hashes: Hashes, blobs: map<(string, string), BlobSlot>) {
    forall key :: key in blobs ==>
      blobs[key].ref == ObjectRef(hashes.blob(blobs[key].data), |blobs[key].data|, key.0)
      && blobs[key].ref.digest == key.1
  }

  /** Artifacts sit under the address of their traits. */
  ghost predicate Addressed(config: Config, id: string, a: Artifact) {
    a.id == id && id == config.hashes.artifact(a.traits) && ContentValid(config.hashes, config.policy, a.traits)
  }

  ghost predicate ArtifactsIntact(config: Config, state: State) {
    forall id :: id in state.artifacts ==>
      Addressed(config, id, state.artifacts[id])
      && ExternalsStored(config.hashes, state.blobs, state.artifacts[id].traits)
  }

  ghost predicate Intact(config: Config, state: State) {
    BlobsIntact(config.hashes, state.blobs) && ArtifactsIntact(config, state)
  }

  /** Nothing stored is ever overwritten or removed. */
  ghost predicate Keeps(state: State, state': State) {
    && (forall id :: id in state.artifacts ==> id in state'.artifacts && state'.artifacts[id] == state.artifacts[id])
    && (forall key :: key in state.blobs ==> key in state'.blobs && state'.blobs[key] == state.blobs[key])
  }

  lemma StoresUntouched(config: Config, state: State, call: Call)
    requires !call.CPutArtifact? && !call.CPutBlob?
    ensures Do(config, state, call).artifacts == state.artifacts && Do(config, state, call).blobs == state.blobs
  {
    if LeavesRuns(call) {
      RegistryKeepsStores(config, state, call);
    } else {
      RunsKeepStores(config, state, call);
    }
  }

  lemma RegistryKeepsStores(config: Config, state: State, call: Call)
    requires LeavesRuns(call) && !call.CPutArtifact? && !call.CPutBlob?
    ensures Do(config, state, call).artifacts == state.artifacts && Do(config, state, call).blobs == state.blobs
  {
    hide PutArtifact, PutBlob;
  }

  lemma RunsKeepStores(config: Config, state: State, call: Call)
    requires !LeavesRuns(call)
    ensures Do(config, state, call).artifacts == state.artifacts && Do(config, state, call).blobs == state.blobs
  {
    hide PutArtifact, PutBlob, Register, Transition, PutContract, Commit, FailWork, ClaimReady, Heartbeat, StartFault,
      FreshSlot, Materialize, InjectFault;
  }

  lemma PutArtifactIntact(config: Config, state: State, traits: map<string, Trait>, about: seq<string>)
    requires Intact(config, state)
    ensures var state' := PutArtifact(config.hashes, config.policy, state, traits, about).0;
      Intact(config, state') && Keeps(state, state')
  {
    hide ExternalsStored, ContentValid, BlobsIntact;
    var state' := PutArtifact(config.hashes, config.policy, state, traits, about).0;
    forall id | id in state'.artifacts
      ensures Addressed(config, id, state'.artifacts[id])
      ensures ExternalsStored(config.hashes, state'.blobs, state'.artifacts[id].traits)
    {
      if id in state.artifacts {
        assert Addressed(config, id, state.artifacts[id]);
      }
    }
  }

  lemma PutBlobIntact(config: Config, state: State, namespace: string, data: Bytes)
    requires Intact(config, state)
    ensures var state' := PutBlob(config.hashes, config.policy, state, namespace, data).0;
      Intact(config, state') && Keeps(state, state')
  {
    var state' := PutBlob(config.hashes, config.policy, state, namespace, data).0;
    assert BlobsIntact(config.hashes, state'.blobs) && Keeps(state, state');
    forall id | id in state'.artifacts
      ensures ExternalsStored(config.hashes, state'.blobs, state'.artifacts[id].traits)
    {
      StaysStored(config.hashes, state, state', state.artifacts[id].traits);
    }
  }

  lemma StaysStored(hashes: Hashes, state: State, state': State, traits: map<string, Trait>)
    requires ExternalsStored(hashes, state.blobs, traits) && Keeps(state, state')
    ensures ExternalsStored(hashes, state'.blobs, traits)
  {
  }

  lemma DoIntact(config: Config, state: State, call: Call)
    requires Intact(config, state)
    ensures Intact(config, Do(config, state, call)) && Keeps(state, Do(config, state, call))
  {
    match call
    case CPutArtifact(traits, about) => PutArtifactIntact(config, state, traits, about);
    case CPutBlob(namespace, data) => PutBlobIntact(config, state, namespace, data);
    case _ => StoresUntouched(config, state, call);
  }

  lemma {:induction false} HistoryIntact(config: Config, calls: seq<Call>)
    ensures Intact(config, After(config, calls))
  {
    if calls != [] {
      HistoryIntact(config, calls[..|calls| - 1]);
      DoIntact(config, After(config, calls[..|calls| - 1]), calls[|calls| - 1]);
    }
  }

  lemma KeepsTransitive(a: State, b: State, c: State)
    requires Keeps(a, b) && Keeps(b, c)
    ensures Keeps(a, c)
  {
  }

  lemma OneCallKeeps(config: Config, calls: seq<Call>, call: Call)
    ensures Keeps(After(config, calls), After(config, calls + [call]))
  {
    assert (calls + [call])[..|calls|] == calls;
    HistoryIntact(config, calls);
    DoIntact(config, After(config, calls), call);
  }

  /** Stored artifacts and blobs never change, however the history goes on. */
  lemma {:induction false} StoredForever(config: Config, calls: seq<Call>, more: seq<Call>)
    ensures Keeps(After(config, calls), After(config, calls + more))
    decreases |more|
  {
    if more == [] {
      assert calls + more == calls;
    } else {
      var front, last := more[..|more| - 1], more[|more| - 1];
      StoredForever(config, calls, front);
      OneCallKeeps(config, calls + front, last);
      assert calls + more == calls + front + [last];
      KeepsTransitive(After(config, calls), After(config, calls + front), After(config, calls + more));
    }
  }

  /** After any history: content is addressed, external refs resolve to unharmed
    * blobs, and every run, open or closed, names only stored artifacts. */
  lemma NothingDangles(config: Config, calls: seq<Call>)
    ensures var state := After(config, calls);
      Intact(config, state) && forall r :: r in state.runs ==> Referenced(WorldOf(state), LogOf(state, r))
  {
    HistoryIntact(config, calls);
    HistoryIsGenuine(config, calls);
    var state := After(config, calls);
    forall r | r in state.runs
      ensures Referenced(WorldOf(state), LogOf(state, r))
    {
      var base: World, start: RunLog :| Origin(WorldOf(state), r, LogOf(state, r), base, start);
      var steps: seq<Step> :| Leads(FromBase(base), WorldOf(state), start, steps, LogOf(state, r));
      AlwaysReferenced(base, start, steps, WorldOf(state));
    }
  }

  /** An accepted put reads back what was put, unless two different trait bags
    * share an address; a repeated put changes nothing. */
  lemma ReadBack(config: Config, calls: seq<Call>, traits: map<string, Trait>, about: seq<string>)
    ensures var put := PutArtifact(config.hashes, config.policy, After(config, calls), traits, about);
      put.1.Success? ==>
        var stored := put.0.artifacts[put.1.value].traits;
        && (stored != traits ==> config.hashes.artifact(stored) == config.hashes.artifact(traits))
        && ContentValid(config.hashes, config.policy, stored)
        && forall other :: PutArtifact(config.hashes, config.policy, put.0, traits, other) == put
  {
    hide After, ExternalsStored, ContentValid;
    HistoryIntact(config, calls);
    PutArtifactIntact(config, After(config, calls), traits, about);
  }

  // ---------------------------------------------------------------- exactly what is stored

  /** The trait refers to an object. */
  predicate Refers(t: Trait) {
    t.external.Some? && t.external.value.digest != ""
  }

  /** An inline body within the limit and no object, or no body and an object whose blob
    * is stored: of this size, under this digest, which is that of its bytes. */
  predicate TraitGood(config: Config, blobs: map<(string, string), BlobSlot>, t: Trait) {
    if Refers(t) then
      var ref := t.external.value;
      && |t.body| == 0 && config.hashes.isDigest(ref.digest) && (ref.namespace, ref.digest) in blobs
      && var blob := blobs[(ref.namespace, ref.digest)];
      blob.ref.byteCount == ref.byteCount == |blob.data| && config.hashes.blob(blob.data) == ref.digest
    else
      && |t.body| <= config.policy.maxInline
      && (t.external.Some? ==> t.external.value.byteCount == 0 && t.external.value.namespace == "")
  }

  ghost predicate BagGood(config: Config, blobs: map<(string, string), BlobSlot>, traits: map<string, Trait>) {
    traits != map[] && forall ref :: ref in traits ==> ref != "" && TraitGood(config, blobs, traits[ref])
  }

  lemma BagGoodIff(config: Config, blobs: map<(string, string), BlobSlot>, traits: map<string, Trait>)
    ensures BagGood(config, blobs, traits)
       <==> ContentValid(config.hashes, config.policy, traits) && ExternalsStored(config.hashes, blobs, traits)
  {
    if ContentValid(config.hashes, config.policy, traits) && ExternalsStored(config.hashes, blobs, traits) {
      forall ref | ref in traits
        ensures TraitGood(config, blobs, traits[ref])
      {
        assert TraitWellFormed(config.hashes, traits[ref]);
      }
    }
    if BagGood(config, blobs, traits) {
      forall ref | ref in traits
        ensures TraitWellFormed(config.hashes, traits[ref]) && |traits[ref].body| <= config.policy.maxInline
        ensures HasExternal(traits[ref]) ==> ObjectStored(config.hashes, blobs, traits[ref].external.value)
      {
        assert TraitGood(config, blobs, traits[ref]);
      }
    }
  }

  /** A put is accepted if and only if the bag is not empty, no ref is, and every trait is
    * good; a new address then holds exactly what was put, and nothing else changes. */
  lemma PutAcceptedIff(config: Config, state: State, traits: map<string, Trait>, about: seq<string>)
    ensures var put := PutArtifact(config.hashes, config.policy, state, traits, about);
      var id := config.hashes.artifact(traits);
      && (put.1.Success? <==> BagGood(config, state.blobs, traits))
      && (put.1.Success? ==> put.1.value == id && id in put.0.artifacts)
      && (put.1.Success? && id !in state.artifacts ==>
            put.0 == state.(artifacts := state.artifacts[id := Artifact(id, traits, about)], ledger := put.0.ledger))
      && (put.1.Failure? || id in state.artifacts ==> put.0 == state)
  {
    hide BagGood, ContentValid, ExternalsStored;
    BagGoodIff(config, state.blobs, traits);
  }

  /** In every history, all that is stored is good. */
  lemma StoredIsGood(config: Config, calls: seq<Call>, id: string)
    requires id in After(config, calls).artifacts
    ensures BagGood(config, After(config, calls).blobs, After(config, calls).artifacts[id].traits)
    ensures After(config, calls).artifacts[id].id == id
    ensures config.hashes.artifact(After(config, calls).artifacts[id].traits) == id
  {
    hide BagGood, ContentValid, ExternalsStored, After;
    HistoryIntact(config, calls);
    assert Addressed(config, id, After(config, calls).artifacts[id]);
    BagGoodIff(config, After(config, calls).blobs, After(config, calls).artifacts[id].traits);
  }

  // ---------------------------------------------------------------- and why it is not

  /** A trait whose shape is wrong, whatever is stored: a body beside an object, an object
    * without a proper digest, or one that is only half empty. */
  predicate Misshapen(config: Config, t: Trait) {
    if Refers(t) then |t.body| > 0 || !config.hashes.isDigest(t.external.value.digest)
    else t.external.Some? && (t.external.value.byteCount > 0 || t.external.value.namespace != "")
  }

  predicate TooLarge(config: Config, t: Trait) {
    |t.body| > config.policy.maxInline
  }

  /** Nothing put, a trait without a ref, or one that is misshapen or too large. */
  ghost predicate Unsound(config: Config, traits: map<string, Trait>) {
    || traits == map[] || "" in traits
    || exists ref :: ref in traits && (Misshapen(config, traits[ref]) || TooLarge(config, traits[ref]))
  }

  predicate BlobMissing(blobs: map<(string, string), BlobSlot>, t: Trait) {
    Refers(t) && (t.external.value.namespace, t.external.value.digest) !in blobs
  }

  /** There is a blob under the digest, but not that of the object. */
  predicate BlobHarmed(config: Config, blobs: map<(string, string), BlobSlot>, t: Trait) {
    Refers(t) && (t.external.value.namespace, t.external.value.digest) in blobs && !TraitGood(config, blobs, t)
  }

  /** What a refused put complains of is so; and of blobs only when all else is sound. */
  lemma PutRefusedFor(config: Config, state: State, traits: map<string, Trait>, about: seq<string>)
    ensures var put := PutArtifact(config.hashes, config.policy, state, traits, about).1;
      && (put == Failure(InvalidContent) || put == Failure(ResourceExhausted) <==> Unsound(config, traits))
      && (put == Failure(InvalidContent) ==>
            traits == map[] || "" in traits || exists ref :: ref in traits && Misshapen(config, traits[ref]))
      && (put == Failure(ResourceExhausted) ==> exists ref :: ref in traits && TooLarge(config, traits[ref]))
      && (put == Failure(BlobNotFound) ==> exists ref :: ref in traits && BlobMissing(state.blobs, traits[ref]))
      && (put == Failure(BlobIntegrity) ==> exists ref :: ref in traits && BlobHarmed(config, state.blobs, traits[ref]))
  {
    hide Unsound;
    var refs, fault := Listing(traits.Keys), PutFault(config.hashes, config.policy, state.blobs, traits);
    forall ref
      ensures ref in traits <==> ref in refs
    {
      Listed(traits.Keys, ref);
    }
    if traits == map[] {
      assert Unsound(config, traits) by { EmptyUnsound(config, traits); }
    } else {
      UnsoundIff(config, traits, refs);
      var ref := FirstTraitFault(config, traits, refs);
      if TraitFaults(config.hashes, config.policy, traits, refs).None? {
        ref := FirstRefFault(config, state.blobs, traits, refs);
      }
    }
  }

  lemma EmptyUnsound(config: Config, traits: map<string, Trait>)
    requires traits == map[]
    ensures Unsound(config, traits)
  {
  }

  lemma UnsoundIff(config: Config, traits: map<string, Trait>, refs: seq<string>)
    requires traits != map[] && forall ref :: ref in traits <==> ref in refs
    ensures TraitFaults(config.hashes, config.policy, traits, refs).Some? <==> Unsound(config, traits)
  {
    forall ref | ref in traits
      ensures TraitFault(config.hashes, config.policy, ref, traits[ref]).None?
         <==> ref != "" && !Misshapen(config, traits[ref]) && !TooLarge(config, traits[ref])
    {
    }
    if TraitFaults(config.hashes, config.policy, traits, refs).None? {
      forall ref | ref in traits
        ensures ref != "" && !Misshapen(config, traits[ref]) && !TooLarge(config, traits[ref])
      {
        var i :| 0 <= i < |refs| && refs[i] == ref;
      }
    }
  }

  lemma {:induction false} FirstTraitFault(config: Config, traits: map<string, Trait>, refs: seq<string>)
    returns (ref: string)
    requires forall i :: 0 <= i < |refs| ==> refs[i] in traits
    ensures var fault := TraitFaults(config.hashes, config.policy, traits, refs);
      fault.Some? ==>
        ref in refs && ref in traits && TraitFault(config.hashes, config.policy, ref, traits[ref]) == fault
  {
    ref := "";
    if refs != [] {
      if TraitFault(config.hashes, config.policy, refs[0], traits[refs[0]]).Some? {
        ref := refs[0];
      } else {
        ref := FirstTraitFault(config, traits, refs[1..]);
      }
    }
  }

  lemma {:induction false} FirstRefFault(config: Config, blobs: map<(string, string), BlobSlot>,
                                         traits: map<string, Trait>, refs: seq<string>) returns (ref: string)
    requires forall i :: 0 <= i < |refs| ==> refs[i] in traits
    ensures var fault := RefFaults(config.hashes, blobs, traits, refs);
      fault.Some? ==> ref in refs && ref in traits && RefFault(config.hashes, blobs, traits[ref]) == fault
  {
    ref := "";
    if refs != [] {
      if RefFault(config.hashes, blobs, traits[refs[0]]).Some? {
        ref := refs[0];
      } else {
        ref := FirstRefFault(config, blobs, traits, refs[1..]);
      }
    }
  }
}
