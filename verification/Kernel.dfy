/** The whole kernel state and every call on it, as functions. Class
  * `MemoryKernel` performs these calls in place. */
module Kernel {
  import opened Base
  import opened Types
  import opened Strings
  import opened Scheduler
  import opened Moves
  import opened Assemblies

  // ---------------------------------------------------------------- stored things

  datatype ObjectRef = ObjectRef(digest: string, byteCount: nat, namespace: string)

  datatype Trait = Trait(body: Bytes, external: Option<ObjectRef>)

  /** `about` stands for the fields that are not part of the address: meta,
    * produced_by, entity_id and supersedes. */
  datatype Artifact = Artifact(id: string, traits: map<string, Trait>, about: seq<string>)

  datatype BlobSlot = BlobSlot(data: Bytes, ref: ObjectRef)

  datatype Contract = Contract(ref: string, mediaType: string, schema: string, version: string,
                               compatibleWith: seq<string>, digest: string)

  /** The kinds the kernel's own calls write. */
  const KernelKinds: set<string> := {
    "module.registered", "module.loaded", "module.activated", "module.deactivated", "contract.registered",
    "artifact.put", "blob.put", "event.published", "run.started", "run.input_injected", "run.progressed",
    "run.completed", "run.stalled", "run.failed", "run.cancelled", "work.claimed", "work.expired", "work.failed",
    "derivation.committed"}

  /** The kinds left to modules. */
  type ForeignKind = kind: string | kind !in KernelKinds witness ""

  /** What one ledger entry says: an entry of a kernel kind what its detail
    * decodes to, whoever wrote it. */
  datatype Payload =
    | ModuleRegistered(manifest: ModuleManifest)
    | ModuleAdvanced(name: string, to: Lifecycle)
    | ContractRegistered(contract: Contract)
    | ArtifactPut(artifact: Artifact)
    | BlobPut(ref: ObjectRef)
    | EventPublished(topic: string, event: Bytes)
    | RunStarted(run: Run)
    | InputInjected(runId: string, input: NamedArtifact)
    | WorkClaimed(item: WorkItem)
    | WorkExpired(expired: WorkItem)
    | WorkFailed(work: WorkId, unit: UnitKey, reason: string, terminal: bool, attempt: nat)
    | DerivationCommitted(derivation: Derivation)
    | RunUpdated(updated: Run)
    | Foreign(kind: ForeignKind, subject: string, detail: Bytes)

  /** How the detail of an entry of a kernel kind is decoded. */
  type Reader = (string, string, Bytes) -> Payload

  /** An appended entry, as its readers will read it. */
  function Appended(read: Reader, kind: string, subject: string, detail: Bytes): Payload {
    if kind in KernelKinds then read(kind, subject, detail) else Foreign(kind, subject, detail)
  }

  datatype State = State(
    modules: seq<ModuleSlot>,
    contracts: map<string, Contract>,
    artifacts: map<string, Artifact>,
    blobs: map<(string, string), BlobSlot>,
    runs: map<string, RunSlot>,
    derivations: seq<Derivation>,
    ledger: seq<Payload>)

  const EmptyState := State([], map[], map[], map[], map[], [], [])

  /** The content addresses, left uninterpreted: SHA-256 behind `sha256:`. */
  datatype Hashes = Hashes(
    artifact: map<string, Trait> -> string,
    blob: Bytes -> string,
    contract: (string, string, string, seq<string>) -> string,
    isDigest: string -> bool)

  function TraitsOf(artifacts: map<string, Artifact>): map<string, set<string>> {
    map a | a in artifacts :: artifacts[a].traits.Keys
  }

  function WorldOf(state: State): World {
    World(state.modules, TraitsOf(state.artifacts))
  }

  // ---------------------------------------------------------------- registry

  function Placeholder(hashes: Hashes, ref: string): Contract {
    Contract(ref, "", "", "", [], hashes.contract("", "", "", []))
  }

  predicate IsPlaceholder(c: Contract) {
    c.mediaType == "" && c.schema == "" && c.version == "" && c.compatibleWith == []
  }

  function NamePlaceholders(hashes: Hashes, contracts: map<string, Contract>, refs: seq<string>): map<string, Contract>
    decreases |refs|
  {
    if refs == [] then contracts
    else
      var named := if refs[0] == "" || refs[0] in contracts then contracts
                   else contracts[refs[0] := Placeholder(hashes, refs[0])];
      NamePlaceholders(hashes, named, refs[1..])
  }

  function PortRefs(ports: seq<Port>): seq<string> {
    if ports == [] then [] else ports[0].traits + PortRefs(ports[1..])
  }

  function ManifestRefs(capabilities: seq<Capability>): seq<string> {
    if capabilities == [] then []
    else PortRefs(capabilities[0].inputs) + PortRefs(capabilities[0].outputs) + ManifestRefs(capabilities[1..])
  }

  function Register(hashes: Hashes, state: State, manifest: ModuleManifest): State {
    state.(
      modules := state.modules + [ModuleSlot(manifest, Registered)],
      contracts := NamePlaceholders(hashes, state.contracts, ManifestRefs(manifest.capabilities)),
      ledger := state.ledger + [ModuleRegistered(manifest)])
  }

  function FindModule(modules: seq<ModuleSlot>, name: string): (r: Option<nat>)
    ensures r.Some? ==> r.value < |modules| && modules[r.value].manifest.name == name
  {
    if modules == [] then None
    else if modules[0].manifest.name == name then Some(0)
    else
      var rest := FindModule(modules[1..], name);
      if rest.None? then None else Some(rest.value + 1)
  }

  function Next(l: Lifecycle): Option<Lifecycle> {
    match l
    case Registered => Some(Loaded)
    case Loaded => Some(Active)
    case Active => Some(Deactivated)
    case Deactivated => None
  }

  function SetLifecycle(modules: seq<ModuleSlot>, name: string, to: Lifecycle): seq<ModuleSlot> {
    var i := FindModule(modules, name);
    if i.None? then modules else modules[i.value := modules[i.value].(lifecycle := to)]
  }

  /** One step forward; anything else changes nothing. */
  function Transition(state: State, name: string, to: Lifecycle): (State, Option<KernelError>) {
    var i := FindModule(state.modules, name);
    if i.None? then (state, Some(NotFound))
    else if Next(state.modules[i.value].lifecycle) != Some(to) then (state, None)
    else (state.(modules := SetLifecycle(state.modules, name, to),
                 ledger := state.ledger + [ModuleAdvanced(name, to)]), None)
  }

  function PutContract(hashes: Hashes, state: State, submitted: Contract): (State, Option<KernelError>) {
    if submitted.ref == "" then (state, Some(Invalid))
    else
      var compatible := SortNames(submitted.compatibleWith);
      var digest := hashes.contract(submitted.mediaType, submitted.schema, submitted.version, compatible);
      if submitted.digest != "" && submitted.digest != digest then (state, Some(Invalid))
      else
        var contract := submitted.(digest := digest, compatibleWith := compatible);
        var stored := state.(contracts := state.contracts[contract.ref := contract],
                             ledger := state.ledger + [ContractRegistered(contract)]);
        if contract.ref !in state.contracts then (stored, None)
        else
          var existing := state.contracts[contract.ref];
          if existing.digest == digest then (state, None)
          else if IsPlaceholder(existing) && !IsPlaceholder(contract) then (stored, None)
          else (state, Some(Conflict))
  }

  // ---------------------------------------------------------------- artifacts

  predicate HasExternal(t: Trait) {
    t.external.Some? && t.external.value.digest != ""
  }

  datatype StorePolicy = StorePolicy(maxInline: nat, maxBlob: nat)

  /** Why the stores refuse content. */
  datatype StoreError = InvalidContent | BlobNotFound | ResourceExhausted | BlobIntegrity

  /** Exactly one of body and object carries a trait's value. */
  predicate TraitWellFormed(hashes: Hashes, t: Trait) {
    && (HasExternal(t) ==> t.body == [] && hashes.isDigest(t.external.value.digest))
    && (t.external.Some? && t.external.value.digest == "" ==> t.external.value == ObjectRef("", 0, ""))
  }

  predicate ContentValid(hashes: Hashes, policy: StorePolicy, traits: map<string, Trait>) {
    && traits != map[] && "" !in traits
    && (forall c :: c in traits ==> TraitWellFormed(hashes, traits[c]) && |traits[c].body| <= policy.maxInline)
  }

  /** The referenced blob is stored, unharmed and of the stated size. */
  predicate ObjectStored(hashes: Hashes, blobs: map<(string, string), BlobSlot>, ref: ObjectRef) {
    var key := (ref.namespace, ref.digest);
    key in blobs && blobs[key].ref.byteCount == ref.byteCount
    && hashes.blob(blobs[key].data) == ref.digest && |blobs[key].data| == ref.byteCount
  }

  predicate ExternalsStored(hashes: Hashes, blobs: map<(string, string), BlobSlot>, traits: map<string, Trait>) {
    forall c :: c in traits && HasExternal(traits[c]) ==> ObjectStored(hashes, blobs, traits[c].external.value)
  }

  /** What is wrong with one trait. */
  function TraitFault(hashes: Hashes, policy: StorePolicy, ref: string, t: Trait): (r: Option<StoreError>)
    ensures r.None? <==> ref != "" && TraitWellFormed(hashes, t) && |t.body| <= policy.maxInline
  {
    if ref == "" then Some(InvalidContent)
    else if HasExternal(t) && t.body != [] then Some(InvalidContent)
    else if t.body != [] && |t.body| > policy.maxInline then Some(ResourceExhausted)
    else if t.external.Some? && t.external.value.digest == "" && t.external.value != ObjectRef("", 0, "") then
      Some(InvalidContent)
    else if HasExternal(t) && !hashes.isDigest(t.external.value.digest) then Some(InvalidContent)
    else None
  }

  /** The first trait at fault, in the order given. */
  function TraitFaults(hashes: Hashes, policy: StorePolicy, traits: map<string, Trait>,
                       refs: seq<string>): (r: Option<StoreError>)
    requires forall i :: 0 <= i < |refs| ==> refs[i] in traits
    ensures r.None? <==> forall i :: 0 <= i < |refs| ==> TraitFault(hashes, policy, refs[i], traits[refs[i]]).None?
  {
    if refs == [] then None
    else
      var first := TraitFault(hashes, policy, refs[0], traits[refs[0]]);
      if first.Some? then first else TraitFaults(hashes, policy, traits, refs[1..])
  }

  /** What is wrong with one object ref. */
  function RefFault(hashes: Hashes, blobs: map<(string, string), BlobSlot>, t: Trait): (r: Option<StoreError>)
    ensures r.None? <==> (HasExternal(t) ==> ObjectStored(hashes, blobs, t.external.value))
  {
    if !HasExternal(t) || ObjectStored(hashes, blobs, t.external.value) then None
    else if (t.external.value.namespace, t.external.value.digest) !in blobs then Some(BlobNotFound)
    else Some(BlobIntegrity)
  }

  function RefFaults(hashes: Hashes, blobs: map<(string, string), BlobSlot>, traits: map<string, Trait>,
                     refs: seq<string>)
    : (r: Option<StoreError>)
    requires forall i :: 0 <= i < |refs| ==> refs[i] in traits
    ensures r.None? <==> forall i :: 0 <= i < |refs| ==> RefFault(hashes, blobs, traits[refs[i]]).None?
  {
    if refs == [] then None
    else
      var first := RefFault(hashes, blobs, traits[refs[0]]);
      if first.Some? then first else RefFaults(hashes, blobs, traits, refs[1..])
  }

  /** Why a trait bag is refused, traits in ascending order of their refs: first
    * what is wrong with the content, then with the blobs it refers to. */
  ghost function PutFault(hashes: Hashes, policy: StorePolicy, blobs: map<(string, string), BlobSlot>,
                          traits: map<string, Trait>)
    : (r: Option<StoreError>)
    ensures r.None? <==> ContentValid(hashes, policy, traits) && ExternalsStored(hashes, blobs, traits)
  {
    assert forall c :: c in traits <==> c in Listing(traits.Keys) by {
      forall c
        ensures c in traits <==> c in Listing(traits.Keys)
      {
        Listed(traits.Keys, c);
      }
    }
    if traits == map[] then Some(InvalidContent)
    else
      var content := TraitFaults(hashes, policy, traits, Listing(traits.Keys));
      if content.Some? then content else RefFaults(hashes, blobs, traits, Listing(traits.Keys))
  }

  /** What goes on the ledger: external traits with their bodies cleared. */
  function LedgerTraits(traits: map<string, Trait>): map<string, Trait> {
    map c | c in traits :: if HasExternal(traits[c]) then traits[c].(body := []) else traits[c]
  }

  /** First write of an id wins. */
  ghost function PutArtifact(hashes: Hashes, policy: StorePolicy, state: State, traits: map<string, Trait>,
                             about: seq<string>)
    : (State, Result<string, StoreError>)
  {
    var fault := PutFault(hashes, policy, state.blobs, traits);
    if fault.Some? then (state, Failure(fault.value))
    else
      var id := hashes.artifact(traits);
      if id in state.artifacts then (state, Success(id))
      else (state.(artifacts := state.artifacts[id := Artifact(id, traits, about)],
                   ledger := state.ledger + [ArtifactPut(Artifact(id, LedgerTraits(traits), about))]), Success(id))
  }

  function PutBlob(hashes: Hashes, policy: StorePolicy, state: State, namespace: string, data: Bytes)
    : (State, Result<ObjectRef, StoreError>)
  {
    if policy.maxBlob > 0 && |data| > policy.maxBlob then (state, Failure(ResourceExhausted))
    else
      var ref := ObjectRef(hashes.blob(data), |data|, namespace);
      var key := (namespace, ref.digest);
      if key in state.blobs then (state, Success(ref))
      else (state.(blobs := state.blobs[key := BlobSlot(data, ref)],
                   ledger := state.ledger + [BlobPut(ref)]), Success(ref))
  }

  // ---------------------------------------------------------------- runs

  datatype Limits = Limits(maxSteps: nat, maxInFlight: nat, defaultLeaseMs: nat, maxAttempts: nat)

  datatype RunRequest = RunRequest(
    id: string, assembly: Option<Assembly>, inputs: seq<NamedArtifact>, limits: Option<Limits>,
    includeNodes: seq<string>, policy: Option<ExecutionPolicy>)

  const DEFAULT_LEASE_MS: nat := 60000
  const DEFAULT_MAX_ATTEMPTS: nat := 3

  function KeepNodes(nodes: seq<AssemblyNode>, kept: seq<string>): (r: seq<AssemblyNode>)
    ensures forall n :: n in r <==> n in nodes && n.id in kept
  {
    if nodes == [] then []
    else if nodes[0].id in kept then [nodes[0]] + KeepNodes(nodes[1..], kept)
    else KeepNodes(nodes[1..], kept)
  }

  function KeepBindings(bindings: seq<Binding>, kept: seq<string>): (r: seq<Binding>)
    ensures forall b :: b in r <==> b in bindings && b.toNode in kept && (b.input != "" || b.fromNode in kept)
  {
    if bindings == [] then []
    else if bindings[0].toNode in kept && (bindings[0].input != "" || bindings[0].fromNode in kept) then
      [bindings[0]] + KeepBindings(bindings[1..], kept)
    else KeepBindings(bindings[1..], kept)
  }

  predicate NoDuplicates(names: seq<string>) {
    forall i, j :: 0 <= i < j < |names| ==> names[i] != names[j]
  }

  /** `include_nodes`: the sub-assembly on the listed nodes. */
  function Materialize(assembly: Assembly, only: seq<string>): Option<Assembly> {
    if only == [] then Some(assembly)
    else if !NoDuplicates(only) then None
    else if exists i :: 0 <= i < |only| && FindNode(assembly.nodes, only[i]).None? then None
    else if assembly.terminal.None? || assembly.terminal.value.node !in only then None
    else Some(assembly.(nodes := KeepNodes(assembly.nodes, only), bindings := KeepBindings(assembly.bindings, only)))
  }

  function OrDefault(n: nat, default: nat): nat {
    if n == 0 then default else n
  }

  function StartEpochs(inputs: seq<NamedArtifact>): map<string, nat> {
    map i | 0 <= i < |inputs| :: inputs[i].name := 0
  }

  function FreshRun(req: RunRequest, assembly: Assembly): Run {
    var asked := if req.limits.Some? then req.limits.value.maxSteps else 0;
    Run(req.id, assembly, req.inputs, Running, None, 0, OrDefault(asked, |assembly.nodes|), "", req.policy)
  }

  function FreshSlot(req: RunRequest, assembly: Assembly): RunSlot {
    var limits := if req.limits.Some? then req.limits.value else Limits(0, 0, 0, 0);
    RunSlot(FreshRun(req, assembly), map[], map[], {}, map[], StartEpochs(req.inputs), map[],
            limits.maxInFlight, OrDefault(limits.defaultLeaseMs, DEFAULT_LEASE_MS),
            OrDefault(limits.maxAttempts, DEFAULT_MAX_ATTEMPTS))
  }

  ghost function StartFault(state: State, req: RunRequest): Option<KernelError> {
    if req.id == "" then Some(Invalid)
    else if req.id in state.runs then Some(Conflict)
    else if req.assembly.None? || Materialize(req.assembly.value, req.includeNodes).None? then Some(Invalid)
    else AssemblyFault(WorldOf(state), Materialize(req.assembly.value, req.includeNodes).value, req.inputs)
  }

  ghost function StartRun(state: State, req: RunRequest): (State, Option<KernelError>) {
    var fault := StartFault(state, req);
    if fault.Some? then (state, fault)
    else
      var slot := FreshSlot(req, Materialize(req.assembly.value, req.includeNodes).value);
      (state.(runs := state.runs[req.id := slot], ledger := state.ledger + [RunStarted(slot.run)]), None)
  }

  /** Why a call on a run is refused before it does anything. */
  function RunFault(state: State, runId: string): Option<KernelError> {
    if runId !in state.runs then Some(NotFound)
    else if state.runs[runId].run.state != Running then Some(RunClosed(state.runs[runId].run.state))
    else None
  }

  function InjectFault(state: State, runId: string, input: NamedArtifact): Option<KernelError> {
    if input.name == "" || input.artifact.None? then Some(Invalid)
    else if input.artifact.value !in state.artifacts then Some(NotFound)
    else if RunFault(state, runId).Some? then RunFault(state, runId)
    else if !IsBoundInput(state.runs[runId].run.assembly, input.name) then Some(Invalid)
    else None
  }

  function InjectInput(state: State, runId: string, input: NamedArtifact): (State, Option<KernelError>) {
    var fault := InjectFault(state, runId, input);
    if fault.Some? then (state, fault)
    else (state.(runs := state.runs[runId := Inject(state.runs[runId], input)],
                 ledger := state.ledger + [InputInjected(runId, input)]), None)
  }

  /** A work item as the ledger shows it: without its lease. */
  function Unleased(item: WorkItem): WorkItem {
    item.(leaseUntil := 0)
  }

  const EXPIRED_REASON := "lease expired; max_attempts exhausted"

  function ExpiryEvents(slot: RunSlot, id: WorkId): seq<Payload>
    requires id in slot.claimed
  {
    var item := slot.claimed[id];
    [WorkExpired(Unleased(item))]
    + if item.attempt >= slot.maxAttempts then [WorkFailed(id, item.unit, EXPIRED_REASON, true, item.attempt)] else []
  }

  /** The entries reaping writes, for the order in which the map was walked. */
  function ReapEvents(slot: RunSlot, order: seq<WorkId>): seq<Payload> {
    if order == [] then []
    else
      var id := order[|order| - 1];
      ReapEvents(slot, order[..|order| - 1]) + if id in slot.claimed then ExpiryEvents(slot, id) else []
  }

  function ClaimEvents(slot: RunSlot, cs: seq<Candidate>, now: int): seq<Payload>
    decreases |cs|
  {
    if cs == [] then []
    else
      var slot' := Take(slot, cs[0], now);
      [WorkClaimed(Unleased(slot'.claimed[WorkId(slot.run.id, cs[0].unit)]))] + ClaimEvents(slot', cs[1..], now)
  }

  function StallEvents(before: RunSlot, after: RunSlot): seq<Payload> {
    if before.run.state == Running && after.run.state == Stalled then [RunUpdated(after.run)] else []
  }

  function Update(state: State, runId: string, slot: RunSlot, events: seq<Payload>): State {
    state.(runs := state.runs[runId := slot], ledger := state.ledger + events)
  }

  function Claim(state: State, req: ClaimRequest, now: int, order: seq<WorkId>): (State, Option<KernelError>) {
    if RunFault(state, req.runId).Some? then (state, RunFault(state, req.runId))
    else
      var slot := state.runs[req.runId];
      var reaped := Reap(slot, now);
      var slot' := ClaimReady(state.modules, slot, req, now);
      (Update(state, req.runId, slot',
              ReapEvents(slot, order) + ClaimEvents(reaped, ChosenFor(state.modules, reaped, req), now)
              + StallEvents(slot, slot')), None)
  }

  function Beat(state: State, runId: string, ids: seq<WorkId>, extend: nat, now: int, order: seq<WorkId>)
    : (State, Option<KernelError>)
  {
    if RunFault(state, runId).Some? then (state, RunFault(state, runId))
    else
      var slot := state.runs[runId];
      var until := LeaseEnd(now, if extend == 0 then slot.defaultLeaseMs else extend);
      (Update(state, runId, Heartbeat(slot, ids, extend, now), ReapEvents(RenewAll(slot, ids, until), order)), None)
  }

  function Fail(state: State, runId: string, id: WorkId, reason: string, terminal: bool, now: int, order: seq<WorkId>)
    : (State, Option<KernelError>)
  {
    if RunFault(state, runId).Some? then (state, RunFault(state, runId))
    else
      var slot := state.runs[runId];
      var reaped := Reap(slot, now);
      var result := FailWork(state.modules, slot, id, terminal, now);
      var failure :=
        if id !in reaped.claimed then []
        else
          var item := reaped.claimed[id];
          [WorkFailed(id, item.unit, if reason == "" then "failed" else reason,
                      terminal || item.attempt >= slot.maxAttempts, item.attempt)];
      (Update(state, runId, result.0, ReapEvents(slot, order) + failure + StallEvents(slot, result.0)), result.1)
  }

  function LogOf(state: State, runId: string): RunLog
    requires runId in state.runs
  {
    RunLog(state.runs[runId], DerivationsOf(state.derivations, runId))
  }

  function DerivationsOf(ds: seq<Derivation>, runId: string): seq<Derivation> {
    if ds == [] then []
    else
      var last := ds[|ds| - 1];
      DerivationsOf(ds[..|ds| - 1], runId) + if last.work.run == runId then [last] else []
  }

  function CommitWork(state: State, runId: string, id: WorkId, nodeId: string, outputs: seq<NamedArtifact>, now: int,
                      order: seq<WorkId>)
    : (State, Option<KernelError>)
  {
    if RunFault(state, runId).Some? then (state, RunFault(state, runId))
    else
      var slot := state.runs[runId];
      var reaped := Reap(slot, now);
      var result := Commit(WorldOf(state), LogOf(state, runId), id, nodeId, outputs, now);
      if result.1.Some? || id !in reaped.claimed then
        (Update(state, runId, result.0.slot, ReapEvents(slot, order)), result.1)
      else
        var d := DerivationOf(reaped.claimed[id], outputs);
        (Update(state, runId, result.0.slot,
                ReapEvents(slot, order) + [DerivationCommitted(d), RunUpdated(result.0.slot.run)])
           .(derivations := state.derivations + [d]), None)
  }

  function CancelRun(state: State, runId: string): (State, Option<KernelError>) {
    if RunFault(state, runId).Some? then (state, RunFault(state, runId))
    else
      var slot := Cancel(state.runs[runId]);
      (Update(state, runId, slot, [RunUpdated(slot.run)]), None)
  }

  // ---------------------------------------------------------------- any call

  datatype Call =
    | CRegister(manifest: ModuleManifest)
    | CTransition(name: string, to: Lifecycle)
    | CPutContract(contract: Contract)
    | CPutArtifact(traits: map<string, Trait>, about: seq<string>)
    | CPutBlob(namespace: string, data: Bytes)
    | CPublish(topic: string, event: Bytes)
    | CAppend(payload: Payload)
    | CStart(request: RunRequest)
    | CInject(runId: string, input: NamedArtifact)
    | CClaim(claim: ClaimRequest, now: int, order: seq<WorkId>)
    | CHeartbeat(runId: string, ids: seq<WorkId>, extend: nat, now: int, order: seq<WorkId>)
    | CFail(runId: string, work: WorkId, reason: string, terminal: bool, now: int, order: seq<WorkId>)
    | CCommit(runId: string, work: WorkId, nodeId: string, outputs: seq<NamedArtifact>, now: int, order: seq<WorkId>)
    | CCancel(runId: string)

  /** The frozen parameters of a kernel. */
  datatype Config = Config(hashes: Hashes, policy: StorePolicy)

  ghost function Do(config: Config, state: State, call: Call): State {
    match call
    case CRegister(manifest) => Register(config.hashes, state, manifest)
    case CTransition(name, to) => Transition(state, name, to).0
    case CPutContract(contract) => PutContract(config.hashes, state, contract).0
    case CPutArtifact(traits, about) => PutArtifact(config.hashes, config.policy, state, traits, about).0
    case CPutBlob(namespace, data) => PutBlob(config.hashes, config.policy, state, namespace, data).0
    case CPublish(topic, event) => state.(ledger := state.ledger + [EventPublished(topic, event)])
    case CAppend(payload) => state.(ledger := state.ledger + [payload])
    case CStart(request) => StartRun(state, request).0
    case CInject(runId, input) => InjectInput(state, runId, input).0
    case CClaim(claim, now, order) => Claim(state, claim, now, order).0
    case CHeartbeat(runId, ids, extend, now, order) => Beat(state, runId, ids, extend, now, order).0
    case CFail(runId, work, reason, terminal, now, order) => Fail(state, runId, work, reason, terminal, now, order).0
    case CCommit(runId, work, nodeId, outputs, now, order) =>
      CommitWork(state, runId, work, nodeId, outputs, now, order).0
    case CCancel(runId) => CancelRun(state, runId).0
  }

  /** `order` walks exactly the leases the call reaps, each once. */
  ghost predicate Proper(state: State, call: Call) {
    match call
    case CClaim(claim, now, order) =>
      claim.runId in state.runs ==> ExpiredOrder(state.runs[claim.runId], now, order)
    case CHeartbeat(runId, ids, extend, now, order) =>
      runId in state.runs ==>
        var slot := state.runs[runId];
        ExpiredOrder(RenewAll(slot, ids, LeaseEnd(now, if extend == 0 then slot.defaultLeaseMs else extend)),
                     now, order)
    case CFail(runId, _, _, _, now, order) => runId in state.runs ==> ExpiredOrder(state.runs[runId], now, order)
    case CCommit(runId, _, _, _, now, order) => runId in state.runs ==> ExpiredOrder(state.runs[runId], now, order)
    case _ => true
  }

  ghost function After(config: Config, calls: seq<Call>): State {
    if calls == [] then EmptyState else Do(config, After(config, calls[..|calls| - 1]), calls[|calls| - 1])
  }

  /** Every call in the history is proper where it is made. */
  ghost predicate History(config: Config, calls: seq<Call>) {
    calls == [] ||
    (History(config, calls[..|calls| - 1])
     && Proper(After(config, calls[..|calls| - 1]), calls[|calls| - 1]))
  }

  /** Modules append only entries of their own kinds. */
  ghost predicate Unforged(calls: seq<Call>) {
    forall i :: 0 <= i < |calls| && calls[i].CAppend? ==> calls[i].payload.Foreign?
  }
}
