/** The scheduler of one run: which units are ready, what a claim, heartbeat,
  * failure, expiry, commit, injection and cancellation do to its slot.
  *
  * Everything here is a function of the slot; class `MemoryKernel` is proved to
  * compute these functions in place, and modules `Safety` to `NoStall` prove
  * what the functions promise. */
module Scheduler {
  import opened Base
  import opened Types
  import opened Strings

  /** What a run sees of the rest of the kernel: the registered modules and,
    * for every stored artifact, the contract refs of its traits. */
  datatype World = World(modules: seq<ModuleSlot>, traits: map<string, set<string>>)

  /** A run together with the derivations it has committed, in commit order. */
  datatype RunLog = RunLog(slot: RunSlot, derivations: seq<Derivation>)

  datatype KernelError = NotFound | Invalid | Conflict | RunClosed(state: RunState)

  // ---------------------------------------------------------------- lookup

  function Offering(capabilities: seq<Capability>, name: string): seq<Capability> {
    if capabilities == [] then []
    else if capabilities[0].name == name then [capabilities[0]] + Offering(capabilities[1..], name)
    else Offering(capabilities[1..], name)
  }

  function Providers(modules: seq<ModuleSlot>, node: AssemblyNode): seq<Capability> {
    if modules == [] then []
    else
      var manifest := modules[0].manifest;
      (if manifest.name == node.mod && manifest.version == node.version
       then Offering(manifest.capabilities, node.capability) else [])
      + Providers(modules[1..], node)
  }

  /** The one capability at the node's exact coordinate; none when nobody
    * provides it and none when it is provided more than once. */
  function CapabilityFor(modules: seq<ModuleSlot>, node: AssemblyNode): Option<Capability> {
    var found := Providers(modules, node);
    if |found| == 1 then Some(found[0]) else None
  }

  // ---------------------------------------------------------------- readiness

  function ResolveBinding(inputs: seq<NamedArtifact>, latest: map<string, Derivation>, b: Binding): Option<string> {
    if b.input != "" then ArtifactNamed(inputs, b.input)
    else if b.fromNode in latest then ArtifactNamed(latest[b.fromNode].outputs, b.fromPort)
    else None
  }

  /** One input per binding, in binding order; none as soon as one is missing. */
  function ResolveAll(inputs: seq<NamedArtifact>, latest: map<string, Derivation>, bs: seq<Binding>)
    : (r: Option<seq<NamedArtifact>>)
    ensures r.Some? <==> forall i :: 0 <= i < |bs| ==> ResolveBinding(inputs, latest, bs[i]).Some?
    ensures r.Some? ==> |r.value| == |bs|
    ensures r.Some? ==> forall i :: 0 <= i < |bs| ==>
      r.value[i] == NamedArtifact(bs[i].toPort, ResolveBinding(inputs, latest, bs[i]))
  {
    if bs == [] then Some([])
    else
      var first := ResolveBinding(inputs, latest, bs[0]);
      var rest := ResolveAll(inputs, latest, bs[1..]);
      if first.None? || rest.None? then None
      else Some([NamedArtifact(bs[0].toPort, first)] + rest.value)
  }

  function BoundTo(slot: RunSlot, node: AssemblyNode): seq<Binding> {
    BindingsTo(slot.run.assembly.bindings, node.id)
  }

  function ResolveInputs(slot: RunSlot, node: AssemblyNode): Option<seq<NamedArtifact>> {
    ResolveAll(slot.run.inputs, slot.latest, BoundTo(slot, node))
  }

  predicate IsOpen(run: Run) {
    run.policy.Some? && run.policy.value.closure == Open
  }

  function EffectiveFiring(policy: Option<ExecutionPolicy>, node: string, cap: Capability): (f: Firing)
    ensures f != FiringUnspecified
  {
    if policy.Some? && node in policy.value.byNode && policy.value.byNode[node] != FiringUnspecified then
      policy.value.byNode[node]
    else if cap.firing != FiringUnspecified then cap.firing
    else if policy.Some? && policy.value.default != FiringUnspecified then policy.value.default
    else Once
  }

  predicate IsKeyPort(ports: seq<Port>, name: string) {
    (forall i :: 0 <= i < |ports| ==> !ports[i].key)
    || exists i :: 0 <= i < |ports| && ports[i].key && ports[i].name == name
  }

  function KeyPairs(ports: seq<Port>, inputs: seq<NamedArtifact>): seq<(string, string)> {
    if inputs == [] then []
    else if inputs[0].artifact.Some? && IsKeyPort(ports, inputs[0].name) then
      [(inputs[0].name, inputs[0].artifact.value)] + KeyPairs(ports, inputs[1..])
    else KeyPairs(ports, inputs[1..])
  }

  /** How often the source of a binding has delivered. */
  function Generation(slot: RunSlot, b: Binding): nat {
    if b.input != "" then Lookup(slot.inputEpochs, b.input, 0)
    else Lookup(slot.nodeCommits, b.fromNode, 0)
  }

  function DeliveryRows(slot: RunSlot, bs: seq<Binding>, inputs: seq<NamedArtifact>): (r: Option<seq<Row>>)
    ensures r.Some? ==> |r.value| == |bs|
    ensures r.Some? ==> forall i :: 0 <= i < |bs| ==>
      r.value[i].port == bs[i].toPort && r.value[i].generation == Generation(slot, bs[i])
    ensures r.Some? <==> forall i :: 0 <= i < |bs| ==> ArtifactNamed(inputs, bs[i].toPort).Some?
  {
    if bs == [] then Some([])
    else
      var id := ArtifactNamed(inputs, bs[0].toPort);
      var rest := DeliveryRows(slot, bs[1..], inputs);
      if id.None? || rest.None? then None
      else Some([Row(bs[0].toPort, id.value, Generation(slot, bs[0]))] + rest.value)
  }

  function UnitKeyOf(slot: RunSlot, node: AssemblyNode, cap: Capability,
                     inputs: seq<NamedArtifact>): (r: Option<UnitKey>)
    ensures r.Some? ==> r.value.node == node.id
  {
    match EffectiveFiring(slot.run.policy, node.id, cap)
    case Always =>
      var rows := DeliveryRows(slot, BoundTo(slot, node), inputs);
      if rows.None? then None else Some(DeliveryUnit(node.id, SortRows(rows.value)))
    case OncePerKey => Some(KeyedUnit(node.id, SortPairs(KeyPairs(cap.inputs, inputs))))
    case _ => Some(OnceUnit(node.id))
  }

  /** A unit a claim may hand out. */
  datatype Candidate = Candidate(node: AssemblyNode, inputs: seq<NamedArtifact>, unit: UnitKey)

  /** The unit the node's bound inputs currently denote, done or not. */
  function CurrentUnit(modules: seq<ModuleSlot>, slot: RunSlot, node: AssemblyNode): (r: Option<Candidate>)
    ensures r.Some? ==> r.value.node == node && r.value.unit.node == node.id
    ensures r.Some? ==> ResolveInputs(slot, node) == Some(r.value.inputs)
    ensures r.Some? ==> CapabilityFor(modules, node).Some?
  {
    var inputs := ResolveInputs(slot, node);
    var cap := CapabilityFor(modules, node);
    if inputs.None? || cap.None? then None
    else
      var unit := UnitKeyOf(slot, node, cap.value, inputs.value);
      if unit.None? then None else Some(Candidate(node, inputs.value, unit.value))
  }

  predicate IsClaimed(slot: RunSlot, unit: UnitKey) {
    exists id :: id in slot.claimed && slot.claimed[id].unit == unit
  }

  function ReadyUnit(modules: seq<ModuleSlot>, slot: RunSlot, node: AssemblyNode): (r: Option<Candidate>)
    ensures r.Some? ==> r.value.node == node && r.value.unit.node == node.id
  {
    var current := CurrentUnit(modules, slot, node);
    if current.None? || current.value.unit in slot.doneUnits || IsClaimed(slot, current.value.unit) then None
    else current
  }

  predicate AnyReady(modules: seq<ModuleSlot>, slot: RunSlot) {
    exists i :: 0 <= i < |slot.run.assembly.nodes|
      && ReadyUnit(modules, slot, slot.run.assembly.nodes[i]).Some?
  }

  // ---------------------------------------------------------------- leases

  const I64_MAX: int := 0x7FFF_FFFF_FFFF_FFFF
  const I64_MIN: int := -0x8000_0000_0000_0000

  /** `u64 as i64`: the upper half of the range wraps to negative values. */
  function AsI64(n: nat): int {
    if n <= I64_MAX then n else n - 0x1_0000_0000_0000_0000
  }

  function LeaseEnd(now: int, lease: nat): int {
    var sum := now + AsI64(lease);
    if sum > I64_MAX then I64_MAX else if sum < I64_MIN then I64_MIN else sum
  }

  predicate Expired(item: WorkItem, now: int) {
    item.leaseUntil > 0 && item.leaseUntil <= now
  }

  // ---------------------------------------------------------------- moves

  function Take(slot: RunSlot, c: Candidate, now: int): RunSlot {
    var attempt := Lookup(slot.claimAttempts, c.unit, 0) + 1;
    var id := WorkId(slot.run.id, c.unit);
    var item := WorkItem(id, c.node, c.inputs, c.unit, attempt, LeaseEnd(now, slot.defaultLeaseMs));
    slot.(claimAttempts := slot.claimAttempts[c.unit := attempt], claimed := slot.claimed[id := item])
  }

  function Renew(slot: RunSlot, id: WorkId, until: int): RunSlot
    requires id in slot.claimed
  {
    slot.(claimed := slot.claimed[id := slot.claimed[id].(leaseUntil := until)])
  }

  /** Give a unit up: it is done when the caller says so or when its attempts
    * are used up, and returns to the ready units otherwise. */
  function Drop(slot: RunSlot, id: WorkId, terminal: bool): RunSlot
    requires id in slot.claimed
  {
    var item := slot.claimed[id];
    slot.(
      claimed := slot.claimed - {id},
      doneUnits := if terminal || item.attempt >= slot.maxAttempts
                   then slot.doneUnits + {item.unit} else slot.doneUnits)
  }

  const STALL_REASON := "no node is ready and no work is in flight"
  const STEPS_REASON := "max_steps exhausted before the terminal output"

  function Stall(slot: RunSlot): RunSlot {
    slot.(run := slot.run.(state := Stalled, reason := STALL_REASON))
  }

  function Cancel(slot: RunSlot): RunSlot {
    slot.(run := slot.run.(state := Cancelled, reason := "cancelled"), claimed := map[])
  }

  function Replace(inputs: seq<NamedArtifact>, input: NamedArtifact): seq<NamedArtifact> {
    if inputs == [] then [input]
    else if inputs[0].name == input.name then [input] + inputs[1..]
    else [inputs[0]] + Replace(inputs[1..], input)
  }

  function Inject(slot: RunSlot, input: NamedArtifact): RunSlot {
    slot.(
      run := slot.run.(inputs := Replace(slot.run.inputs, input)),
      inputEpochs := slot.inputEpochs[input.name := SaturatingSucc(Lookup(slot.inputEpochs, input.name, 0))])
  }

  /** The run after a commit by `node`, before the stall check. */
  function Advance(run: Run, node: string, outputs: seq<NamedArtifact>): Run {
    var stepped := run.(steps := run.steps + 1);
    var terminal := run.assembly.terminal;
    var answer := if terminal.Some? && terminal.value.node == node
                  then ArtifactNamed(outputs, terminal.value.port) else None;
    var answered := if answer.Some? then stepped.(answer := answer) else stepped;
    if answer.Some? && !IsOpen(run) then answered.(state := Completed)
    else if stepped.steps >= run.maxSteps then answered.(state := Failed, reason := STEPS_REASON)
    else answered
  }

  function DerivationOf(item: WorkItem, outputs: seq<NamedArtifact>): Derivation {
    Derivation(item.id, item.node, item.inputs, outputs)
  }

  function CommitUnit(log: RunLog, id: WorkId, outputs: seq<NamedArtifact>): RunLog
    requires id in log.slot.claimed
  {
    var slot := log.slot;
    var item := slot.claimed[id];
    var d := DerivationOf(item, outputs);
    var node := item.node.id;
    RunLog(
      slot.(
        claimed := slot.claimed - {id},
        doneUnits := slot.doneUnits + {item.unit},
        latest := slot.latest[node := d],
        nodeCommits := slot.nodeCommits[node := Lookup(slot.nodeCommits, node, 0) + 1],
        run := Advance(slot.run, node, outputs)),
      log.derivations + [d])
  }

  // ---------------------------------------------------------------- calls

  datatype ClaimRequest = ClaimRequest(
    runId: string, mod: string, modules: seq<string>, nodeIds: seq<string>, maxItems: nat)

  predicate MatchesFilter(req: ClaimRequest, node: AssemblyNode) {
    && (req.mod != "" ==> node.mod == req.mod)
    && (req.modules != [] ==> node.mod in req.modules)
    && (req.nodeIds != [] ==> node.id in req.nodeIds)
  }

  /** Room for further claims: unbounded when no limit was frozen. */
  function WantedItems(slot: RunSlot, maxItems: nat): nat {
    var items := if maxItems == 0 then 1 else maxItems;
    if slot.maxInFlight == 0 then items
    else if slot.maxInFlight <= |slot.claimed| then 0
    else Min(items, slot.maxInFlight - |slot.claimed|)
  }

  function Candidates(modules: seq<ModuleSlot>, slot: RunSlot, req: ClaimRequest,
                      nodes: seq<AssemblyNode>): (r: seq<Candidate>)
    ensures forall i :: 0 <= i < |r| ==> r[i].node in nodes && r[i].unit.node == r[i].node.id
  {
    if nodes == [] then []
    else
      var rest := Candidates(modules, slot, req, nodes[1..]);
      var unit := ReadyUnit(modules, slot, nodes[0]);
      if MatchesFilter(req, nodes[0]) && unit.Some? then [unit.value] + rest else rest
  }

  function TakeAll(slot: RunSlot, cs: seq<Candidate>, now: int): RunSlot
    decreases |cs|
  {
    if cs == [] then slot else TakeAll(Take(slot, cs[0], now), cs[1..], now)
  }

  /** The work items handed out by `TakeAll`, as the claimer sees them. */
  function TakenItems(slot: RunSlot, cs: seq<Candidate>, now: int): (r: seq<WorkItem>)
    ensures |r| == |cs|
    decreases |cs|
  {
    if cs == [] then []
    else
      var slot' := Take(slot, cs[0], now);
      [slot'.claimed[WorkId(slot.run.id, cs[0].unit)]] + TakenItems(slot', cs[1..], now)
  }

  /** Expired leases go back in one sweep; the order does not matter. */
  function Reap(slot: RunSlot, now: int): RunSlot {
    slot.(
      claimed := map id | id in slot.claimed && !Expired(slot.claimed[id], now) :: slot.claimed[id],
      doneUnits := slot.doneUnits
        + set id | id in slot.claimed && Expired(slot.claimed[id], now)
                   && slot.claimed[id].attempt >= slot.maxAttempts :: slot.claimed[id].unit)
  }

  function ChosenFor(modules: seq<ModuleSlot>, slot: RunSlot, req: ClaimRequest): seq<Candidate> {
    var want := WantedItems(slot, req.maxItems);
    var cs := Candidates(modules, slot, req, slot.run.assembly.nodes);
    cs[..Min(want, |cs|)]
  }

  predicate ShouldStall(modules: seq<ModuleSlot>, slot: RunSlot) {
    slot.run.state == Running && !IsOpen(slot.run) && slot.claimed == map[] && !AnyReady(modules, slot)
  }

  function StallIfIdle(modules: seq<ModuleSlot>, slot: RunSlot): RunSlot {
    if ShouldStall(modules, slot) then Stall(slot) else slot
  }

  function ClaimReady(modules: seq<ModuleSlot>, slot: RunSlot, req: ClaimRequest, now: int): RunSlot {
    var reaped := Reap(slot, now);
    var chosen := ChosenFor(modules, reaped, req);
    if chosen == [] then StallIfIdle(modules, reaped) else TakeAll(reaped, chosen, now)
  }

  function RenewAll(slot: RunSlot, ids: seq<WorkId>, until: int): RunSlot
    decreases |ids|
  {
    if ids == [] then slot
    else RenewAll(if ids[0] in slot.claimed then Renew(slot, ids[0], until) else slot, ids[1..], until)
  }

  /** Renews first, then reaps what is still overdue. */
  function Heartbeat(slot: RunSlot, ids: seq<WorkId>, extend: nat, now: int): RunSlot {
    Reap(RenewAll(slot, ids, LeaseEnd(now, if extend == 0 then slot.defaultLeaseMs else extend)), now)
  }

  function FailWork(modules: seq<ModuleSlot>, slot: RunSlot, id: WorkId, terminal: bool, now: int): (RunSlot,
                    Option<KernelError>) {
    var reaped := Reap(slot, now);
    if id !in reaped.claimed then (reaped, Some(Conflict))
    else (StallIfIdle(modules, Drop(reaped, id, terminal)), None)
  }

  function CountNamed(items: seq<NamedArtifact>, name: string): nat {
    if items == [] then 0 else (if items[0].name == name then 1 else 0) + CountNamed(items[1..], name)
  }

  predicate ArityFits(ports: seq<Port>, outputs: seq<NamedArtifact>) {
    forall i :: 0 <= i < |ports| ==>
      var n := CountNamed(outputs, ports[i].name);
      (n == 0 ==> ports[i].optional) && (n > 1 ==> ports[i].multiple)
  }

  predicate Carries(traits: map<string, set<string>>, artifact: string, needed: seq<string>) {
    artifact in traits && forall i :: 0 <= i < |needed| ==> needed[i] in traits[artifact]
  }

  /** A named artifact that is stored and carries what its port promises. */
  predicate FitsPort(traits: map<string, set<string>>, ports: seq<Port>, o: NamedArtifact) {
    var p := FindPort(ports, o.name);
    p.Some? && o.artifact.Some? && Carries(traits, o.artifact.value, p.value.traits)
  }

  function OutputFault(traits: map<string, set<string>>, cap: Capability,
                       outputs: seq<NamedArtifact>): (r: Option<KernelError>)
    ensures r.None? <==> forall i :: 0 <= i < |outputs| ==> FitsPort(traits, cap.outputs, outputs[i])
  {
    if outputs == [] then None
    else if FitsPort(traits, cap.outputs, outputs[0]) then OutputFault(traits, cap, outputs[1..])
    else if FindPort(cap.outputs, outputs[0].name).Some? && outputs[0].artifact.Some?
            && outputs[0].artifact.value !in traits then Some(NotFound)
    else Some(Invalid)
  }

  function CommitFault(world: World, slot: RunSlot, id: WorkId, nodeId: string,
                       outputs: seq<NamedArtifact>): Option<KernelError> {
    if id !in slot.claimed then Some(Conflict)
    else
      var item := slot.claimed[id];
      var cap := CapabilityFor(world.modules, item.node);
      if nodeId != "" && nodeId != item.node.id then Some(Invalid)
      else if slot.run.steps >= slot.run.maxSteps then Some(RunClosed(Failed))
      else if cap.None? then Some(Invalid)
      else if !ArityFits(cap.value.outputs, outputs) then Some(Invalid)
      else OutputFault(world.traits, cap.value, outputs)
  }

  /** A refused commit still keeps what the reaping before it did. */
  function Commit(world: World, log: RunLog, id: WorkId, nodeId: string, outputs: seq<NamedArtifact>, now: int)
    : (RunLog, Option<KernelError>)
  {
    var reaped := log.(slot := Reap(log.slot, now));
    var fault := CommitFault(world, reaped.slot, id, nodeId, outputs);
    if fault.Some? then (reaped, fault)
    else
      var committed := CommitUnit(reaped, id, outputs);
      (committed.(slot := StallIfIdle(world.modules, committed.slot)), None)
  }
}
