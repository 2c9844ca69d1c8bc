/** The messages of the substrate contract that the run scheduler works on.
  *
  * Enumerations carry only their declared values; an `ArtifactRef` is its id;
  * wall-clock instants are integers in milliseconds. */
module Types {
  import opened Base

  datatype Firing = FiringUnspecified | Once | Always | OncePerKey

  datatype Closure = ClosureUnspecified | FirstTerminal | Open

  datatype Lifecycle = Registered | Loaded | Active | Deactivated

  datatype Port = Port(name: string, multiple: bool, optional: bool, key: bool, traits: seq<string>)

  datatype Capability = Capability(name: string, inputs: seq<Port>, outputs: seq<Port>, firing: Firing)

  datatype ModuleManifest = ModuleManifest(
    name: string, version: string, capabilities: seq<Capability>, needs: seq<string>)

  datatype ModuleSlot = ModuleSlot(manifest: ModuleManifest, lifecycle: Lifecycle)

  datatype NamedArtifact = NamedArtifact(name: string, artifact: Option<string>)

  datatype AssemblyNode = AssemblyNode(id: string, mod: string, version: string, capability: string)

  datatype Binding = Binding(toNode: string, toPort: string, fromNode: string, fromPort: string, input: string)

  datatype NodeOutput = NodeOutput(node: string, port: string)

  datatype Assembly = Assembly(
    id: string, nodes: seq<AssemblyNode>, bindings: seq<Binding>, terminal: Option<NodeOutput>)

  datatype ExecutionPolicy = ExecutionPolicy(default: Firing, byNode: map<string, Firing>, closure: Closure)

  datatype RunState = Running | Completed | Stalled | Failed | Cancelled

  datatype Run = Run(
    id: string,
    assembly: Assembly,
    inputs: seq<NamedArtifact>,
    state: RunState,
    answer: Option<string>,
    steps: nat,
    maxSteps: nat,
    reason: string,
    policy: Option<ExecutionPolicy>)

  /** One row of a delivery fingerprint: a bound port, the artifact on it and
    * the generation of its source. */
  datatype Row = Row(port: string, artifact: string, generation: nat)

  /** What the kernel schedules. The source keeps these as strings; module
    * `Naming` shows that the strings tell the same units apart. */
  datatype UnitKey =
    | OnceUnit(node: string)
    | KeyedUnit(node: string, pairs: seq<(string, string)>)
    | DeliveryUnit(node: string, rows: seq<Row>)

  /** A work id is made of the run id and the unit, so a reclaimed unit gets
    * the id it had before. */
  datatype WorkId = WorkId(run: string, unit: UnitKey)

  datatype WorkItem = WorkItem(
    id: WorkId,
    node: AssemblyNode,
    inputs: seq<NamedArtifact>,
    unit: UnitKey,
    attempt: nat,
    leaseUntil: int)

  /** A committed production path. Its id, a hash of the other fields, is left
    * to module `Naming`. */
  datatype Derivation = Derivation(
    work: WorkId,
    node: AssemblyNode,
    inputs: seq<NamedArtifact>,
    outputs: seq<NamedArtifact>)

  datatype RunSlot = RunSlot(
    run: Run,
    claimed: map<WorkId, WorkItem>,
    latest: map<string, Derivation>,
    doneUnits: set<UnitKey>,
    claimAttempts: map<UnitKey, nat>,
    inputEpochs: map<string, nat>,
    nodeCommits: map<string, nat>,
    maxInFlight: nat,
    defaultLeaseMs: nat,
    maxAttempts: nat)

  function FirstNamed(items: seq<NamedArtifact>, name: string): (r: Option<NamedArtifact>)
    ensures r.Some? ==> r.value in items && r.value.name == name
    ensures r.None? <==> forall i :: 0 <= i < |items| ==> items[i].name != name
  {
    if items == [] then None
    else if items[0].name == name then Some(items[0])
    else FirstNamed(items[1..], name)
  }

  /** The artifact of the first item with that name, if it has one. */
  function ArtifactNamed(items: seq<NamedArtifact>, name: string): (r: Option<string>) {
    var found := FirstNamed(items, name);
    if found.Some? then found.value.artifact else None
  }

  /** The two supply the same artifact on every port. */
  ghost predicate SamePorts(a: seq<NamedArtifact>, b: seq<NamedArtifact>) {
    forall port :: ArtifactNamed(a, port) == ArtifactNamed(b, port)
  }

  function FindPort(ports: seq<Port>, name: string): (r: Option<Port>)
    ensures r.Some? ==> r.value in ports && r.value.name == name
    ensures r.None? <==> forall i :: 0 <= i < |ports| ==> ports[i].name != name
  {
    if ports == [] then None
    else if ports[0].name == name then Some(ports[0])
    else FindPort(ports[1..], name)
  }

  function BindingsTo(bindings: seq<Binding>, node: string): (r: seq<Binding>)
    ensures forall b :: b in r <==> b in bindings && b.toNode == node
  {
    if bindings == [] then []
    else if bindings[0].toNode == node then [bindings[0]] + BindingsTo(bindings[1..], node)
    else BindingsTo(bindings[1..], node)
  }

  predicate DistinctNodeIds(nodes: seq<AssemblyNode>) {
    forall i, j :: 0 <= i < j < |nodes| ==> nodes[i].id != nodes[j].id
  }

  function NodeIds(nodes: seq<AssemblyNode>): set<string> {
    set i | 0 <= i < |nodes| :: nodes[i].id
  }
}
