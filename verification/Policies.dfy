/** Framework policies: how a pipeline's mode, firing plan and limits become what
  * the kernel is asked for. */
module Policies {
  import opened Base
  import opened Types
  import opened Scheduler
  import opened Kernel

  datatype MemoNodes = AllNodes | OnlyNodes(ids: seq<string>) | ExceptNodes(ids: seq<string>)

  /** The part of a framework policy the drive loop reads. */
  datatype HostPolicy = HostPolicy(
    concurrency: nat, claimBatch: Option<nat>, claimModules: Option<seq<string>>,
    memoEnabled: bool, memoNodes: MemoNodes)

  predicate Allows(nodes: MemoNodes, id: string) {
    match nodes
    case AllNodes => true
    case OnlyNodes(ids) => id in ids
    case ExceptNodes(ids) => id !in ids
  }

  function AtLeastOne(n: nat): nat {
    if n == 0 then 1 else n
  }

  function Concurrency(policy: HostPolicy): nat {
    AtLeastOne(policy.concurrency)
  }

  /** Items per claim while driving until idle. */
  function Batch(policy: HostPolicy): nat {
    Min(if policy.claimBatch.Some? then AtLeastOne(policy.claimBatch.value) else Concurrency(policy),
        Concurrency(policy))
  }

  datatype RunMode = Converge | Stream | DedupeStream | Selective | Manual(closure: Closure)

  datatype FiringPlan =
    | CapabilityDefaults
    | AllFire(firing: Firing)
    | Mapped(default: Firing, byNode: map<string, Firing>)

  /** A framework policy, but for its node plan, which the host carries out itself. */
  datatype PipelinePolicy = PipelinePolicy(
    mode: RunMode, firing: FiringPlan, maxSteps: Option<nat>, leaseMs: Option<nat>, maxAttempts: Option<nat>,
    host: HostPolicy)

  function ClosureFor(mode: RunMode): Closure {
    match mode
    case Manual(closure) => closure
    case Stream => Open
    case DedupeStream => Open
    case _ => FirstTerminal
  }

  const OPEN_STEPS_PER_NODE: nat := 10000

  /** Zero has the kernel take the number of nodes. */
  function StepsFor(policy: PipelinePolicy, nodes: nat): nat {
    if policy.maxSteps.Some? then policy.maxSteps.value
    else if ClosureFor(policy.mode) == Open then
      var product := Min(nodes * OPEN_STEPS_PER_NODE, U64_MAX);
      if product < OPEN_STEPS_PER_NODE then OPEN_STEPS_PER_NODE else product
    else 0
  }

  function Pinned(nodes: seq<AssemblyNode>, firing: Firing): map<string, Firing> {
    map i | 0 <= i < |nodes| :: nodes[i].id := firing
  }

  function ExecutionFor(policy: PipelinePolicy, assembly: Assembly): ExecutionPolicy {
    match policy.firing
    case CapabilityDefaults => ExecutionPolicy(FiringUnspecified, map[], ClosureFor(policy.mode))
    case AllFire(f) => ExecutionPolicy(f, Pinned(assembly.nodes, f), ClosureFor(policy.mode))
    case Mapped(default, byNode) => ExecutionPolicy(default, byNode, ClosureFor(policy.mode))
  }

  /** What the kernel is asked for. */
  function RequestFor(policy: PipelinePolicy, runId: string, assembly: Assembly, inputs: seq<NamedArtifact>)
    : RunRequest
  {
    RunRequest(
      runId, Some(assembly), inputs,
      Some(Limits(StepsFor(policy, |assembly.nodes|), Concurrency(policy.host),
                  if policy.leaseMs.Some? then policy.leaseMs.value else 0,
                  if policy.maxAttempts.Some? then policy.maxAttempts.value else 0)),
      [], Some(ExecutionFor(policy, assembly)))
  }

  /** `execution_policy_for`: one firing for all nodes is pinned node by node. */
  method ExecutionPolicyFor(policy: PipelinePolicy, assembly: Assembly) returns (execution: ExecutionPolicy)
    ensures execution == ExecutionFor(policy, assembly)
  {
    match policy.firing {
      case CapabilityDefaults => execution := ExecutionPolicy(FiringUnspecified, map[], ClosureFor(policy.mode));
      case Mapped(default, byNode) => execution := ExecutionPolicy(default, byNode, ClosureFor(policy.mode));
      case AllFire(f) =>
        var byNode := map[];
        for i := 0 to |assembly.nodes|
          invariant byNode == Pinned(assembly.nodes[..i], f)
        {
          PinNext(assembly.nodes, i, f);
          byNode := byNode[assembly.nodes[i].id := f];
        }
        assert assembly.nodes[..|assembly.nodes|] == assembly.nodes;
        execution := ExecutionPolicy(f, byNode, ClosureFor(policy.mode));
    }
  }

  lemma PinNext(nodes: seq<AssemblyNode>, i: nat, f: Firing)
    requires i < |nodes|
    ensures Pinned(nodes[..i + 1], f) == Pinned(nodes[..i], f)[nodes[i].id := f]
  {
    var longer, shorter := nodes[..i + 1], nodes[..i];
    forall id
      ensures id in Pinned(longer, f) <==> id in Pinned(shorter, f) || id == nodes[i].id
    {
      if id in Pinned(shorter, f) {
        var j :| 0 <= j < |shorter| && shorter[j].id == id;
        assert longer[j].id == id;
      }
      assert longer[i].id == nodes[i].id;
    }
  }

  /** `apply_to_run_request`, for an assembly that is cut already. */
  method ApplyToRunRequest(policy: PipelinePolicy, runId: string, assembly: Assembly, inputs: seq<NamedArtifact>)
    returns (req: RunRequest)
    ensures req == RequestFor(policy, runId, assembly, inputs)
  {
    var execution := ExecutionPolicyFor(policy, assembly);
    var lease := if policy.leaseMs.Some? then policy.leaseMs.value else 0;
    var attempts := if policy.maxAttempts.Some? then policy.maxAttempts.value else 0;
    var limits := Limits(StepsFor(policy, |assembly.nodes|), Concurrency(policy.host), lease, attempts);
    return RunRequest(runId, Some(assembly), inputs, Some(limits), [], Some(execution));
  }

  // ---------------------------------------------------------------- what the plans mean

  /** What a capability fires as when nothing else is asked. */
  function Declared(cap: Capability): Firing {
    if cap.firing == FiringUnspecified then Once else cap.firing
  }

  /** One firing for all wins over what capabilities declare, on every node;
    * without a plan every node fires as its capability declares. */
  lemma PlanHolds(policy: PipelinePolicy, assembly: Assembly, n: AssemblyNode, cap: Capability)
    requires n in assembly.nodes
    ensures var fires := EffectiveFiring(Some(ExecutionFor(policy, assembly)), n.id, cap);
      && (policy.firing.CapabilityDefaults? ==> fires == Declared(cap))
      && (policy.firing.AllFire? && policy.firing.firing != FiringUnspecified ==> fires == policy.firing.firing)
  {
    var i :| 0 <= i < |assembly.nodes| && assembly.nodes[i] == n;
    if policy.firing.AllFire? {
      assert assembly.nodes[i].id in Pinned(assembly.nodes, policy.firing.firing);
    }
  }

  /** Why every node is pinned: a default alone is what a node fires as if and only
    * if its capability declares nothing else. */
  lemma DefaultAloneIff(f: Firing, closure: Closure, id: string, cap: Capability)
    requires f != FiringUnspecified
    ensures EffectiveFiring(Some(ExecutionPolicy(f, map[], closure)), id, cap) == f
       <==> cap.firing == FiringUnspecified || cap.firing == f
  {
  }

  /** Node by node firings win where they are given; elsewhere the capability's, if it
    * declares one, and the plan's default if it does not. */
  lemma MappingHolds(policy: PipelinePolicy, assembly: Assembly, id: string, cap: Capability)
    requires policy.firing.Mapped?
    ensures var fires := EffectiveFiring(Some(ExecutionFor(policy, assembly)), id, cap);
      var plan := policy.firing;
      && (id in plan.byNode && plan.byNode[id] != FiringUnspecified ==> fires == plan.byNode[id])
      && (id !in plan.byNode && cap.firing != FiringUnspecified ==> fires == cap.firing)
      && (id !in plan.byNode && cap.firing == FiringUnspecified && plan.default != FiringUnspecified ==>
            fires == plan.default)
  {
  }

  /** What a policy asks of the kernel: open runs exactly for streams, or when asked for
    * by hand; the steps it names, or ten thousand a node for an open run and the kernel's
    * own number for another; as many units in flight as it has workers, at least one; its
    * lease and attempts, or the kernel's; and the whole of the assembly it is given. */
  lemma AskedOfKernel(policy: PipelinePolicy, runId: string, assembly: Assembly, inputs: seq<NamedArtifact>)
    ensures var req := RequestFor(policy, runId, assembly, inputs);
      var nodes, open := |assembly.nodes|, policy.mode in {Stream, DedupeStream, Manual(Open)};
      && req.id == runId && req.assembly == Some(assembly) && req.inputs == inputs && req.includeNodes == []
      && req.policy.Some? && (req.policy.value.closure == Open <==> open)
      && (!policy.mode.Manual? && !open ==> req.policy.value.closure == FirstTerminal)
      && req.limits.Some?
      && (policy.maxSteps.Some? ==> req.limits.value.maxSteps == policy.maxSteps.value)
      && (policy.maxSteps.None? && !open ==> req.limits.value.maxSteps == 0)
      && (policy.maxSteps.None? && open && nodes > 0 && nodes * 10000 <= 0xFFFF_FFFF_FFFF_FFFF ==>
            req.limits.value.maxSteps == nodes * 10000)
      && (policy.maxSteps.None? && open && nodes == 0 ==> req.limits.value.maxSteps == 10000)
      && (policy.maxSteps.None? && open && nodes * 10000 > 0xFFFF_FFFF_FFFF_FFFF ==>
            req.limits.value.maxSteps == 0xFFFF_FFFF_FFFF_FFFF)
      && req.limits.value.maxInFlight >= 1
      && (policy.host.concurrency > 0 ==> req.limits.value.maxInFlight == policy.host.concurrency)
      && (policy.host.concurrency == 0 ==> req.limits.value.maxInFlight == 1)
      && (policy.leaseMs.Some? ==> req.limits.value.defaultLeaseMs == policy.leaseMs.value)
      && (policy.leaseMs.None? ==> req.limits.value.defaultLeaseMs == 0)
      && (policy.maxAttempts.Some? ==> req.limits.value.maxAttempts == policy.maxAttempts.value)
      && (policy.maxAttempts.None? ==> req.limits.value.maxAttempts == 0)
  {
  }

  /** How many items a wave asks for: no more than there are workers, no more than a batch
    * if one is given, at least one, and no fewer than that allows. */
  lemma BatchIsMost(policy: HostPolicy)
    ensures var fits := (n: nat) => n == 1 || (n <= policy.concurrency && (policy.claimBatch.Some? ==>
                                                 n <= policy.claimBatch.value));
      fits(Batch(policy)) && forall n: nat :: fits(n) ==> n <= Batch(policy)
  {
  }

  /** Which nodes a memo plan leaves in: all, those listed, or those not listed. */
  lemma AllowsIff(nodes: MemoNodes, id: string)
    ensures Allows(nodes, id) <==>
      || nodes.AllNodes?
      || (nodes.OnlyNodes? && exists i :: 0 <= i < |nodes.ids| && nodes.ids[i] == id)
      || (nodes.ExceptNodes? && forall i :: 0 <= i < |nodes.ids| ==> nodes.ids[i] != id)
  {
  }
}
