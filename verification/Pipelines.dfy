/** From a framework policy to a driven run: what the kernel accepts to start for
  * a converging policy, the drive loop completes. */
module Pipelines {
  import opened Base
  import opened Types
  import opened Scheduler
  import opened Safety
  import opened Assemblies
  import opened NoStall
  import opened Kernel
  import opened KernelRuns
  import opened Policies
  import opened Steps
  import opened Waves

  /** Converging, every node firing once, and steps for all of them. */
  ghost predicate Converges(policy: PipelinePolicy, world: World, assembly: Assembly) {
    && ClosureFor(policy.mode) != Open
    && (policy.maxSteps.None? || policy.maxSteps.value == 0 || |assembly.nodes| <= policy.maxSteps.value)
    && (policy.firing == AllFire(Once) || (policy.firing.CapabilityDefaults? && DeclaredOnce(world, assembly)))
  }

  ghost predicate DeclaredOnce(world: World, assembly: Assembly) {
    forall n :: n in assembly.nodes ==>
      CapabilityFor(world.modules, n).Some? ==> Declared(CapabilityFor(world.modules, n).value) == Once
  }

  lemma EachFiresOnce(policy: PipelinePolicy, world: World, assembly: Assembly, inputs: seq<NamedArtifact>, run: Run)
    requires Converges(policy, world, assembly) && WellBound(world, assembly, inputs)
    requires run.assembly == assembly && run.policy == Some(ExecutionFor(policy, assembly))
    ensures FiresOnce(world, run)
  {
    forall n | n in assembly.nodes
      ensures var cap := CapabilityFor(world.modules, n);
        cap.Some? && EffectiveFiring(run.policy, n.id, cap.value) == Once
    {
      var i :| 0 <= i < |assembly.nodes| && assembly.nodes[i] == n;
      assert NodeValid(world.modules, n);
      PlanHolds(policy, assembly, n, CapabilityFor(world.modules, n).value);
    }
  }

  /** The run the kernel starts for a converging policy is set to converge: with
    * no step limit asked for, it gets a step for each node. */
  lemma StartedConverging(policy: PipelinePolicy, state: State, runId: string, assembly: Assembly,
                          inputs: seq<NamedArtifact>)
    returns (rank: map<string, nat>)
    requires Converges(policy, WorldOf(state), assembly)
    requires StartFault(state, RequestFor(policy, runId, assembly, inputs)).None?
    ensures var slot := FreshSlot(RequestFor(policy, runId, assembly, inputs), assembly);
      Fresh(RunLog(slot, [])) && Setting(WorldOf(state), rank, slot)
  {
    var req := RequestFor(policy, runId, assembly, inputs);
    Startable(state, req);
    assert Materialize(assembly, []) == Some(assembly);
    rank :| IsRank(assembly.bindings, rank);
    EachFiresOnce(policy, WorldOf(state), assembly, inputs, FreshSlot(req, assembly).run);
  }

  /** The host's side: plugins it can rely on, and waves that take less than the
    * lease the policy asks for. */
  ghost predicate Equipped(s: Setup, t: Target, policy: PipelinePolicy, world: World, assembly: Assembly) {
    && s.policy == policy.host && t.base == world && AddressesHonest(t, world)
    && Reliable(t, s.plugins, s.accepts, assembly)
    && (s.policy.claimModules.None? || ClaimsAll(s, assembly))
    && Prompt(s.clock, Batch(s.policy),
              OrDefault(if policy.leaseMs.Some? then policy.leaseMs.value else 0, DEFAULT_LEASE_MS))
  }

  /** So what an equipped host has the kernel start is promising, and is driven to
    * completion. */
  lemma StartedPromising(s: Setup, t: Target, policy: PipelinePolicy, state: State, runId: string,
                         assembly: Assembly, inputs: seq<NamedArtifact>)
    returns (rank: map<string, nat>)
    requires Converges(policy, WorldOf(state), assembly) && Equipped(s, t, policy, WorldOf(state), assembly)
    requires StartFault(state, RequestFor(policy, runId, assembly, inputs)).None?
    ensures var state' := StartRun(state, RequestFor(policy, runId, assembly, inputs)).0;
      runId in state'.runs && Promising(s, t.(rank := rank), WorldOf(state'), state'.runs[runId])
  {
    hide Fresh, Setting, StartFault, Converges, Reliable, Prompt, AddressesHonest;
    rank := StartedConverging(policy, state, runId, assembly, inputs);
    var req := RequestFor(policy, runId, assembly, inputs);
    var slot := FreshSlot(req, assembly);
    SameSettled(s, t, rank, policy, state, slot, req);
    FreshPromising(s, t.(rank := rank), WorldOf(state), RunLog(slot, []));
    assert Materialize(assembly, []) == Some(assembly);
  }

  /** What is asked of the host's side does not depend on the rank. */
  lemma SameSettled(s: Setup, t: Target, rank: map<string, nat>, policy: PipelinePolicy, state: State, slot: RunSlot,
                    req: RunRequest)
    requires req.assembly.Some? && req == RequestFor(policy, req.id, req.assembly.value, req.inputs)
    requires slot == FreshSlot(req, req.assembly.value) && Equipped(s, t, policy, WorldOf(state), req.assembly.value)
    ensures Settled(s, t.(rank := rank), WorldOf(state), slot)
  {
  }
}
