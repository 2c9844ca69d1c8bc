/** Starting a run: which requests are accepted, what part of the assembly the run is
  * given, and what it is like when it starts. */
module Starts {
  import opened Base
  import opened Types
  import opened Scheduler
  import opened Assemblies
  import opened Kernel
  import opened Blueprints
  import opened Closing
  import opened Limits
  import opened Policies

  // ---------------------------------------------------------------- include_nodes

  /** The places of the nodes that are kept, in order. */
  ghost predicate Placed(nodes: seq<AssemblyNode>, only: seq<string>, kept: seq<AssemblyNode>, at: seq<nat>) {
    && |at| == |kept| && (forall i :: 0 <= i < |at| ==> at[i] < |nodes| && kept[i] == nodes[at[i]])
    && (forall i, j :: 0 <= i < j < |at| ==> at[i] < at[j])
    && (forall i :: 0 <= i < |at| ==> nodes[at[i]].id in only)
  }

  ghost predicate NoneMissed(nodes: seq<AssemblyNode>, only: seq<string>, at: seq<nat>) {
    forall k :: 0 <= k < |nodes| && nodes[k].id in only ==> k in at
  }

  /** They are all those that are asked for. */
  ghost predicate PlacesOf(nodes: seq<AssemblyNode>, only: seq<string>, kept: seq<AssemblyNode>, at: seq<nat>) {
    Placed(nodes, only, kept, at) && NoneMissed(nodes, only, at)
  }

  function Later(at: seq<nat>): (r: seq<nat>)
    ensures |r| == |at| && forall i :: 0 <= i < |r| ==> r[i] == at[i] + 1
  {
    seq(|at|, i requires 0 <= i < |at| => at[i] + 1)
  }

  lemma NextPassed(nodes: seq<AssemblyNode>, only: seq<string>, kept: seq<AssemblyNode>, at: seq<nat>)
    requires nodes != [] && Placed(nodes[1..], only, kept, at)
    ensures Placed(nodes, only, kept, Later(at))
  {
  }

  lemma NextKept(nodes: seq<AssemblyNode>, only: seq<string>, kept: seq<AssemblyNode>, at: seq<nat>)
    requires nodes != [] && Placed(nodes, only, kept, Later(at)) && nodes[0].id in only
    ensures Placed(nodes, only, [nodes[0]] + kept, [0] + Later(at))
  {
  }

  lemma NextNoneMissed(nodes: seq<AssemblyNode>, only: seq<string>, at: seq<nat>, at': seq<nat>)
    requires nodes != [] && NoneMissed(nodes[1..], only, at) && (at' == Later(at) || at' == [0] + Later(at))
    requires nodes[0].id in only ==> 0 in at'
    ensures NoneMissed(nodes, only, at')
  {
    forall k | 0 <= k < |nodes| && nodes[k].id in only
      ensures k in at'
    {
      if k > 0 {
        assert nodes[1..][k - 1] == nodes[k];
        var i :| 0 <= i < |at| && at[i] == k - 1;
        assert at'[i + |at'| - |at|] == k;
      }
    }
  }

  lemma {:induction false} KeptPlaces(nodes: seq<AssemblyNode>, only: seq<string>) returns (at: seq<nat>)
    ensures PlacesOf(nodes, only, KeepNodes(nodes, only), at)
  {
    if nodes == [] {
      at := [];
    } else {
      hide Placed, NoneMissed;
      var rest := KeptPlaces(nodes[1..], only);
      NextPassed(nodes, only, KeepNodes(nodes[1..], only), rest);
      if nodes[0].id in only {
        NextKept(nodes, only, KeepNodes(nodes[1..], only), rest);
      }
      at := if nodes[0].id in only then [0] + Later(rest) else Later(rest);
      assert nodes[0].id in only ==> at[0] == 0;
      NextNoneMissed(nodes, only, rest, at);
    }
  }

  /** A list of node ids that a run can be restricted to: each once, each in the
    * assembly, the terminal's node among them. */
  ghost predicate Selects(assembly: Assembly, only: seq<string>) {
    && (forall i, j :: 0 <= i < j < |only| ==> only[i] != only[j])
    && (forall i :: 0 <= i < |only| ==> exists k :: 0 <= k < |assembly.nodes| && assembly.nodes[k].id == only[i])
    && assembly.terminal.Some? && exists i :: 0 <= i < |only| && only[i] == assembly.terminal.value.node
  }

  /** What a run restricted to some nodes is given: those nodes, in order, and the
    * bindings to them that read a run input or one of them. */
  ghost predicate RestrictedTo(assembly: Assembly, only: seq<string>, part: Assembly) {
    && part.id == assembly.id && part.terminal == assembly.terminal
    && (exists at :: PlacesOf(assembly.nodes, only, part.nodes, at))
    && forall b :: b in part.bindings
         <==> b in assembly.bindings && b.toNode in only && (b.input != "" || b.fromNode in only)
  }

  /** Without a list of nodes the run is given the assembly; with one, the part on these
    * nodes, unless the list does not fit. */
  lemma RestrictionIs(assembly: Assembly, only: seq<string>)
    ensures only == [] ==> Materialize(assembly, only) == Some(assembly)
    ensures only != [] ==> (Materialize(assembly, only).Some? <==> Selects(assembly, only))
    ensures only != [] && Selects(assembly, only) ==>
      RestrictedTo(assembly, only, Materialize(assembly, only).value)
  {
    forall i | 0 <= i < |only|
      ensures FindNode(assembly.nodes, only[i]).Some?
         <==> exists k :: 0 <= k < |assembly.nodes| && assembly.nodes[k].id == only[i]
    {
    }
    var at := KeptPlaces(assembly.nodes, only);
  }

  // ---------------------------------------------------------------- accepted or refused

  ghost predicate Restrictable(req: RunRequest) {
    req.assembly.Some? && (req.includeNodes == [] || Selects(req.assembly.value, req.includeNodes))
  }

  /** Exactly which requests start a run, and when a request conflicts. */
  lemma StartAcceptedIff(state: State, req: RunRequest)
    ensures StartRun(state, req).1.None?
       <==> req.id != "" && req.id !in state.runs && Restrictable(req)
            && var part := Materialize(req.assembly.value, req.includeNodes);
               part.Some? && Acceptable(WorldOf(state), part.value, req.inputs) && Acyclic(part.value.bindings)
    ensures StartRun(state, req).1 == Some(Conflict) <==> req.id != "" && req.id in state.runs
    ensures StartRun(state, req).1.Some? ==> StartRun(state, req).0 == state
  {
    hide Acceptable, Acyclic, Materialize, Selects, ValidAssembly;
    if req.assembly.Some? {
      RestrictionIs(req.assembly.value, req.includeNodes);
      if Materialize(req.assembly.value, req.includeNodes).Some? {
        var part := Materialize(req.assembly.value, req.includeNodes).value;
        AcceptableIff(WorldOf(state), part, req.inputs);
        FaultIsNoConflict(WorldOf(state), part, req.inputs);
      }
    }
  }

  lemma FaultIsNoConflict(world: World, assembly: Assembly, inputs: seq<NamedArtifact>)
    ensures AssemblyFault(world, assembly, inputs) != Some(Conflict)
  {
    hide GraphValid, ValidAssembly;
  }

  /** A run as it starts: nothing done, counted, answered or claimed, every input in its
    * first generation, and everything else as asked for. */
  ghost predicate AtStart(req: RunRequest, slot: RunSlot) {
    && slot.run.id == req.id && slot.run.inputs == req.inputs && slot.run.policy == req.policy
    && slot.run.state == Running && slot.run.answer == None && slot.run.steps == 0 && slot.run.reason == ""
    && slot.claimed == map[] && slot.latest == map[] && slot.doneUnits == {} && slot.claimAttempts == map[]
    && slot.nodeCommits == map[]
    && (forall name :: name in slot.inputEpochs <==> exists i :: 0 <= i < |req.inputs| && req.inputs[i].name == name)
    && (forall name :: name in slot.inputEpochs ==> slot.inputEpochs[name] == 0)
    && AsAsked(req, slot)
  }

  lemma StartedAtStart(state: State, req: RunRequest)
    requires StartRun(state, req).1.None?
    ensures var state' := StartRun(state, req).0;
      && req.id in state'.runs && AtStart(req, state'.runs[req.id])
      && Materialize(req.assembly.value, req.includeNodes) == Some(state'.runs[req.id].run.assembly)
      && forall r :: r in state.runs ==> r in state'.runs && state'.runs[r] == state.runs[r]
  {
    hide AssemblyFault, Materialize;
  }

  // ---------------------------------------------------------------- streams

  lemma StreamIsOpen(policy: PipelinePolicy, runId: string, assembly: Assembly, inputs: seq<NamedArtifact>, run: Run)
    requires policy.mode in {Stream, DedupeStream, Manual(Open)}
    requires run.policy == RequestFor(policy, runId, assembly, inputs).policy
    ensures AskedOpen(run)
  {
  }

  /** A pipeline that a host starts in a stream mode is closed by nothing but its step
    * limit or a cancellation, in any history: neither by answers nor by idling. */
  lemma StreamsStayOpen(config: Config, calls: seq<Call>, k: nat, policy: PipelinePolicy, runId: string,
                        assembly: Assembly, inputs: seq<NamedArtifact>)
    requires Starts(config, calls, k) && calls[k].request == RequestFor(policy, runId, assembly, inputs)
    requires policy.mode in {Stream, DedupeStream, Manual(Open)}
    ensures runId in After(config, calls).runs
    ensures After(config, calls).runs[runId].run.state in {Running, RunState.Failed, Cancelled}
  {
    FrozenAsAsked(config, calls, k);
    StreamIsOpen(policy, runId, assembly, inputs, After(config, calls).runs[runId].run);
    OpenRunsStayOpen(config, calls, runId);
  }
}
