/** Resuming after a node of a prior run: the new run is given the cut assembly,
  * the prior run's own inputs and its committed outputs as seeds. It answers
  * what the prior run's program answers, and the kernel does not refuse it. */
module Resumption {
  import opened Base
  import opened Types
  import opened Strings
  import opened Scheduler
  import opened Moves
  import opened Safety
  import opened Accounting
  import opened Assemblies
  import opened Evaluator
  import opened Convergence
  import opened Policies
  import opened Cut
  import opened Materialization
  import opened Seeds
  import opened CutMeaning

  // ---------------------------------------------------------------- the call

  function NonSeed(items: seq<NamedArtifact>): (r: seq<NamedArtifact>)
    ensures forall x :: x in r <==> x in items && !IsSeedName(x.name)
  {
    if items == [] then []
    else (if IsSeedName(items[0].name) then [] else [items[0]]) + NonSeed(items[1..])
  }

  function CutNodes(cut: AssemblyCut, after: string): set<string> {
    NodeIds(cut.skipped) + {after}
  }

  /** What the kernel is asked to start. */
  datatype Launch = Launch(assembly: Assembly, inputs: seq<NamedArtifact>)

  /** What a host knows of a new pipeline besides its graph. */
  datatype Registration = Registration(
    runId: string, known: set<string>, wantsStorage: bool, hasStorage: bool, wantsMemo: bool, hasMemo: bool)

  /** A new run id, and a backend for all that the policy asks for. */
  predicate Registrable(reg: Registration) {
    && reg.runId != "" && reg.runId !in reg.known
    && (reg.wantsStorage ==> reg.hasStorage) && (reg.wantsMemo ==> reg.hasMemo)
  }

  ghost function PipelineStart(assembly: Assembly, plan: NodePlan, inputs: seq<NamedArtifact>): Option<Launch> {
    var cut := CutFor(assembly, plan);
    if cut.Some? && SeedsPresent(cut.value, inputs) then Some(Launch(cut.value.assembly, inputs)) else None
  }

  /** `start_pipeline` up to the kernel call. */
  method StartPipeline(mode: RunMode, reg: Registration, assembly: Assembly, plan: NodePlan, inputs: seq<NamedArtifact>)
    returns (start: Option<Launch>)
    ensures start == if (mode.Selective? && plan.PlanAll?) || !Registrable(reg) then None
                     else PipelineStart(assembly, plan, inputs)
    ensures start.Some? ==>
      && reg.runId != "" && reg.runId !in reg.known && !(mode.Selective? && plan.PlanAll?)
      && (reg.wantsStorage ==> reg.hasStorage) && (reg.wantsMemo ==> reg.hasMemo)
    ensures start.None? ==>
      || reg.runId == "" || reg.runId in reg.known || (mode.Selective? && plan.PlanAll?)
      || (reg.wantsStorage && !reg.hasStorage) || (reg.wantsMemo && !reg.hasMemo)
      || PipelineStart(assembly, plan, inputs).None?
  {
    if mode.Selective? && plan.PlanAll? {
      return None;
    }
    if reg.runId == "" || reg.runId in reg.known {
      return None;
    }
    if reg.wantsStorage && !reg.hasStorage {
      return None;
    }
    if reg.wantsMemo && !reg.hasMemo {
      return None;
    }
    var cut := MaterializeCut(assembly, plan);
    if cut.None? {
      return None;
    }
    var present := ValidateSeedsPresent(cut.value, inputs);
    return if present then Some(Launch(cut.value.assembly, inputs)) else None;
  }

  /** A pipeline gets as far as the kernel exactly when its plan fits and every port that
    * crosses the cut is seeded; it asks for the cut assembly and the inputs as given. */
  lemma PipelineStartIff(assembly: Assembly, plan: NodePlan, inputs: seq<NamedArtifact>)
    ensures PipelineStart(assembly, plan, inputs).Some?
       <==> CutFor(assembly, plan).Some?
            && var seeds := CutFor(assembly, plan).value.requiredSeeds;
               forall i :: 0 <= i < |seeds| ==> GivenLast(inputs, SeedName(seeds[i].fromNode, seeds[i].fromPort))
    ensures PipelineStart(assembly, plan, inputs).Some? ==>
      PipelineStart(assembly, plan, inputs).value == Launch(CutFor(assembly, plan).value.assembly, inputs)
  {
    hide CutFor;
    if CutFor(assembly, plan).Some? {
      SeedsPresentIff(CutFor(assembly, plan).value, inputs);
    }
  }

  /** What `resume_after` asks the kernel to start, if it gets that far. */
  ghost function ResumedStart(prior: RunLog, after: string): Option<Launch> {
    var cut := CutFor(prior.slot.run.assembly, PlanAfter(after));
    if cut.None? then None
    else
      var seeds := SeedsOf(prior.derivations, CutNodes(cut.value, after));
      if seeds.None? then None
      else PipelineStart(prior.slot.run.assembly, PlanAfter(after), Merged(NonSeed(prior.slot.run.inputs), seeds.value))
  }

  /** The inputs of a resumption: each is a seed collected from the prior run, or one of
    * the prior run's inputs that is not itself a seed; no name occurs twice. */
  lemma ResumedInputsAre(prior: RunLog, after: string)
    requires ResumedStart(prior, after).Some?
    ensures CutFor(prior.slot.run.assembly, PlanAfter(after)).Some?
    ensures var cut := CutFor(prior.slot.run.assembly, PlanAfter(after)).value;
      var seeds, inputs := SeedsOf(prior.derivations, CutNodes(cut, after)), ResumedStart(prior, after).value.inputs;
      && seeds.Some?
      && (forall k :: 0 <= k < |inputs| ==>
            || inputs[k] in seeds.value
            || (inputs[k] in prior.slot.run.inputs && !("__seed/" <= inputs[k].name)))
      && (forall k, l :: 0 <= k < l < |inputs| ==> inputs[k].name != inputs[l].name)
      && (forall k :: 0 <= k < |seeds.value| ==> exists l :: 0 <= l < |inputs| && inputs[l].name == seeds.value[k].name)
      && (forall k :: 0 <= k < |prior.slot.run.inputs| && !("__seed/" <= prior.slot.run.inputs[k].name) ==>
            exists l :: 0 <= l < |inputs| && inputs[l].name == prior.slot.run.inputs[k].name)
  {
    hide CutFor;
    var cut := CutFor(prior.slot.run.assembly, PlanAfter(after)).value;
    var base, seeds := NonSeed(prior.slot.run.inputs), SeedsOf(prior.derivations, CutNodes(cut, after)).value;
    MergedNames(base, seeds);
  }

  lemma MergedNames(base: seq<NamedArtifact>, seeds: seq<NamedArtifact>)
    ensures var inputs := Merged(base, seeds);
      && (forall k :: 0 <= k < |inputs| ==> inputs[k] in seeds || inputs[k] in base)
      && (forall k, l :: 0 <= k < l < |inputs| ==> inputs[k].name != inputs[l].name)
      && (forall x :: x in seeds || x in base ==> exists l :: 0 <= l < |inputs| && inputs[l].name == x.name)
  {
    var inputs := Merged(base, seeds);
    UpsertAllFinds([], base, "");
    UpsertAllFinds(UpsertAll([], base), seeds, "");
    AscendDistinct(inputs);
    forall x | x in seeds || x in base
      ensures exists l :: 0 <= l < |inputs| && inputs[l].name == x.name
    {
      MergedFinds(base, seeds, x.name);
      SomeLast(seeds, x.name);
      SomeLast(base, x.name);
      if x in seeds {
        var i :| 0 <= i < |seeds| && seeds[i] == x;
        assert LastNamed(seeds, x.name).Some?;
      } else {
        var i :| 0 <= i < |base| && base[i] == x;
        assert LastNamed(base, x.name).Some?;
      }
      assert FirstNamed(inputs, x.name).Some?;
    }
  }

  lemma AscendDistinct(items: seq<NamedArtifact>)
    requires NamesAscend(items)
    ensures forall k, l :: 0 <= k < l < |items| ==> items[k].name != items[l].name
  {
  }

  /** The nodes to collect seeds for: those skipped, and the frontier itself. */
  method FrontierNodes(cut: AssemblyCut, after: string) returns (ids: seq<string>)
    ensures (set n | n in ids) == CutNodes(cut, after)
  {
    ids := IdsOf(cut.skipped);
    forall n | n in NodeIds(cut.skipped)
      ensures n in ids
    {
      var i :| 0 <= i < |cut.skipped| && cut.skipped[i].id == n;
      assert ids[i] == n;
    }
    if after !in ids {
      ids := ids + [after];
    }
  }

  /** `resume_after` up to the kernel call, `start_pipeline` included. */
  method ResumeAfter(mode: RunMode, reg: Registration, prior: RunLog, after: string) returns (start: Option<Launch>)
    ensures start == if Registrable(reg) then ResumedStart(prior, after) else None
  {
    var plan, assembly := PlanAfter(after), prior.slot.run.assembly;
    var cut := MaterializeCut(assembly, plan);
    if cut.None? {
      return None;
    }
    var cutNodes := FrontierNodes(cut.value, after);
    var seeds := SeedsFromRun(prior.derivations, cutNodes);
    if seeds.None? {
      return None;
    }
    var inputs := MergeInputs(NonSeed(prior.slot.run.inputs), seeds.value);
    start := StartPipeline(mode, reg, assembly, plan, inputs);
  }

  // ---------------------------------------------------------------- what the new inputs hold

  ghost predicate SlashFree(nodes: seq<AssemblyNode>) {
    forall i :: 0 <= i < |nodes| ==> NoSlash(nodes[i].id)
  }

  ghost predicate NoSeedInputs(inputs: seq<NamedArtifact>) {
    forall i :: 0 <= i < |inputs| ==> !IsSeedName(inputs[i].name)
  }

  lemma {:induction false} AllNonSeed(items: seq<NamedArtifact>)
    requires NoSeedInputs(items)
    ensures NonSeed(items) == items
  {
    if items != [] {
      AllNonSeed(items[1..]);
    }
  }

  lemma WellBoundEnds(base: World, assembly: Assembly, inputs: seq<NamedArtifact>)
    requires WellBound(base, assembly, inputs)
    ensures EndsKnown(assembly) && DistinctNodeIds(assembly.nodes)
  {
    forall i | 0 <= i < |assembly.bindings|
      ensures assembly.bindings[i].toNode in NodeIds(assembly.nodes)
      ensures assembly.bindings[i].input == "" ==> assembly.bindings[i].fromNode in NodeIds(assembly.nodes)
    {
      var b := assembly.bindings[i];
      assert BindingValid(base, assembly.nodes, inputs, b);
      KnownNode(assembly.nodes, b.toNode);
      KnownNode(assembly.nodes, b.fromNode);
    }
  }

  lemma KnownNode(nodes: seq<AssemblyNode>, id: string)
    ensures FindNode(nodes, id).Some? <==> id in NodeIds(nodes)
  {
    if FindNode(nodes, id).Some? {
      var n := FindNode(nodes, id).value;
      var i :| 0 <= i < |nodes| && nodes[i] == n;
      assert nodes[i].id == id;
    }
  }

  lemma SkippedIds(nodes: seq<AssemblyNode>, kept: set<string>)
    ensures NodeIds(NodesOut(nodes, kept)) == NodeIds(nodes) - kept
  {
    var skipped := NodesOut(nodes, kept);
    forall id | id in NodeIds(nodes) - kept
      ensures id in NodeIds(skipped)
    {
      var i :| 0 <= i < |nodes| && nodes[i].id == id;
      assert nodes[i] in skipped;
      var j :| 0 <= j < |skipped| && skipped[j] == nodes[i];
      assert skipped[j].id == id;
    }
    forall id | id in NodeIds(skipped)
      ensures id in NodeIds(nodes) - kept
    {
      var j :| 0 <= j < |skipped| && skipped[j].id == id;
      assert skipped[j] in nodes;
      var i :| 0 <= i < |nodes| && nodes[i] == skipped[j];
      assert nodes[i].id == id;
    }
  }

  lemma AfterKeepsFewer(assembly: Assembly, after: string)
    requires DistinctNodeIds(assembly.nodes) && KeptFor(assembly, PlanAfter(after)).Some?
    ensures |KeptFor(assembly, PlanAfter(after)).value| < |assembly.nodes|
  {
    var kept, ids := KeptFor(assembly, PlanAfter(after)).value, NodeIds(assembly.nodes);
    IdsCounted(assembly.nodes);
    assert kept <= ids && after in ids && after !in kept;
    SubsetCardinality(kept, ids);
  }

  /** The dropped nodes are the ones seeds are collected for. */
  lemma DroppedNodes(assembly: Assembly, after: string)
    requires DistinctNodeIds(assembly.nodes) && CutFor(assembly, PlanAfter(after)).Some?
    ensures var kept := KeptFor(assembly, PlanAfter(after)).value;
      var cut := CutFor(assembly, PlanAfter(after)).value;
      cut == PartialCut(assembly, kept) && CutNodes(cut, after) == NodeIds(assembly.nodes) - kept
  {
    AfterKeepsFewer(assembly, after);
    SkippedIds(assembly.nodes, KeptFor(assembly, PlanAfter(after)).value);
  }

  /** A dropped port's seed is what its node last committed there. */
  lemma SeedValue(ds: seq<Derivation>, nodes: set<string>, base: seq<NamedArtifact>, node: string, port: string)
    requires SeedsOf(ds, nodes).Some? && node in nodes && port != "" && NoSeedInputs(base)
    requires forall n :: n in nodes ==> NoSlash(n)
    ensures LastOf(ds, node).Some?
    ensures ArtifactNamed(Merged(base, SeedsOf(ds, nodes).value), SeedName(node, port))
         == ArtifactNamed(LastOf(ds, node).value.outputs, port)
  {
    var seeds, name, listing := SeedsOf(ds, nodes).value, SeedName(node, port), Listing(nodes);
    assert node in multiset(listing);
    NodesAdded(listing, ds, [], node, port);
    MergedFinds(base, seeds, name);
    OneEachFirstIsLast(seeds, name);
    SeedNamesAreSeeds(node, port);
    NoSeedNamed(base, name);
  }

  lemma {:induction false} NoSeedNamed(items: seq<NamedArtifact>, name: string)
    requires NoSeedInputs(items) && IsSeedName(name)
    ensures LastNamed(items, name) == None
  {
    if items != [] {
      NoSeedNamed(items[..|items| - 1], name);
    }
  }

  lemma {:induction false} SeedsAreSeedNamed(nodes: seq<string>, ds: seq<Derivation>, acc: seq<NamedArtifact>,
                                             name: string)
    requires OneEach(acc) && AddNodes(nodes, ds, acc).Some? && FirstNamed(acc, name).None? && !IsSeedName(name)
    ensures FirstNamed(AddNodes(nodes, ds, acc).value, name).None?
    decreases |nodes|
  {
    if nodes != [] {
      var outputs := LastOf(ds, nodes[0]).value.outputs;
      OutputsAdded(nodes[0], outputs, acc, name);
      SeedsAreSeedNamed(nodes[1..], ds, AddOutputs(nodes[0], outputs, acc).value, name);
    }
  }

  /** A run input keeps its artifact. */
  lemma InputValue(ds: seq<Derivation>, nodes: set<string>, base: seq<NamedArtifact>, name: string)
    requires SeedsOf(ds, nodes).Some? && !IsSeedName(name)
    requires forall i, j :: 0 <= i < j < |base| ==> base[i].name != base[j].name
    ensures FirstNamed(Merged(base, SeedsOf(ds, nodes).value), name) == FirstNamed(base, name)
  {
    var seeds := SeedsOf(ds, nodes).value;
    SeedsAreSeedNamed(Listing(nodes), ds, [], name);
    NodesKeep(Listing(nodes), ds, [], name);
    OneEachFirstIsLast(seeds, name);
    OneEachFirstIsLast(base, name);
    MergedFinds(base, seeds, name);
  }

  // ---------------------------------------------------------------- the same answer

  lemma UpstreamPortNamed(base: World, assembly: Assembly, inputs: seq<NamedArtifact>, b: Binding)
    requires WellBound(base, assembly, inputs) && b in assembly.bindings && b.input == ""
    ensures b.fromPort != "" && FindNode(assembly.nodes, b.fromNode).Some?
  {
    assert BindingValid(base, assembly.nodes, inputs, b);
    var n := FindNode(assembly.nodes, b.fromNode).value;
    assert NodeValid(base.modules, n);
  }

  lemma RunInputNamed(base: World, assembly: Assembly, inputs: seq<NamedArtifact>, b: Binding)
    requires WellBound(base, assembly, inputs) && NoSeedInputs(inputs) && b in assembly.bindings && b.input != ""
    ensures !IsSeedName(b.input) && ArtifactNamed(inputs, b.input).Some?
  {
    assert BindingValid(base, assembly.nodes, inputs, b);
  }

  /** The prior run: any run of the program, started whole, under any schedule. */
  ghost predicate PriorRun(base: World, p: Program, start: RunLog, steps: seq<Step>) {
    && Ranked(p) && WellBound(base, p.assembly, p.inputs) && SlashFree(p.assembly.nodes) && NoSeedInputs(p.inputs)
    && Fresh(start) && Runs(p, start.slot.run) && IsRun(start, steps) && FollowingRun(p, start, steps)
  }

  lemma CommittedValue(p: Program, log: RunLog, b: Binding)
    requires Ranked(p) && Converging(p, log) && Booked(log) && DistinctNodeIds(p.assembly.nodes)
    requires b in p.assembly.bindings && b.input == "" && LastOf(log.derivations, b.fromNode).Some?
    ensures EvalBinding(p, b) == ArtifactNamed(LastOf(log.derivations, b.fromNode).value.outputs, b.fromPort)
  {
    assert b.fromNode in log.slot.latest;
    SameNode(p.assembly.nodes, log.slot.latest[b.fromNode].node);
  }

  /** Every source of a kept node, over the merged inputs. */
  lemma SourceHolds(base: World, p: Program, log: RunLog, kept: set<string>, b: Binding)
    requires Ranked(p) && WellBound(base, p.assembly, p.inputs) && SlashFree(p.assembly.nodes) && NoSeedInputs(p.inputs)
    requires Converging(p, log) && Booked(log) && b in p.assembly.bindings
    requires SeedsOf(log.derivations, NodeIds(p.assembly.nodes) - kept).Some?
    ensures SourceAgrees(p, kept, Merged(p.inputs, SeedsOf(log.derivations, NodeIds(p.assembly.nodes) - kept).value), b)
  {
    var dropped := NodeIds(p.assembly.nodes) - kept;
    if b.input != "" {
      RunInputNamed(base, p.assembly, p.inputs, b);
      InputValue(log.derivations, dropped, p.inputs, b.input);
    } else if b.fromNode !in kept {
      UpstreamPortNamed(base, p.assembly, p.inputs, b);
      KnownNode(p.assembly.nodes, b.fromNode);
      SeedValue(log.derivations, dropped, p.inputs, b.fromNode, b.fromPort);
      CommittedValue(p, log, b);
    }
  }

  /** What a resumed start is made of. */
  lemma ResumedParts(prior: RunLog, after: string)
    requires DistinctNodeIds(prior.slot.run.assembly.nodes) && NoSeedInputs(prior.slot.run.inputs)
    requires ResumedStart(prior, after).Some?
    ensures var assembly := prior.slot.run.assembly;
      && CutFor(assembly, PlanAfter(after)).Some?
      && var kept := KeptFor(assembly, PlanAfter(after)).value;
      var seeds := SeedsOf(prior.derivations, NodeIds(assembly.nodes) - kept);
      && seeds.Some?
      && ResumedStart(prior, after) == Some(Launch(PartialCut(assembly, kept).assembly,
                   Merged(prior.slot.run.inputs, seeds.value)))
  {
    DroppedNodes(prior.slot.run.assembly, after);
    AllNonSeed(prior.slot.run.inputs);
  }

  lemma ResumedInputsAgree(base: World, p: Program, log: RunLog, after: string)
    requires Ranked(p) && WellBound(base, p.assembly, p.inputs) && SlashFree(p.assembly.nodes) && NoSeedInputs(p.inputs)
    requires Converging(p, log) && Booked(log) && ResumedStart(log, after).Some?
    ensures InputsAgree(p, KeptFor(p.assembly, PlanAfter(after)).value, ResumedStart(log, after).value.inputs)
  {
    ResumedParts(log, after);
    var kept := KeptFor(p.assembly, PlanAfter(after)).value;
    forall b | b in p.assembly.bindings && b.toNode in kept
      ensures SourceAgrees(p, kept, ResumedStart(log, after).value.inputs, b)
    {
      SourceHolds(base, p, log, kept, b);
    }
  }

  /** Resuming after any node of any run of a program, at any moment at which the
    * framework accepts it, gives a program with the same answer. */
  lemma ResumeKeepsAnswer(base: World, p: Program, start: RunLog, steps: seq<Step>, after: string)
    requires PriorRun(base, p, start, steps) && ResumedStart(RunSteps(start, steps), after).Some?
    ensures var resumed := ResumedStart(RunSteps(start, steps), after).value;
      var q := p.(assembly := resumed.assembly, inputs := resumed.inputs);
      Ranked(q) && Answer(q) == Answer(p)
  {
    var log := RunSteps(start, steps);
    AlwaysConverging(p, start, steps);
    AlwaysAccounted(start, steps);
    ResumedInputsAgree(base, p, log, after);
    WellBoundEnds(base, p.assembly, p.inputs);
    CutPreservesMeaning(p, PlanAfter(after), ResumedStart(log, after).value.inputs);
  }
}
