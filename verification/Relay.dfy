/** Two nodes in a row that fire on every delivery: a reader of a run input and a
  * writer of what it reads. The run meets the premises of the theorems about
  * deliveries, typing, cuts and resumption. */
module Relay {
  import opened Base
  import opened Types
  import opened Strings
  import opened Scheduler
  import opened Moves
  import opened Safety
  import opened Assemblies
  import opened Provenance
  import opened Deliveries
  import opened Kernel
  import opened KernelRuns
  import opened Cut
  import opened Materialization
  import opened Resumption
  import opened CutValidity

  const IN := Port("in", false, false, false, ["text"])
  const OUT := Port("out", false, false, false, ["text"])
  const READING := Capability("read", [IN], [OUT], Always)
  const WRITING := Capability("write", [IN], [OUT], Always)
  const READER := ModuleSlot(ModuleManifest("reader", "1", [READING], []), Registered)
  const WRITER := ModuleSlot(ModuleManifest("writer", "1", [WRITING], []), Registered)
  const READ := AssemblyNode("read", "reader", "1", "read")
  const WRITE := AssemblyNode("write", "writer", "1", "write")
  const FEED := Binding("read", "in", "", "", "source")
  const PASS := Binding("write", "in", "read", "out", "")
  const RELAY := Assembly("relay", [READ, WRITE], [FEED, PASS], Some(NodeOutput("write", "out")))
  const WORLD := World([READER, WRITER], map["doc" := {"text"}, "note" := {"text"}, "blank" := {}])
  const SOURCE := NamedArtifact("source", Some("doc"))
  const NOTE := NamedArtifact("out", Some("note"))
  const REQUEST := RunRequest("run", Some(RELAY), [SOURCE], None, [], None)
  const RANK := map["read" := 0, "write" := 1]

  function Start(): RunLog {
    RunLog(FreshSlot(REQUEST, RELAY), [])
  }

  lemma Provided()
    ensures CapabilityFor(WORLD.modules, READ) == Some(READING)
    ensures CapabilityFor(WORLD.modules, WRITE) == Some(WRITING)
  {
    assert Offering([READING], "read") == [READING] + Offering([], "read");
    assert Offering([WRITING], "write") == [WRITING] + Offering([], "write");
    assert Providers([READER, WRITER], READ) == [READING] + Providers([WRITER], READ);
    assert Providers([WRITER], READ) == [] + Providers([], READ);
    assert Providers([READER, WRITER], WRITE) == [] + Providers([WRITER], WRITE);
    assert Providers([WRITER], WRITE) == [WRITING] + Providers([], WRITE);
  }

  lemma Ports()
    ensures FindNode(RELAY.nodes, "read") == Some(READ) && FindNode(RELAY.nodes, "write") == Some(WRITE)
    ensures InputPort(WORLD.modules, RELAY.nodes, "read", "in") == Some(IN)
    ensures InputPort(WORLD.modules, RELAY.nodes, "write", "in") == Some(IN)
    ensures OutputPort(WORLD.modules, RELAY.nodes, "read", "out") == Some(OUT)
    ensures OutputPort(WORLD.modules, RELAY.nodes, "write", "out") == Some(OUT)
  {
    Provided();
    assert RELAY.nodes[1..] == [WRITE] && FindNode([WRITE], "write") == Some(WRITE);
    assert FindPort([IN], "in") == Some(IN) && FindPort([OUT], "out") == Some(OUT);
  }

  lemma Counts()
    ensures BindingCount(RELAY.bindings, "read", "in") == 1 && BindingCount(RELAY.bindings, "write", "in") == 1
  {
    assert RELAY.bindings[1..] == [PASS] && [PASS][1..] == [];
    assert BindingCount([PASS], "read", "in") == 0 && BindingCount([PASS], "write", "in") == 1;
  }

  lemma RelayIsBound()
    ensures WellBound(WORLD, RELAY, [SOURCE])
  {
    hide NodeValid, BindingValid, ArityValid, TerminalValid;
    BindingsAreValid();
    NodesAreValid();
    assert RELAY.nodes[0] == READ && RELAY.nodes[1] == WRITE && RELAY.bindings[0] == FEED && RELAY.bindings[1] == PASS;
  }

  lemma RelayIsValid()
    ensures ValidAssembly(WORLD, RELAY, [SOURCE])
  {
    hide WellBound;
    RelayIsBound();
    assert IsRank(RELAY.bindings, RANK);
  }

  lemma BindingsAreValid()
    ensures BindingValid(WORLD, RELAY.nodes, [SOURCE], FEED) && BindingValid(WORLD, RELAY.nodes, [SOURCE], PASS)
  {
    Ports();
    assert ArtifactNamed([SOURCE], "source") == Some("doc");
  }

  lemma NodesAreValid()
    ensures NodeValid(WORLD.modules, READ) && NodeValid(WORLD.modules, WRITE)
    ensures ArityValid(WORLD.modules, RELAY.bindings, READ) && ArityValid(WORLD.modules, RELAY.bindings, WRITE)
    ensures TerminalValid(WORLD.modules, RELAY)
  {
    Provided();
    Ports();
    Counts();
  }

  lemma StartIsFresh()
    ensures Fresh(Start()) && EpochsFit(Start().slot)
  {
  }

  // ---------------------------------------------------------------- reading

  const READ_UNIT := DeliveryUnit("read", [Row("in", "doc", 0)])
  const READ_WORK := WorkId("run", READ_UNIT)
  const TAKE := Step(WORLD, MTake(Candidate(READ, [NamedArtifact("in", Some("doc"))], READ_UNIT), 0))
  const COMMIT := Step(WORLD, MCommit(READ_WORK, [NOTE]))
  const AGAIN := Step(WORLD, MInject(SOURCE))

  lemma OneRow(row: Row)
    ensures SortRows([row]) == [row]
  {
    assert [row][1..] == [] && SortRows([]) == [];
  }

  lemma Bound()
    ensures BindingsTo(RELAY.bindings, "read") == [FEED] && BindingsTo(RELAY.bindings, "write") == [PASS]
  {
    assert RELAY.bindings[1..] == [PASS] && [PASS][1..] == [];
    assert BindingsTo([], "read") == [] && BindingsTo([], "write") == [];
    assert BindingsTo([PASS], "read") == [] && BindingsTo([PASS], "write") == [PASS] + [];
    assert BindingsTo(RELAY.bindings, "read") == [FEED] + BindingsTo([PASS], "read");
  }

  lemma Resolved(slot: RunSlot, node: AssemblyNode, b: Binding, artifact: string)
    requires slot.run.assembly == RELAY && ((node == READ && b == FEED) || (node == WRITE && b == PASS))
    requires ResolveBinding(slot.run.inputs, slot.latest, b) == Some(artifact)
    ensures BoundTo(slot, node) == [b] && ResolveInputs(slot, node) == Some([NamedArtifact("in", Some(artifact))])
  {
    Bound();
    assert BoundTo(slot, node) == [b];
    var r := ResolveAll(slot.run.inputs, slot.latest, [b]);
    assert forall i :: 0 <= i < |[b]| ==> ResolveBinding(slot.run.inputs, slot.latest, [b][i]).Some?;
    assert r.Some? && |r.value| == 1 && r.value[0] == NamedArtifact("in", Some(artifact));
    assert r.value == [NamedArtifact("in", Some(artifact))];
  }

  lemma Delivered(slot: RunSlot, b: Binding, artifact: string)
    requires b.toPort == "in"
    ensures DeliveryRows(slot, [b], [NamedArtifact("in", Some(artifact))])
         == Some([Row("in", artifact, Generation(slot, b))])
  {
    var items, row := [NamedArtifact("in", Some(artifact))], Row("in", artifact, Generation(slot, b));
    assert FirstNamed(items, "in") == Some(items[0]) && ArtifactNamed(items, b.toPort) == Some(artifact);
    assert [b][1..] == [] && DeliveryRows(slot, [], items) == Some([]);
    assert DeliveryRows(slot, [b], items) == Some([row] + []);
    assert [row] + [] == [row];
  }

  /** The unit of a node with one binding. */
  lemma UnitOf(slot: RunSlot, node: AssemblyNode, b: Binding, artifact: string)
    requires slot.run.assembly == RELAY && slot.run.policy == None
    requires (node == READ && b == FEED) || (node == WRITE && b == PASS)
    requires ResolveBinding(slot.run.inputs, slot.latest, b) == Some(artifact)
    ensures CurrentUnit(WORLD.modules, slot, node) == Some(Candidate(
      node, [NamedArtifact("in", Some(artifact))], DeliveryUnit(node.id, [Row("in", artifact, Generation(slot, b))])))
  {
    Provided();
    Resolved(slot, node, b, artifact);
    Delivered(slot, b, artifact);
    OneRow(Row("in", artifact, Generation(slot, b)));
    hide ResolveInputs, CapabilityFor, DeliveryRows, SortRows, BoundTo, Generation;
  }

  lemma ReadIsReady()
    ensures Enabled(WORLD, Start().slot, TAKE.move)
  {
    assert ArtifactNamed([SOURCE], "source") == Some("doc");
    UnitOf(Start().slot, READ, FEED, "doc");
  }

  function Taken(): RunLog {
    Apply(Start(), TAKE.move)
  }

  function AfterRead(): RunLog {
    Apply(Taken(), COMMIT.move)
  }

  lemma NoteIsAllowed()
    ensures Enabled(WORLD, Taken().slot, COMMIT.move)
  {
    Provided();
    assert FindPort([OUT], "out") == Some(OUT);
    assert CountNamed([NOTE], "out") == 1 + CountNamed([], "out");
    assert FitsPort(WORLD.traits, [OUT], NOTE);
    assert OutputFault(WORLD.traits, READING, [NOTE]) == OutputFault(WORLD.traits, READING, [NOTE][1..]);
  }

  lemma AgainIsAllowed()
    ensures Enabled(WORLD, AfterRead().slot, AGAIN.move)
  {
    assert RELAY.bindings[0].input == "source";
  }

  lemma Prefixes()
    ensures RunSteps(Start(), []) == Start() && RunSteps(Start(), [TAKE]) == Taken()
    ensures RunSteps(Start(), [TAKE, COMMIT]) == AfterRead()
    ensures [TAKE, COMMIT] + [AGAIN] == [TAKE, COMMIT, AGAIN]
    ensures RunSteps(Start(), [TAKE, COMMIT, AGAIN]) == Apply(AfterRead(), AGAIN.move)
  {
    hide Apply;
    assert [TAKE][..0] == [] && [TAKE, COMMIT][..1] == [TAKE] && [TAKE, COMMIT, AGAIN][..2] == [TAKE, COMMIT];
    assert RunSteps(Start(), [TAKE]) == Apply(RunSteps(Start(), [TAKE][..0]), TAKE.move);
    assert RunSteps(Start(), [TAKE, COMMIT]) == Apply(RunSteps(Start(), [TAKE, COMMIT][..1]), COMMIT.move);
  }

  lemma RelayRuns()
    ensures IsRun(Start(), []) && IsRun(Start(), [TAKE]) && IsRun(Start(), [TAKE, COMMIT])
    ensures IsRun(Start(), [TAKE, COMMIT, AGAIN])
  {
    Prefixes();
    ReadIsReady();
    NoteIsAllowed();
    AgainIsAllowed();
    hide Enabled, Apply;
    assert [] + [TAKE] == [TAKE] && [TAKE] + [COMMIT] == [TAKE, COMMIT];
    assert EnabledAfter(Start(), [], TAKE) && EnabledAfter(Start(), [TAKE], COMMIT);
    assert EnabledAfter(Start(), [TAKE, COMMIT], AGAIN);
    RunStep(Start(), [], TAKE);
    RunStep(Start(), [TAKE], COMMIT);
    RunStep(Start(), [TAKE, COMMIT], AGAIN);
  }

  // ---------------------------------------------------------------- what follows

  lemma NoteArrives(slot: RunSlot)
    requires "read" in slot.latest && slot.latest["read"].outputs == [NOTE]
    ensures ResolveBinding(slot.run.inputs, slot.latest, PASS) == Some("note")
  {
    assert FirstNamed([NOTE], "out") == Some(NOTE);
  }

  lemma ReadDelivers()
    ensures Delivers(Taken().slot, COMMIT.move, WRITE.id)
    ensures OnDeliveries(WORLD.modules, AfterRead().slot, WRITE)
  {
    Bound();
    assert DeliversTo(Taken().slot, COMMIT.move, PASS);
    NoteArrives(AfterRead().slot);
    hide AfterRead;
    AfterReading();
    UnitOf(AfterRead().slot, WRITE, PASS, "note");
  }

  /** The reader's commit delivers to the writer, which is ready at once. */
  lemma WriterFires()
    ensures ReadyUnit(WORLD.modules, AfterRead().slot, WRITE).Some?
  {
    hide *;
    Prefixes();
    RelayRuns();
    StartIsFresh();
    ReadDelivers();
    assert [TAKE] + [COMMIT] == [TAKE, COMMIT];
    Quietly();
    DeliveryFires(Start(), [TAKE], COMMIT, WRITE);
    UnitReady(WORLD.modules, AfterRead().slot, WRITE);
  }

  lemma Quietly()
    ensures NotSaturated(Taken().slot, COMMIT.move) && COMMIT.world == WORLD
  {
  }

  lemma UnitReady(modules: seq<ModuleSlot>, slot: RunSlot, node: AssemblyNode)
    requires OnDeliveries(modules, slot, node) && ReadyUnit(modules, slot, node) == CurrentUnit(modules, slot, node)
    ensures ReadyUnit(modules, slot, node).Some?
  {
  }

  lemma SourceStays(slot: RunSlot)
    requires slot.run.inputs == [SOURCE]
    ensures FirstNamed(slot.run.inputs, "source") == Some(SOURCE) && Inject(slot, SOURCE).run.inputs == [SOURCE]
    ensures ResolveBinding(slot.run.inputs, slot.latest, FEED) == Some("doc")
  {
  }

  lemma AfterReading()
    ensures var slot := AfterRead().slot;
      && slot.run.inputs == [SOURCE] && slot.run.assembly == RELAY && slot.run.policy == None
      && READ_UNIT in slot.doneUnits && Lookup(slot.inputEpochs, "source", 0) == 0
      && "read" in slot.latest && slot.latest["read"].outputs == [NOTE]
  {
  }

  lemma AgainDelivers()
    ensures Delivers(AfterRead().slot, AGAIN.move, "read")
    ensures UnitFinished(WORLD.modules, AfterRead().slot, READ)
    ensures OnDeliveries(WORLD.modules, Apply(AfterRead(), AGAIN.move).slot, READ)
  {
    hide AfterRead;
    AfterReading();
    Bound();
    var slot := AfterRead().slot;
    SourceStays(slot);
    SourceStays(Inject(slot, SOURCE));
    assert DeliversTo(slot, AGAIN.move, FEED);
    UnitOf(slot, READ, FEED, "doc");
    UnitOf(Inject(slot, SOURCE), READ, FEED, "doc");
  }

  /** Injecting the same document again makes the reader read it again. */
  lemma ReaderReadsAgain()
    ensures ReadyUnit(WORLD.modules, Apply(AfterRead(), AGAIN.move).slot, READ).Some?
  {
    Prefixes();
    RelayRuns();
    StartIsFresh();
    AgainDelivers();
    AfterReading();
    SourceStays(AfterRead().slot);
    hide IsRun, Enabled, Apply, AfterRead, UnitFinished, OnDeliveries, Delivers, ReadyUnit, Start;
    ReinjectionFiresIff(Start(), [TAKE, COMMIT], AGAIN, READ);
  }

  const BLANK := NamedArtifact("source", Some("blank"))

  lemma RelayStartTyped()
    ensures Typed(WORLD, WORLD, Start().slot)
  {
    RelayIsValid();
    StartIsFresh();
    hide ValidAssembly, WellBound, Fresh, Typed;
    assert WellBound(WORLD, RELAY, [SOURCE]) by { ValidIsBound(); }
    FreshTyped(WORLD, Start());
  }

  lemma ValidIsBound()
    requires ValidAssembly(WORLD, RELAY, [SOURCE])
    ensures WellBound(WORLD, RELAY, [SOURCE])
  {
  }

  lemma BlankMisfits(slot: RunSlot)
    requires slot.run.assembly == RELAY && slot.run.inputs == [BLANK]
    ensures !RunInputsTyped(WORLD, WORLD, slot)
  {
    Ports();
    assert RELAY.bindings[0] == FEED && FEED in RELAY.bindings;
    assert ArtifactNamed([BLANK], "source") == Some("blank");
    assert !Carries(WORLD.traits, "blank", IN.traits) by {
      assert IN.traits[0] == "text";
    }
  }

  /** An artifact without the trait the port needs is injected all the same, and
    * the run is no longer typed. */
  lemma MisfitIsInjected()
    ensures Enabled(WORLD, Start().slot, MInject(BLANK))
    ensures Typed(WORLD, WORLD, Start().slot) && !RunInputsTyped(WORLD, WORLD, Inject(Start().slot, BLANK))
  {
    RelayStartTyped();
    assert RELAY.bindings[0].input == "source";
    assert Replace([SOURCE], BLANK) == [BLANK] + [SOURCE][1..];
    hide Typed, RunInputsTyped;
    BlankMisfits(Inject(Start().slot, BLANK));
  }

  // ---------------------------------------------------------------- resuming after the reader

  /** Data flows from the reader to the writer only. */
  lemma OneFlow(u: string, v: string)
    requires Flows(RELAY.bindings, u, v)
    ensures u == "read" && v == "write"
  {
  }

  lemma ReadIsFirst()
    ensures KeptFor(RELAY, PlanAfter("read")) == Some({"write"})
  {
    var bindings := RELAY.bindings;
    forall u | Feeds(bindings, u, "read")
      ensures false
    {
      var w :| Flows(bindings, u, w) && LeadsTo(bindings, w, "read");
      OneFlow(u, w);
      var path: seq<string> :| FlowsAlong(bindings, w, "read", path);
      if |path| > 1 {
        OneFlow(path[0], path[1]);
      }
      assert false;
    }
    assert Ancestors(bindings, "read") == {};
    assert RELAY.nodes[0].id == "read" && RELAY.nodes[1].id == "write";
    assert NodeIds(RELAY.nodes) == {"read", "write"};
    assert {"read", "write"} - ({} + {"read"}) == {"write"};
  }

  lemma ReadCommitted()
    ensures FrontierCommitted(AfterRead().slot, {"write"})
  {
    hide AfterRead;
    AfterReading();
    var slot := AfterRead().slot;
    assert RELAY.nodes[0].id == "read" && RELAY.nodes[1].id == "write";
    assert NodeIds(RELAY.nodes) == {"read", "write"};
    assert FirstNamed([NOTE], "out") == Some(NOTE);
  }

  lemma RelayIsWhole()
    ensures WholeRun(WORLD, Start(), [TAKE, COMMIT], WORLD)
  {
    RelayIsValid();
    StartIsFresh();
    RelayRuns();
    hide ValidAssembly, Fresh, IsRun;
    var steps := [TAKE, COMMIT];
    assert AllOk(FromBase(WORLD), Start(), steps);
    assert SlashFree(RELAY.nodes) && NoSeedInputs([SOURCE]);
  }

  lemma RelayCuts()
    requires KeptFor(RELAY, PlanAfter("read")) == Some({"write"})
    ensures CutFor(RELAY, PlanAfter("read")).Some?
  {
    hide KeptFor;
    forall i | 0 <= i < |RELAY.bindings|
      ensures !Sourceless({"write"}, RELAY.bindings[i])
    {
    }
  }

  /** The reader has committed, so the relay can be resumed after it: the writer
    * alone, fed with the note. */
  lemma RelayResumes()
    ensures var resumed := ResumedStart(AfterRead(), "read");
      resumed.Some? && ValidAssembly(WORLD, resumed.value.assembly, resumed.value.inputs)
  {
    RelayIsWhole();
    ReadIsFirst();
    RelayCuts();
    ReadCommitted();
    Prefixes();
    assert Start().slot.run.assembly == RELAY;
    hide Start, AfterRead, WholeRun, ValidAssembly, FrontierCommitted, KeptFor, CutFor, RunSteps;
    ResumeNeverRefused(WORLD, Start(), [TAKE, COMMIT], WORLD, "read");
  }
}
