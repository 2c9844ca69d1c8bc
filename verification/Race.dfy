/** Two nodes that are claimed in one wave, the terminal first: the drive loop
  * reports an error although the run has completed. */
module Race {
  import opened Base
  import opened Types
  import opened Strings
  import opened Scheduler
  import opened Safety
  import opened Assemblies
  import opened NoStall
  import opened Kernel
  import opened KernelRuns
  import opened Memo
  import opened Policies
  import opened Driving
  import opened Steps
  import opened Traces
  import opened Waves
  import opened Hosting
  import opened Pipelines
  import opened Outlook

  const OUT := Port("out", false, false, false, ["text"])
  const CAPABILITY := Capability("write", [], [OUT], FiringUnspecified)
  const WRITER := ModuleSlot(ModuleManifest("writer", "1", [CAPABILITY], []), Registered)
  const LAST := AssemblyNode("last", "writer", "1", "write")
  const OTHER := AssemblyNode("other", "writer", "1", "write")
  const PAIR := Assembly("pair", [LAST, OTHER], [], Some(NodeOutput("last", "out")))
  const WORLD := World([WRITER], map[])
  const REQUEST := RunRequest("run", Some(PAIR), [], None, [], None)
  const WRITTEN := StepArtifact("out", "answer", {"text"})

  /** Two units side by side, no memo store. */
  const SETUP := Setup(
    map["writer" := Plugin("digest", (k: MemoKey) => Some([WRITTEN]))], (o: StepArtifact) => o.id == "answer",
    (i: nat) => 0, HostPolicy(2, None, None, false, AllNodes), "run")

  function Start(): RunLog {
    RunLog(FreshSlot(REQUEST, PAIR), [])
  }

  function Goal(): Target {
    Target(WORLD, map[], (id: string) => {"text"})
  }

  lemma Provided(node: AssemblyNode)
    requires node in PAIR.nodes
    ensures CapabilityFor(WORLD.modules, node) == Some(CAPABILITY)
  {
    assert Offering([CAPABILITY], "write") == [CAPABILITY] + Offering([], "write");
    assert Providers([WRITER], node) == [CAPABILITY] + Providers([], node);
  }

  lemma PairIsValid()
    ensures ValidAssembly(WORLD, PAIR, [])
  {
    Provided(LAST);
    Provided(OTHER);
    assert FindNode(PAIR.nodes, "last") == Some(LAST);
    assert FindPort([OUT], "out") == Some(OUT);
    assert IsRank([], map[]);
  }

  lemma StartIsFresh()
    ensures Fresh(Start()) && Setting(WORLD, map[], Start().slot)
  {
    PairIsValid();
    Provided(LAST);
    Provided(OTHER);
  }

  lemma WriterIsReliable()
    ensures Reliable(Goal(), SETUP.plugins, SETUP.accepts, PAIR)
  {
    var outputs := [NamedArtifact("out", Some("answer"))];
    assert NamedOf([WRITTEN]) == outputs;
    assert FindPort([OUT], "out") == Some(OUT);
    assert CountNamed(outputs, "out") == 1 + CountNamed([], "out");
    assert FirstNamed(outputs, "out") == Some(outputs[0]);
    assert GoodOutput(Goal(), SETUP.accepts, CAPABILITY, WRITTEN);
    forall w: WorkItem | w.node in PAIR.nodes
      ensures w.node.mod in SETUP.plugins && Execution(SETUP.plugins, w) == Some([WRITTEN])
      ensures GoodStep(Goal(), SETUP.accepts, PAIR, w.node, [WRITTEN])
    {
      Provided(w.node);
    }
  }

  lemma PairIsPromising()
    ensures Promising(SETUP, Goal(), WORLD, Start().slot)
  {
    StartIsFresh();
    WriterIsReliable();
    hide Reliable, Fresh, Setting;
    assert Settled(SETUP, Goal(), WORLD, Start().slot);
    FreshPromising(SETUP, Goal(), WORLD, Start());
  }

  lemma PairIsSound()
    ensures Sound(SETUP, TakenUp(WORLD, Start()), WORLD, Start(), map[])
  {
    hide ValidAssembly, Genuine, Sound, FreshSlot;
    PairIsValid();
    StartsGenuine(WORLD, REQUEST, PAIR);
    TakenUpSound(SETUP, WORLD, Start());
  }

  lemma NodeIsReady(node: AssemblyNode)
    requires node in PAIR.nodes
    ensures ReadyUnit(WORLD.modules, Start().slot, node) == Some(Candidate(node, [], OnceUnit(node.id)))
  {
    Provided(node);
    assert ResolveInputs(Start().slot, node) == Some([]);
  }

  lemma BothChosen()
    ensures ChosenFor(WORLD.modules, Start().slot, WaveRequest(SETUP))
         == [Candidate(LAST, [], OnceUnit("last")), Candidate(OTHER, [], OnceUnit("other"))]
  {
    var slot, req := Start().slot, WaveRequest(SETUP);
    WriterListed();
    NodeIsReady(LAST);
    NodeIsReady(OTHER);
    hide ReadyUnit;
    assert PAIR.nodes[1..] == [OTHER] && PAIR.nodes[1..][1..] == [];
    assert Candidates(WORLD.modules, slot, req, []) == [];
    assert Candidates(WORLD.modules, slot, req, [OTHER]) == [Candidate(OTHER, [], OnceUnit("other"))];
  }

  lemma WriterListed()
    ensures forall n :: n in PAIR.nodes ==> MatchesFilter(WaveRequest(SETUP), n)
    ensures WaveRequest(SETUP).maxItems == 2
  {
    RequestAllows(SETUP, Listing(SETUP.plugins.Keys), WaveRequest(SETUP));
  }

  /** The wave claims the terminal's unit, then the other one, and commits them in
    * that order. */
  lemma TerminalFirst()
    ensures !WaveEndsLast(SETUP, map[], WORLD, Start().slot, 0)
  {
    var slot := Start().slot;
    assert Reap(slot, 0) == slot by { NothingToReap(slot, 0); }
    BothChosen();
    var chosen := ChosenFor(WORLD.modules, slot, WaveRequest(SETUP));
    var items := WaveItems(SETUP, WORLD, slot, 0);
    assert items == TakenItems(slot, chosen, 0);
    assert items[0].node == LAST && |items| == 2;
    AllMiss(SETUP, WORLD, items);
    assert CommitOrder(SETUP, map[], WORLD, items) == items;
    assert EndsRun(PAIR, items[0]);
  }

  lemma StartRunning()
    ensures Start().slot.run.state == Running && SETUP.clock(0) == 0
  {
  }

  lemma OverrunIs(log: RunLog, err: HostError)
    requires Overrun(log, err)
    ensures err == Refused(RunClosed(Completed)) && log.slot.run.state == Completed
  {
  }

  /** Every plugin did its work, every commit was valid, the run is COMPLETED, and
    * the drive loop says RUN_CLOSED. */
  method DriveErrsOnCompletedRun() returns (r: Result<Run, HostError>, state: RunState)
    ensures r == Failure(Refused(RunClosed(Completed))) && state == Completed
  {
    PairIsSound();
    PairIsPromising();
    TerminalFirst();
    StartRunning();
    hide *;
    var host := new Host(SETUP, WORLD, Start(), map[]);
    r := host.DriveUntilIdle(Some(Goal()), None);
    OverrunIs(host.log, r.error);
    state := host.log.slot.run.state;
  }

  // ---------------------------------------------------------------- started by policy

  const PLAIN := PipelinePolicy(Converge, CapabilityDefaults, None, None, None, SETUP.policy)
  const REGISTERED := State([WRITER], map[], map[], map[], map[], [], [])

  /** A kernel with the writer registered starts the pair for a plain policy. */
  lemma PairIsStarted()
    ensures WorldOf(REGISTERED) == WORLD && StartFault(REGISTERED, RequestFor(PLAIN, "run", PAIR, [])).None?
    ensures Converges(PLAIN, WORLD, PAIR) && Equipped(SETUP, Goal(), PLAIN, WORLD, PAIR)
  {
    PairIsValid();
    Provided(LAST);
    Provided(OTHER);
    WriterIsReliable();
    assert TraitsOf(map[]) == map[];
    hide Reliable;
    assert Materialize(PAIR, []) == Some(PAIR);
  }

  /** What goes wrong can be foreseen: both nodes are in the first round, and the
    * terminal is not its last. */
  lemma ForeseenToErr()
    ensures Plan(SETUP, Start().slot) == ["last", "other"] && !TerminalLast(PAIR, Plan(SETUP, Start().slot))
  {
    assert PAIR.nodes[1..] == [OTHER] && PAIR.nodes[1..][1..] == [];
    assert OpenNodes([], [], {}) == [] && OpenNodes([], [OTHER], {}) == ["other"];
    assert OpenNodes([], PAIR.nodes, {}) == ["last", "other"];
    assert Width(Start().slot, 2) == 2;
    assert Round(PAIR, {}, 2) == ["last", "other"];
    assert Start().slot.latest.Keys == {};
  }
}
