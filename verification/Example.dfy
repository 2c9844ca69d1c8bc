/** A one-node pipeline that meets the premises of the main theorems, so none of
  * them is about nothing. */
module Example {
  import opened Base
  import opened Types
  import opened Scheduler
  import opened Moves
  import opened Safety
  import opened Assemblies
  import opened NoStall
  import opened Evaluator
  import opened Convergence
  import opened Kernel
  import opened KernelRuns
  import opened Memo
  import opened Policies
  import opened Driving
  import opened Steps
  import opened Traces
  import opened Waves

  const OUT := Port("out", false, false, false, ["text"])
  const CAPABILITY := Capability("write", [], [OUT], FiringUnspecified)
  const WRITER := ModuleSlot(ModuleManifest("writer", "1", [CAPABILITY], []), Registered)
  const NODE := AssemblyNode("write", "writer", "1", "write")
  const PIPELINE := Assembly("pipeline", [NODE], [], Some(NodeOutput("write", "out")))
  const WORLD := World([WRITER], map["answer" := {"text"}])
  const REQUEST := RunRequest("run", Some(PIPELINE), [], None, [], None)
  const OUTPUTS := [NamedArtifact("out", Some("answer"))]
  const UNIT := OnceUnit("write")
  const WORK := WorkId("run", UNIT)

  function Start(): RunLog {
    RunLog(FreshSlot(REQUEST, PIPELINE), [])
  }

  function Claimed(): RunLog {
    Apply(Start(), MTake(Candidate(NODE, [], UNIT), 0))
  }

  const STEPS := [Step(WORLD, MTake(Candidate(NODE, [], UNIT), 0)), Step(WORLD, MCommit(WORK, OUTPUTS))]

  lemma Provided()
    ensures CapabilityFor(WORLD.modules, NODE) == Some(CAPABILITY)
  {
    assert Offering([CAPABILITY], "write") == [CAPABILITY] + Offering([], "write");
    assert Providers([WRITER], NODE) == [CAPABILITY] + Providers([], NODE);
  }

  lemma PipelineIsValid()
    ensures ValidAssembly(WORLD, PIPELINE, [])
  {
    Provided();
    assert FindNode([NODE], "write") == Some(NODE);
    assert FindPort([OUT], "out") == Some(OUT);
    assert IsRank([], map[]);
  }

  lemma StartIsFresh()
    ensures Fresh(Start()) && Setting(WORLD, map[], Start().slot)
  {
    Provided();
    PipelineIsValid();
  }

  lemma UnitIsReady()
    ensures IsReady(WORLD.modules, Start().slot, Candidate(NODE, [], UNIT))
  {
    Provided();
    assert ResolveInputs(Start().slot, NODE) == Some([]);
    assert CurrentUnit(WORLD.modules, Start().slot, NODE) == Some(Candidate(NODE, [], UNIT));
  }

  lemma CommitIsAllowed()
    ensures CommitAllowed(WORLD, Claimed().slot, WORK, OUTPUTS)
  {
    Provided();
    assert FindPort([OUT], "out") == Some(OUT);
    assert CountNamed(OUTPUTS, "out") == 1 + CountNamed([], "out");
    assert FitsPort(WORLD.traits, [OUT], OUTPUTS[0]);
    assert OutputFault(WORLD.traits, CAPABILITY, OUTPUTS) == OutputFault(WORLD.traits, CAPABILITY, OUTPUTS[1..]);
  }

  lemma Prefixes()
    ensures STEPS[..0] == [] && STEPS[..1] == [STEPS[0]] && STEPS[..2] == STEPS && STEPS[..1][..0] == []
    ensures RunSteps(Start(), []) == Start() && RunSteps(Start(), STEPS[..1]) == Claimed()
    ensures RunSteps(Start(), STEPS) == Apply(Claimed(), STEPS[1].move)
  {
    assert STEPS[..1] == [STEPS[0]] && STEPS[..1][..0] == [];
    assert RunSteps(Start(), STEPS[..1]) == Apply(RunSteps(Start(), []), STEPS[0].move);
  }

  lemma PipelineRuns()
    ensures IsRun(Start(), STEPS)
  {
    hide CommitAllowed, IsReady;
    Prefixes();
    UnitIsReady();
    CommitIsAllowed();
    assert IsRun(Start(), []) && EnabledAfter(Start(), [], STEPS[0]);
    RunStep(Start(), [], STEPS[0]);
    assert [] + [STEPS[0]] == STEPS[..1] && STEPS[..1] + [STEPS[1]] == STEPS;
    assert EnabledAfter(Start(), STEPS[..1], STEPS[1]);
    RunStep(Start(), STEPS[..1], STEPS[1]);
  }

  lemma PipelineCooperates()
    ensures FaithfulRun(Meaning(), Start(), STEPS) && CooperativeRun(WORLD, Start(), STEPS)
  {
    Prefixes();
    assert FirstNamed(OUTPUTS, "out") == Some(OUTPUTS[0]);
    assert Faithful(Meaning(), Start(), STEPS[0].move) && Faithful(Meaning(), Claimed(), STEPS[1].move);
    assert Cooperative(WORLD, Start().slot, STEPS[0]) && Cooperative(WORLD, Claimed().slot, STEPS[1]);
  }

  /** Claim and commit are a run, and it completes with the program's answer. */
  lemma PipelineCompletes()
    ensures IsRun(Start(), STEPS) && FaithfulRun(Meaning(), Start(), STEPS) && CooperativeRun(WORLD, Start(), STEPS)
    ensures var run := RunSteps(Start(), STEPS).slot.run;
      run.state == Completed && run.answer == Some("answer") && Ranked(Meaning()) && run.answer == Answer(Meaning())
  {
    PipelineRuns();
    PipelineCooperates();
    StartIsFresh();
    Prefixes();
    assert FirstNamed(OUTPUTS, "out") == Some(OUTPUTS[0]);
    hide IsRun, RunSteps, FaithfulRun, CooperativeRun, Setting, EvalNode;
    ScheduleIndependence(Meaning(), Start(), STEPS);
  }

  /** The writer always writes the same. */
  function Meaning(): Program {
    Program(PIPELINE, [], (n: AssemblyNode, i: seq<NamedArtifact>) => OUTPUTS, map[])
  }

  // ---------------------------------------------------------------- hosting it

  const WRITTEN := StepArtifact("out", "answer", {"text"})

  function Configured(): Setup {
    Setup(map["writer" := Plugin("digest", (k: MemoKey) => Some([WRITTEN]))], (o: StepArtifact) => o.id == "answer",
          (i: nat) => 0,
          HostPolicy(1, None, None, true, AllNodes), "run")
  }

  function Goal(): Target {
    Target(WORLD, map[], (id: string) => {"text"})
  }

  lemma WriterIsReliable()
    ensures Reliable(Goal(), Configured().plugins, Configured().accepts, PIPELINE)
  {
    Provided();
    var named := NamedOf([WRITTEN]);
    assert named == OUTPUTS;
    assert FindPort([OUT], "out") == Some(OUT);
    assert CountNamed(OUTPUTS, "out") == 1 + CountNamed([], "out");
    assert FirstNamed(OUTPUTS, "out") == Some(OUTPUTS[0]);
    assert GoodOutput(Goal(), Configured().accepts, CAPABILITY, WRITTEN);
    assert GoodStep(Goal(), Configured().accepts, PIPELINE, NODE, [WRITTEN]);
    forall w: WorkItem | w.node in PIPELINE.nodes
      ensures w.node.mod in Configured().plugins && Execution(Configured().plugins, w) == Some([WRITTEN])
    {
      assert w.node == NODE;
    }
  }

  lemma PipelineIsSettled()
    ensures Settled(Configured(), Goal(), WORLD, Start().slot)
  {
    hide Reliable;
    WriterIsReliable();
  }

  lemma PipelineIsSound()
    ensures Sound(Configured(), TakenUp(WORLD, Start()), WORLD, Start(), map[])
  {
    hide ValidAssembly, Genuine, Sound, FreshSlot;
    PipelineIsValid();
    StartsGenuine(WORLD, REQUEST, PIPELINE);
    TakenUpSound(Configured(), WORLD, Start());
  }

  /** A host may take the pipeline up, and will drive it to completion. */
  lemma PipelineIsPromising()
    ensures Sound(Configured(), TakenUp(WORLD, Start()), WORLD, Start(), map[])
    ensures Promising(Configured(), Goal(), WORLD, Start().slot)
  {
    hide Sound, Settled, Setting, Fresh, Promising;
    PipelineIsSound();
    PipelineIsSettled();
    StartIsFresh();
    FreshPromising(Configured(), Goal(), WORLD, Start());
  }

  /** Hosts of it, with or without a memo store, are within memo transparency. */
  lemma PipelineIsMeant()
    ensures var p := ProgramOf(Configured().plugins, PIPELINE, [], map[]);
      Ranked(p) && TookUp(p, Configured().plugins, TakenUp(WORLD, Start()))
  {
    var plugins := Configured().plugins;
    var p := ProgramOf(plugins, PIPELINE, [], map[]);
    ProgramMeans(plugins, PIPELINE, [], map[]);
    forall node, inputs | node in PIPELINE.nodes && Outcome(plugins, node, inputs).Some?
      ensures NamesDiffer(Outcome(plugins, node, inputs).value)
    {
      assert node == NODE;
    }
    DistinctIsSingleValued(plugins, PIPELINE);
    assert Ranked(p) && Converging(p, Start());
  }

  // ---------------------------------------------------------------- a stale holder

  const ASK := ClaimRequest("run", "", [], [], 1)

  lemma ClaimTakes(log: RunLog, now: int)
    requires ReadyUnit(WORLD.modules, Reap(log.slot, now), NODE) == Some(Candidate(NODE, [], UNIT))
    requires log.slot.run.assembly == PIPELINE && log.slot.maxInFlight == 0
    ensures Serve(WORLD, log, RClaim(ASK, now))
         == log.(slot := Take(Reap(log.slot, now), Candidate(NODE, [], UNIT), now))
  {
    hide ReadyUnit, Take;
    var c, reaped := Candidate(NODE, [], UNIT), Reap(log.slot, now);
    assert Candidates(WORLD.modules, reaped, ASK, []) == [];
    assert Candidates(WORLD.modules, reaped, ASK, [NODE]) == [c];
    assert ChosenFor(WORLD.modules, reaped, ASK) == [c];
    assert TakeAll(reaped, [c], now) == TakeAll(Take(reaped, c, now), [], now);
  }

  lemma ReadyAgain(slot: RunSlot)
    requires slot.run == Start().slot.run && slot.claimed == map[] && UNIT !in slot.doneUnits && slot.latest == map[]
    ensures ReadyUnit(WORLD.modules, slot, NODE) == Some(Candidate(NODE, [], UNIT))
  {
    Provided();
    assert ResolveInputs(slot, NODE) == Some([]);
  }

  function First(): RunLog {
    Start().(slot := Take(Start().slot, Candidate(NODE, [], UNIT), 0))
  }

  function Second(): RunLog {
    Start().(slot := Take(Reap(First().slot, 60001), Candidate(NODE, [], UNIT), 60001))
  }

  lemma FirstClaim()
    ensures Serve(WORLD, Start(), RClaim(ASK, 0)) == First()
  {
    assert Reap(Start().slot, 0) == Start().slot;
    ReadyAgain(Start().slot);
    ClaimTakes(Start(), 0);
  }

  lemma Lapse()
    ensures WORK in First().slot.claimed && Expired(First().slot.claimed[WORK], 60001)
    ensures First().slot.claimed[WORK].attempt == 1 && First().slot.claimed[WORK].id == WORK
    ensures var lapsed := Reap(First().slot, 60001);
      lapsed.claimed == map[] && lapsed.doneUnits == {} && lapsed.run == Start().slot.run && lapsed.latest == map[]
      && lapsed.maxInFlight == 0 && lapsed.claimAttempts == map[UNIT := 1]
  {
    assert First().slot.claimed.Keys == {WORK};
  }

  lemma SecondClaim()
    ensures Serve(WORLD, First(), RClaim(ASK, 60001)) == Second()
    ensures WORK in Second().slot.claimed && Second().slot.run == Start().slot.run
    ensures var w := Second().slot.claimed[WORK];
      w.attempt == 2 && w.id == WORK && w.node == NODE && Reap(Second().slot, 60002) == Second().slot
  {
    Lapse();
    ReadyAgain(Reap(First().slot, 60001));
    ClaimTakes(First(), 60001);
    assert Second().slot.claimed.Keys == {WORK};
    NothingToReap(Second().slot, 60002);
  }

  /** The unit is claimed; the lease lapses; somebody else claims it again, at the
    * second attempt; and then the first claimer's commit, under the id it was
    * given, is accepted. */
  lemma StaleHolderCommits()
    ensures var first := Serve(WORLD, Start(), RClaim(ASK, 0));
      var second := Serve(WORLD, first, RClaim(ASK, 60001));
      && WORK in first.slot.claimed && WORK in second.slot.claimed
      && var mine, theirs := first.slot.claimed[WORK], second.slot.claimed[WORK];
      && mine.id == theirs.id && mine.attempt == 1 && theirs.attempt == 2 && Expired(mine, 60001)
      && Commit(WORLD, second, mine.id, "write", OUTPUTS, 60002).1.None?
  {
    FirstClaim();
    Lapse();
    SecondClaim();
    CommitIsAllowed();
    CommitAgain(Second().slot);
    hide First, Second, Serve, Take, Start;
  }

  lemma CommitAgain(slot: RunSlot)
    requires CommitAllowed(WORLD, Claimed().slot, WORK, OUTPUTS)
    requires WORK in slot.claimed && slot.claimed[WORK].node == NODE && slot.run == Start().slot.run
    ensures CommitFault(WORLD, slot, WORK, "write", OUTPUTS).None?
  {
  }
}
