/** What a drive without memo records will do, read off the assembly before it
  * starts: the rounds in which nodes become ready, and where the terminal comes
  * in them. */
module Outlook {
  import opened Base
  import opened Types
  import Strings
  import opened Scheduler
  import opened Accounting
  import opened NoStall
  import opened Histories
  import opened Memo
  import opened Policies
  import opened Driving
  import opened Steps
  import opened Traces
  import opened Waves

  // ---------------------------------------------------------------- rounds of an assembly

  predicate SourcesDone(bindings: seq<Binding>, done: set<string>, id: string) {
    forall i :: 0 <= i < |bindings| && bindings[i].input == "" && bindings[i].toNode == id ==>
      bindings[i].fromNode in done
  }

  /** The nodes not done whose sources are, in assembly order. */
  function OpenNodes(bindings: seq<Binding>, nodes: seq<AssemblyNode>, done: set<string>): (r: seq<string>)
    ensures forall i :: 0 <= i < |r| ==> r[i] in NodeIds(nodes) && r[i] !in done
  {
    if nodes == [] then []
    else
      var rest := OpenNodes(bindings, nodes[1..], done);
      assert forall id :: id in NodeIds(nodes[1..]) ==> id in NodeIds(nodes) by { LaterIds(nodes); }
      assert nodes[0].id in NodeIds(nodes);
      if nodes[0].id !in done && SourcesDone(bindings, done, nodes[0].id) then [nodes[0].id] + rest else rest
  }

  lemma LaterIds(nodes: seq<AssemblyNode>)
    requires nodes != []
    ensures NodeIds(nodes[1..]) <= NodeIds(nodes)
  {
    forall id | id in NodeIds(nodes[1..])
      ensures id in NodeIds(nodes)
    {
      var i :| 0 <= i < |nodes[1..]| && nodes[1..][i].id == id;
      assert nodes[i + 1].id == id;
    }
  }

  /** The first of them, as many as there is room for. */
  function Round(assembly: Assembly, done: set<string>, width: nat): (r: seq<string>)
    ensures forall i :: 0 <= i < |r| ==> r[i] in NodeIds(assembly.nodes) && r[i] !in done
  {
    var open := OpenNodes(assembly.bindings, assembly.nodes, done);
    open[..Min(width, |open|)]
  }

  predicate IsTerminal(assembly: Assembly, id: string) {
    assembly.terminal.Some? && id == assembly.terminal.value.node
  }

  predicate TerminalIn(assembly: Assembly, ids: seq<string>) {
    assembly.terminal.Some? && assembly.terminal.value.node in ids
  }

  function IdSet(ids: seq<string>): set<string> {
    set id | id in ids
  }

  /** Round after round, up to and with the terminal's. */
  function Foreseen(assembly: Assembly, done: set<string>, width: nat): seq<string>
    decreases |NodeIds(assembly.nodes) - done|
  {
    var round := Round(assembly, done, width);
    if round == [] || (assembly.terminal.Some? && assembly.terminal.value.node in done) then []
    else if TerminalIn(assembly, round) then round
    else
      assert round[0] in NodeIds(assembly.nodes) - done && round[0] in IdSet(round);
      FewerRemain(NodeIds(assembly.nodes), done, IdSet(round), round[0]);
      round + Foreseen(assembly, done + IdSet(round), width)
  }

  lemma FewerRemain(ids: set<string>, done: set<string>, more: set<string>, id: string)
    requires id in ids - done && id in more
    ensures |ids - (done + more)| < |ids - done|
  {
    SubsetCardinality(ids - (done + more), ids - done - {id});
  }

  /** Nothing comes after the terminal. */
  predicate TerminalLast(assembly: Assembly, ids: seq<string>) {
    ids == [] || IsTerminal(assembly, ids[|ids| - 1])
  }

  // ---------------------------------------------------------------- what a wave claims is the next round

  lemma OpenIsReady(base: World, rank: map<string, nat>, world: World, slot: RunSlot, n: AssemblyNode)
    requires OnCourse(base, rank, slot) && Unambiguous(base, world, slot.run.assembly.nodes)
    requires slot.claimed == map[] && n in slot.run.assembly.nodes
    requires n.id !in slot.latest && SourcesDone(slot.run.assembly.bindings, slot.latest.Keys, n.id)
    ensures ReadyUnit(world.modules, slot, n).Some?
  {
    var bs := BoundTo(slot, n);
    OnceKey(base, world.modules, slot, n);
    forall i | 0 <= i < |bs|
      ensures ResolveBinding(slot.run.inputs, slot.latest, bs[i]).Some?
    {
      assert bs[i] in bs;
      if bs[i].input == "" {
        assert Supplies(slot.run.assembly, bs[i].fromNode, slot.latest[bs[i].fromNode].outputs);
      }
    }
  }

  lemma ReadyIsOpen(base: World, rank: map<string, nat>, world: World, slot: RunSlot, n: AssemblyNode)
    requires OnCourse(base, rank, slot) && Unambiguous(base, world, slot.run.assembly.nodes)
    requires n in slot.run.assembly.nodes && ReadyUnit(world.modules, slot, n).Some?
    ensures n.id !in slot.latest && SourcesDone(slot.run.assembly.bindings, slot.latest.Keys, n.id)
  {
    OnceKey(base, world.modules, slot, n);
    ReadyGrounded(world.modules, slot, ReadyUnit(world.modules, slot, n).value);
  }

  /** On course and holding nothing, a node is ready if and only if it has not
    * committed and its sources have. */
  lemma ReadyIff(base: World, rank: map<string, nat>, world: World, slot: RunSlot, n: AssemblyNode)
    requires OnCourse(base, rank, slot) && Unambiguous(base, world, slot.run.assembly.nodes)
    requires slot.claimed == map[] && n in slot.run.assembly.nodes
    ensures ReadyUnit(world.modules, slot, n).Some?
       <==> n.id !in slot.latest && SourcesDone(slot.run.assembly.bindings, slot.latest.Keys, n.id)
  {
    hide OnCourse, Unambiguous, SourcesDone, ReadyUnit;
    if ReadyUnit(world.modules, slot, n).Some? {
      ReadyIsOpen(base, rank, world, slot, n);
    } else if n.id !in slot.latest && SourcesDone(slot.run.assembly.bindings, slot.latest.Keys, n.id) {
      OpenIsReady(base, rank, world, slot, n);
      assert false;
    }
  }

  function NodesOf(cs: seq<Candidate>): (r: seq<string>)
    ensures |r| == |cs| && forall i :: 0 <= i < |r| ==> r[i] == cs[i].node.id
  {
    if cs == [] then [] else [cs[0].node.id] + NodesOf(cs[1..])
  }

  lemma {:induction false} CandidatesOpen(base: World, rank: map<string, nat>, world: World, slot: RunSlot,
                                          req: ClaimRequest, nodes: seq<AssemblyNode>)
    requires OnCourse(base, rank, slot) && Unambiguous(base, world, slot.run.assembly.nodes)
    requires slot.claimed == map[] && FilterAdmits(req, nodes)
    requires forall i :: 0 <= i < |nodes| ==> nodes[i] in slot.run.assembly.nodes
    ensures NodesOf(Candidates(world.modules, slot, req, nodes))
         == OpenNodes(slot.run.assembly.bindings, nodes, slot.latest.Keys)
  {
    if nodes != [] {
      hide OnCourse, Unambiguous, ReadyUnit, SourcesDone;
      ReadyIff(base, rank, world, slot, nodes[0]);
      CandidatesOpen(base, rank, world, slot, req, nodes[1..]);
    }
  }

  /** Room in a run that holds nothing. */
  function Width(slot: RunSlot, batch: nat): nat {
    WantedItems(slot.(claimed := map[]), batch)
  }

  lemma ChosenAreRound(base: World, rank: map<string, nat>, world: World, slot: RunSlot, req: ClaimRequest)
    requires OnCourse(base, rank, slot) && Unambiguous(base, world, slot.run.assembly.nodes)
    requires slot.claimed == map[] && FilterAdmits(req, slot.run.assembly.nodes)
    ensures NodesOf(ChosenFor(world.modules, slot, req))
         == Round(slot.run.assembly, slot.latest.Keys, Width(slot, req.maxItems))
  {
    hide OnCourse, Unambiguous, FilterAdmits, Candidates, OpenNodes;
    CandidatesOpen(base, rank, world, slot, req, slot.run.assembly.nodes);
    var cs := Candidates(world.modules, slot, req, slot.run.assembly.nodes);
    NodesPrefix(cs, Min(WantedItems(slot, req.maxItems), |cs|));
    assert slot.(claimed := map[]) == slot;
  }

  lemma NodesPrefix(cs: seq<Candidate>, k: nat)
    requires k <= |cs|
    ensures NodesOf(cs[..k]) == NodesOf(cs)[..k]
  {
  }

  lemma {:induction false} TakenNodes(slot: RunSlot, cs: seq<Candidate>, now: int)
    ensures forall i :: 0 <= i < |cs| ==> TakenItems(slot, cs, now)[i].node == cs[i].node
    decreases |cs|
  {
    if cs != [] {
      TakenNodes(Take(slot, cs[0], now), cs[1..], now);
    }
  }

  /** The nodes of these items, in order. */
  ghost predicate AreNodesOf(ids: seq<string>, items: seq<WorkItem>) {
    |ids| == |items| && forall i :: 0 <= i < |ids| ==> items[i].node.id == ids[i]
  }

  lemma WaveIsRound(s: Setup, t: Target, world: World, slot: RunSlot, now: int)
    requires Promising(s, t, world, slot)
    ensures AreNodesOf(Round(slot.run.assembly, slot.latest.Keys, Width(slot, Batch(s.policy))),
                       WaveItems(s, world, slot, now))
  {
    var req := WaveRequest(s);
    var mods := if s.policy.claimModules.Some? then s.policy.claimModules.value else Strings.Listing(s.plugins.Keys);
    RequestAllows(s, mods, req);
    assert Reap(slot, now) == slot by { NothingToReap(slot, now); }
    ChosenAreRound(t.base, t.rank, world, slot, req);
    TakenNodes(slot, ChosenFor(world.modules, slot, req), now);
  }

  // ---------------------------------------------------------------- a wave without memo records

  lemma {:induction false} NoHits(s: Setup, memo: map<MemoKey, MemoRecord>, world: World, items: seq<WorkItem>)
    requires !s.policy.memoEnabled
    ensures Hits(s, memo, world, items) == [] && Misses(s, memo, world, items) == items
  {
    if items == [] {
      SortNone(s, memo, world);
    } else {
      var n := |items| - 1;
      NoHits(s, memo, world, items[..n]);
      SortLast(s, memo, world, items);
      assert !HasHit(s, memo, world, items[n]) && items == items[..n] + [items[n]];
    }
  }

  lemma AsClaimedOrder(s: Setup, memo: map<MemoKey, MemoRecord>, world: World, items: seq<WorkItem>)
    requires !s.policy.memoEnabled
    ensures CommitOrder(s, memo, world, items) == items
  {
    NoHits(s, memo, world, items);
  }

  /** So the wave ends with the terminal, if it has it, exactly when the round does. */
  lemma WaveEndsIff(s: Setup, t: Target, memo: map<MemoKey, MemoRecord>, world: World, slot: RunSlot, now: int)
    requires !s.policy.memoEnabled && Promising(s, t, world, slot)
    ensures var round := Round(slot.run.assembly, slot.latest.Keys, Width(slot, Batch(s.policy)));
      (WaveEndsLast(s, memo, world, slot, now)
       <==> forall i :: 0 <= i < |round| - 1 ==> !IsTerminal(slot.run.assembly, round[i]))
  {
    hide Promising, Round, WaveItems, CommitOrder;
    WaveIsRound(s, t, world, slot, now);
    AsClaimedOrder(s, memo, world, WaveItems(s, world, slot, now));
  }

  function CommittedNodes(ds: seq<Derivation>): (r: seq<string>)
    ensures |r| == |ds| && forall i :: 0 <= i < |r| ==> r[i] == ds[i].node.id
  {
    if ds == [] then [] else [ds[0].node.id] + CommittedNodes(ds[1..])
  }

  lemma SequencedNodes(log: RunLog, log': RunLog, items: seq<WorkItem>, ids: seq<string>)
    requires Sequenced(log, log', items) && AreNodesOf(ids, items)
    ensures CommittedNodes(log'.derivations) == CommittedNodes(log.derivations) + ids
  {
    var n := |log.derivations|;
    forall i | 0 <= i < |log'.derivations|
      ensures log'.derivations[i].node.id == (CommittedNodes(log.derivations) + ids)[i]
    {
      if i >= n {
        assert IsDerivationOf(log'.derivations[n + (i - n)], items[i - n]);
      }
    }
  }

  lemma {:induction false} LastIsSome(ds: seq<Derivation>, n: string)
    ensures LastOf(ds, n).Some? <==> n in CommittedNodes(ds)
  {
    if ds != [] {
      var front := ds[..|ds| - 1];
      LastIsSome(front, n);
      assert ds == front + [ds[|ds| - 1]];
      assert forall i :: 0 <= i < |front| ==> CommittedNodes(ds)[i] == CommittedNodes(front)[i];
      assert CommittedNodes(ds) == CommittedNodes(front) + [ds[|ds| - 1].node.id];
    }
  }

  lemma LatestAre(log: RunLog)
    requires Booked(log)
    ensures log.slot.latest.Keys == IdSet(CommittedNodes(log.derivations))
  {
    forall n
      ensures n in log.slot.latest <==> n in CommittedNodes(log.derivations)
    {
      LastIsSome(log.derivations, n);
    }
  }

  lemma LatestGrows(log: RunLog, log': RunLog, ids: seq<string>)
    requires Booked(log) && Booked(log')
    requires CommittedNodes(log'.derivations) == CommittedNodes(log.derivations) + ids
    ensures log'.slot.latest.Keys == log.slot.latest.Keys + IdSet(ids)
  {
    LatestAre(log);
    LatestAre(log');
  }

  // ---------------------------------------------------------------- frozen by honest work

  lemma {:induction false} ContinuesFrozen(plugins: Plugins, r: string, t: Trace, t': Trace)
    requires WellMade(t', r) && Continues(plugins, t, t')
    ensures SameRun(TracedLog(t).slot, TracedLog(t').slot)
    decreases t'
  {
    if t' != t {
      ContinuesFrozen(plugins, r, t, t'.before);
      WellMadeGenuine(t'.before, r);
      var base := GenuineDriveable(t'.before.world, r, TracedLog(t'.before));
      ServeFreezes(t'.world, TracedLog(t'.before), t'.call);
    }
  }

  // ---------------------------------------------------------------- the plan of a drive

  ghost function Plan(s: Setup, slot: RunSlot): seq<string> {
    Foreseen(slot.run.assembly, slot.latest.Keys, Width(slot, Batch(s.policy)))
  }

  /** What is committed and what is foreseen from here are what was foreseen. */
  ghost predicate OnPlan(s: Setup, was: RunLog, log: RunLog) {
    && SameRun(was.slot, log.slot) && |was.derivations| <= |log.derivations|
    && CommittedNodes(log.derivations) + Plan(s, log.slot) == CommittedNodes(was.derivations) + Plan(s, was.slot)
    && (log.slot.run.state != Running ==>
          Plan(s, log.slot) == [] && TerminalLast(was.slot.run.assembly, Plan(s, was.slot)))
  }

  lemma PlanStarts(s: Setup, log: RunLog)
    requires log.slot.run.state == Running
    ensures OnPlan(s, log, log)
  {
  }

  /** A running run on course has not committed its terminal. */
  lemma StillToAnswer(s: Setup, t: Target, world: World, slot: RunSlot)
    requires Promising(s, t, world, slot) && slot.run.state == Running
    ensures slot.run.assembly.terminal.Some? && slot.run.assembly.terminal.value.node !in slot.latest
    ensures DistinctNodeIds(slot.run.assembly.nodes)
  {
  }

  lemma SameWidth(slot: RunSlot, slot': RunSlot, batch: nat)
    requires SameRun(slot, slot')
    ensures Width(slot', batch) == Width(slot, batch)
  {
  }

  lemma PlanUnfolds(s: Setup, slot: RunSlot)
    requires slot.run.assembly.terminal.Some? && slot.run.assembly.terminal.value.node !in slot.latest
    requires Round(slot.run.assembly, slot.latest.Keys, Width(slot, Batch(s.policy))) != []
    ensures var assembly, width := slot.run.assembly, Width(slot, Batch(s.policy));
      var round := Round(assembly, slot.latest.Keys, width);
      Plan(s, slot) == if TerminalIn(assembly, round) then round
                       else round + Foreseen(assembly, slot.latest.Keys + IdSet(round), width)
  {
  }

  /** Whatever ends both ends with the same. */
  lemma SameEnd(a: seq<string>, round: seq<string>, b: seq<string>, plan: seq<string>)
    requires a + round == b + plan && |b| <= |a| && round != []
    ensures plan != [] && plan[|plan| - 1] == round[|round| - 1]
  {
    var x, y := a + round, b + plan;
    assert x[|x| - 1] == round[|round| - 1];
    assert y[|y| - 1] == plan[|plan| - 1];
  }

  /** A wave that succeeds keeps to the plan. */
  lemma PlanKept(s: Setup, was: RunLog, log: RunLog, log': RunLog, round: seq<string>)
    requires OnPlan(s, was, log) && log.slot.run.state == Running && SameRun(log.slot, log'.slot)
    requires Booked(log) && Booked(log') && round != []
    requires round == Round(log.slot.run.assembly, log.slot.latest.Keys, Width(log.slot, Batch(s.policy)))
    requires CommittedNodes(log'.derivations) == CommittedNodes(log.derivations) + round
    requires log.slot.run.assembly.terminal.Some? && log.slot.run.assembly.terminal.value.node !in log.slot.latest
    requires forall i :: 0 <= i < |round| - 1 ==> !IsTerminal(log.slot.run.assembly, round[i])
    requires log'.slot.run.state == Running <==> !TerminalIn(log.slot.run.assembly, round)
    ensures OnPlan(s, was, log')
  {
    hide Foreseen, Round, Width, CommittedNodes, Booked, TerminalLast;
    LatestGrows(log, log', round);
    SameWidth(log.slot, log'.slot, Batch(s.policy));
    PlanUnfolds(s, log.slot);
    var a, b := CommittedNodes(log.derivations), CommittedNodes(was.derivations);
    CommittedCount(log.derivations, was.derivations);
    if TerminalIn(log.slot.run.assembly, round) {
      PlanOver(s, log'.slot);
      SameEnd(a, round, b, Plan(s, was.slot));
      EndsWithTerminal(log.slot.run.assembly, round, Plan(s, was.slot));
      assert a + round == a + round + [];
    } else {
      assert a + (round + Plan(s, log'.slot)) == a + round + Plan(s, log'.slot);
    }
  }

  lemma CommittedCount(ds: seq<Derivation>, ds': seq<Derivation>)
    ensures |CommittedNodes(ds)| == |ds| && |CommittedNodes(ds')| == |ds'|
  {
  }

  lemma EndsWithTerminal(assembly: Assembly, round: seq<string>, plan: seq<string>)
    requires TerminalIn(assembly, round) && forall i :: 0 <= i < |round| - 1 ==> !IsTerminal(assembly, round[i])
    requires round != [] && plan != [] && plan[|plan| - 1] == round[|round| - 1]
    ensures TerminalLast(assembly, plan)
  {
  }

  lemma PlanOver(s: Setup, slot: RunSlot)
    requires slot.run.assembly.terminal.Some? && slot.run.assembly.terminal.value.node in slot.latest
    ensures Plan(s, slot) == []
  {
  }

  lemma {:induction false} OpenDistinct(bindings: seq<Binding>, nodes: seq<AssemblyNode>, done: set<string>)
    requires DistinctNodeIds(nodes)
    ensures Distinct(OpenNodes(bindings, nodes, done))
  {
    if nodes != [] {
      OpenDistinct(bindings, nodes[1..], done);
      assert nodes[0].id !in NodeIds(nodes[1..]);
    }
  }

  /** A round with its terminal before its end is a plan that does not end with it. */
  lemma PlanErrs(s: Setup, was: RunLog, log: RunLog, i: nat)
    requires OnPlan(s, was, log) && log.slot.run.state == Running && DistinctNodeIds(log.slot.run.assembly.nodes)
    requires log.slot.run.assembly.terminal.Some? && log.slot.run.assembly.terminal.value.node !in log.slot.latest
    requires var round := Round(log.slot.run.assembly, log.slot.latest.Keys, Width(log.slot, Batch(s.policy)));
      i < |round| - 1 && IsTerminal(log.slot.run.assembly, round[i])
    ensures !TerminalLast(was.slot.run.assembly, Plan(s, was.slot))
  {
    hide Plan, Width, OpenNodes, CommittedNodes;
    var assembly := log.slot.run.assembly;
    var round := Round(assembly, log.slot.latest.Keys, Width(log.slot, Batch(s.policy)));
    OpenDistinct(assembly.bindings, assembly.nodes, log.slot.latest.Keys);
    PlanUnfolds(s, log.slot);
    SameEnd(CommittedNodes(log.derivations), round, CommittedNodes(was.derivations), Plan(s, was.slot));
  }

  // ---------------------------------------------------------------- a drive on plan

  lemma BookedTrace(s: Setup, tr: Trace, world: World, log: RunLog, memo: map<MemoKey, MemoRecord>)
    requires Sound(s, tr, world, log, memo)
    ensures Booked(log)
  {
    var base := TracedDriveable(tr, s.runId, world, log);
  }

  /** How a wave of a drive without memo records leaves the plan. */
  lemma WaveOnPlan(s: Setup, t: Target, was: RunLog, tr: Trace, world: World, log: RunLog,
                   memo: map<MemoKey, MemoRecord>, now: int, tr': Trace, world': World, log': RunLog,
                   memo': map<MemoKey, MemoRecord>)
    requires !s.policy.memoEnabled && OnPlan(s, was, log) && log.slot.run.state == Running
    requires Promising(s, t, world, log.slot) && Sound(s, tr, world, log, memo) && Sound(s, tr', world', log', memo')
    requires Worked(s.plugins, tr, log, tr', log') && log'.slot.run.steps > log.slot.run.steps
    requires var order := CommitOrder(s, memo, world, WaveItems(s, world, log.slot, now));
      Sequenced(log, log', order) && Going(log.slot.run.assembly, order, log'.slot.run.state)
    ensures OnPlan(s, was, log')
  {
    hide OnPlan, Promising, Sound, Sequenced, WaveItems, CommitOrder, Round, Width, Booked;
    var order := CommitOrder(s, memo, world, WaveItems(s, world, log.slot, now));
    var round := Round(log.slot.run.assembly, log.slot.latest.Keys, Width(log.slot, Batch(s.policy)));
    WaveIsRound(s, t, world, log.slot, now);
    AsClaimedOrder(s, memo, world, WaveItems(s, world, log.slot, now));
    StillToAnswer(s, t, world, log.slot);
    BookedTrace(s, tr, world, log, memo);
    BookedTrace(s, tr', world', log', memo');
    SequencedNodes(log, log', order, round);
    StepsGrow(log, log', round);
    SoundFrozen(s, tr, world, log, memo, tr', world', log', memo');
    GoingRound(log.slot.run.assembly, order, round, log'.slot.run.state);
    PlanKept(s, was, log, log', round);
  }

  lemma StepsGrow(log: RunLog, log': RunLog, ids: seq<string>)
    requires Booked(log) && Booked(log') && log'.slot.run.steps > log.slot.run.steps
    requires CommittedNodes(log'.derivations) == CommittedNodes(log.derivations) + ids
    ensures ids != []
  {
  }

  lemma SoundFrozen(s: Setup, tr: Trace, world: World, log: RunLog, memo: map<MemoKey, MemoRecord>, tr': Trace,
                    world': World, log': RunLog, memo': map<MemoKey, MemoRecord>)
    requires Sound(s, tr, world, log, memo) && Sound(s, tr', world', log', memo') && Continues(s.plugins, tr, tr')
    ensures SameRun(log.slot, log'.slot)
  {
    ContinuesFrozen(s.plugins, s.runId, tr, tr');
  }

  lemma GoingRound(assembly: Assembly, items: seq<WorkItem>, ids: seq<string>, state: RunState)
    requires Going(assembly, items, state) && AreNodesOf(ids, items)
    ensures forall i :: 0 <= i < |ids| - 1 ==> !IsTerminal(assembly, ids[i])
    ensures state == Running <==> !TerminalIn(assembly, ids)
  {
    forall i | 0 <= i < |ids|
      ensures IsTerminal(assembly, ids[i]) <==> EndsRun(assembly, items[i])
    {
    }
    if TerminalIn(assembly, ids) {
      var i :| 0 <= i < |ids| && ids[i] == assembly.terminal.value.node;
      assert EndsRun(assembly, items[i]);
    }
  }

  lemma WaveOffPlan(s: Setup, t: Target, was: RunLog, world: World, log: RunLog, memo: map<MemoKey, MemoRecord>,
                    now: int)
    requires !s.policy.memoEnabled && OnPlan(s, was, log) && log.slot.run.state == Running
    requires Promising(s, t, world, log.slot) && !WaveEndsLast(s, memo, world, log.slot, now)
    ensures !TerminalLast(was.slot.run.assembly, Plan(s, was.slot))
  {
    hide OnPlan, Promising, Round, Width, WaveEndsLast;
    var round := Round(log.slot.run.assembly, log.slot.latest.Keys, Width(log.slot, Batch(s.policy)));
    WaveEndsIff(s, t, memo, world, log.slot, now);
    StillToAnswer(s, t, world, log.slot);
    var i :| 0 <= i < |round| - 1 && IsTerminal(log.slot.run.assembly, round[i]);
    PlanErrs(s, was, log, i);
  }

  /** A drive that ends without error has committed what was foreseen. */
  lemma PlanDone(s: Setup, was: RunLog, log: RunLog)
    requires OnPlan(s, was, log) && log.slot.run.state != Running
    ensures TerminalLast(was.slot.run.assembly, Plan(s, was.slot))
    ensures CommittedNodes(log.derivations) == CommittedNodes(was.derivations) + Plan(s, was.slot)
  {
  }
}
