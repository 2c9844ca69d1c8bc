/** What a host's drive loop relies on: facts about one claim wave of a healthy
  * run. The loop itself is in module `Hosting`. */
module Driving {
  import opened Base
  import opened Types
  import opened Scheduler
  import opened Moves
  import opened Safety
  import opened Accounting
  import opened NoStall
  import opened Cut

  // ---------------------------------------------------------------- between waves

  /** Whatever a committed or claimed node reads from has committed. */
  ghost predicate Grounded(slot: RunSlot) {
    && (forall b :: b in slot.run.assembly.bindings && b.input == "" && b.toNode in slot.latest ==>
          b.fromNode in slot.latest)
    && (forall id :: id in slot.claimed ==> SourcesCommitted(slot, slot.claimed[id].node))
  }

  ghost predicate SourcesCommitted(slot: RunSlot, n: AssemblyNode) {
    forall b :: b in slot.run.assembly.bindings && b.input == "" && b.toNode == n.id ==> b.fromNode in slot.latest
  }

  /** A run that is getting there: nothing failed, nothing cancelled. */
  ghost predicate OnCourse(base: World, rank: map<string, nat>, slot: RunSlot) {
    && Frozen(base, rank, slot.run) && Healthy(slot) && Grounded(slot)
    && slot.run.state in {Running, Completed}
  }

  lemma FreshOnCourse(base: World, rank: map<string, nat>, start: RunLog)
    requires Fresh(start) && Setting(base, rank, start.slot)
    ensures OnCourse(base, rank, start.slot)
  {
    StartHealthy(base, rank, start);
  }

  // ---------------------------------------------------------------- claiming

  lemma NothingToReap(slot: RunSlot, now: int)
    requires forall id :: id in slot.claimed ==> !Expired(slot.claimed[id], now)
    ensures Reap(slot, now) == slot
  {
    var reaped := Reap(slot, now);
    assert reaped.claimed == slot.claimed;
    assert reaped.doneUnits == slot.doneUnits;
  }

  lemma ReadyGrounded(modules: seq<ModuleSlot>, slot: RunSlot, c: Candidate)
    requires IsReady(modules, slot, c)
    ensures SourcesCommitted(slot, c.node)
  {
    var bs := BoundTo(slot, c.node);
    forall b | b in slot.run.assembly.bindings && b.input == "" && b.toNode == c.node.id
      ensures b.fromNode in slot.latest
    {
      var i :| 0 <= i < |bs| && bs[i] == b;
      assert ResolveBinding(slot.run.inputs, slot.latest, bs[i]).Some?;
    }
  }

  lemma TakeOnCourse(base: World, rank: map<string, nat>, world: World, slot: RunSlot, c: Candidate, now: int)
    requires OnCourse(base, rank, slot) && Unambiguous(base, world, slot.run.assembly.nodes)
    requires c.node in slot.run.assembly.nodes && IsReady(world.modules, slot, c)
    ensures OnCourse(base, rank, Take(slot, c, now))
  {
    TakeHealthy(base, world, slot, c, now);
    ReadyGrounded(world.modules, slot, c);
    TakeGrounded(slot, c, now);
  }

  lemma TakeGrounded(slot: RunSlot, c: Candidate, now: int)
    requires Grounded(slot) && SourcesCommitted(slot, c.node)
    ensures Grounded(Take(slot, c, now))
  {
    var slot' := Take(slot, c, now);
    forall id | id in slot'.claimed
      ensures SourcesCommitted(slot', slot'.claimed[id].node)
    {
      if id != WorkId(slot.run.id, c.unit) {
        assert SourcesCommitted(slot, slot.claimed[id].node);
      }
    }
  }

  /** The claimed items are exactly these. */
  ghost predicate Holding(slot: RunSlot, pending: set<WorkItem>) {
    && (forall w :: w in pending ==> w.id in slot.claimed && slot.claimed[w.id] == w)
    && (forall id :: id in slot.claimed ==> slot.claimed[id] in pending && slot.claimed[id].id == id)
  }

  ghost function ItemSet(items: seq<WorkItem>): set<WorkItem> {
    set w | w in items
  }

  lemma {:induction false} TakeAllOnCourse(base: World, rank: map<string, nat>, world: World, slot: RunSlot,
                                           cs: seq<Candidate>, now: int)
    requires OnCourse(base, rank, slot) && Unambiguous(base, world, slot.run.assembly.nodes)
    requires AllReady(world.modules, slot, cs)
    ensures OnCourse(base, rank, TakeAll(slot, cs, now)) && TakeAll(slot, cs, now).run == slot.run
    decreases |cs|
  {
    if cs != [] {
      TakeOnCourse(base, rank, world, slot, cs[0], now);
      OthersStayReady(world.modules, slot, cs, now);
      TakeAllOnCourse(base, rank, world, Take(slot, cs[0], now), cs[1..], now);
    }
  }

  /** Leases taken now run from now. */
  ghost predicate LeasedAt(slot: RunSlot, items: set<WorkItem>, now: int) {
    forall w :: w in items ==> w.leaseUntil == LeaseEnd(now, slot.defaultLeaseMs)
  }

  lemma {:induction false} TakeAllHolds(slot: RunSlot, cs: seq<Candidate>, now: int, held: set<WorkItem>)
    requires Holding(slot, held) && DistinctUnits(cs)
    requires forall i :: 0 <= i < |cs| ==> WorkId(slot.run.id, cs[i].unit) !in slot.claimed
    ensures Holding(TakeAll(slot, cs, now), held + ItemSet(TakenItems(slot, cs, now)))
    ensures LeasedAt(slot, ItemSet(TakenItems(slot, cs, now)), now)
    decreases |cs|
  {
    if cs == [] {
      assert held + ItemSet([]) == held;
    } else {
      var slot', rest := Take(slot, cs[0], now), cs[1..];
      var id := WorkId(slot.run.id, cs[0].unit);
      var w := slot'.claimed[id];
      assert Holding(slot', held + {w});
      forall i | 0 <= i < |rest|
        ensures WorkId(slot.run.id, rest[i].unit) !in slot'.claimed
      {
        assert rest[i] == cs[i + 1];
      }
      TakeAllHolds(slot', rest, now, held + {w});
      var more := TakenItems(slot', rest, now);
      assert TakenItems(slot, cs, now) == [w] + more;
      assert held + {w} + ItemSet(more) == held + ItemSet([w] + more);
    }
  }

  ghost predicate FilterAdmits(req: ClaimRequest, nodes: seq<AssemblyNode>) {
    forall i :: 0 <= i < |nodes| ==> MatchesFilter(req, nodes[i])
  }

  lemma {:induction false} SomeCandidate(modules: seq<ModuleSlot>, slot: RunSlot, req: ClaimRequest,
                                         nodes: seq<AssemblyNode>, i: nat)
    requires i < |nodes| && MatchesFilter(req, nodes[i]) && ReadyUnit(modules, slot, nodes[i]).Some?
    ensures Candidates(modules, slot, req, nodes) != []
  {
    if i > 0 {
      SomeCandidate(modules, slot, req, nodes[1..], i - 1);
    }
  }

  lemma SomeChosen(modules: seq<ModuleSlot>, slot: RunSlot, req: ClaimRequest)
    requires slot.claimed == map[] && AnyReady(modules, slot) && FilterAdmits(req, slot.run.assembly.nodes)
    ensures ChosenFor(modules, slot, req) != []
  {
    hide ReadyUnit, MatchesFilter;
    var nodes := slot.run.assembly.nodes;
    var i :| 0 <= i < |nodes| && ReadyUnit(modules, slot, nodes[i]).Some?;
    SomeCandidate(modules, slot, req, nodes, i);
    assert |slot.claimed| == 0;
  }

  /** A wave on a run that is on course and holds nothing claims something. */
  lemma WaveClaims(base: World, rank: map<string, nat>, world: World, slot: RunSlot, req: ClaimRequest)
    requires OnCourse(base, rank, slot) && Unambiguous(base, world, slot.run.assembly.nodes)
    requires slot.run.state == Running && slot.claimed == map[] && FilterAdmits(req, slot.run.assembly.nodes)
    ensures ChosenFor(world.modules, slot, req) != []
  {
    NeverShouldStall(base, rank, world, slot);
    SomeChosen(world.modules, slot, req);
  }

  lemma {:induction false} TakenUnits(slot: RunSlot, cs: seq<Candidate>, now: int)
    ensures forall i :: 0 <= i < |cs| ==> TakenItems(slot, cs, now)[i].unit == cs[i].unit
    decreases |cs|
  {
    if cs != [] {
      TakenUnits(Take(slot, cs[0], now), cs[1..], now);
    }
  }

  // ---------------------------------------------------------------- committing

  /** The outputs that let the run go on: accepted by the kernel, and supplying
    * every port somebody reads. */
  ghost predicate GoodOutputs(world: World, slot: RunSlot, w: WorkItem, outputs: seq<NamedArtifact>) {
    var cap := CapabilityFor(world.modules, w.node);
    && cap.Some? && ArityFits(cap.value.outputs, outputs) && OutputFault(world.traits, cap.value, outputs).None?
    && Supplies(slot.run.assembly, w.node.id, outputs)
  }

  lemma CommitAccepted(world: World, log: RunLog, w: WorkItem, outputs: seq<NamedArtifact>, now: int)
    requires w.id in log.slot.claimed && log.slot.claimed[w.id] == w && GoodOutputs(world, log.slot, w, outputs)
    requires log.slot.run.steps < log.slot.run.maxSteps
    requires forall id :: id in log.slot.claimed ==> !Expired(log.slot.claimed[id], now)
    ensures Commit(world, log, w.id, w.node.id, outputs, now).1.None?
    ensures var committed := CommitUnit(log, w.id, outputs);
      Commit(world, log, w.id, w.node.id, outputs, now).0
        == committed.(slot := StallIfIdle(world.modules, committed.slot))
  {
    NothingToReap(log.slot, now);
    assert log.(slot := log.slot) == log;
  }

  lemma CommitGrounded(log: RunLog, id: WorkId, outputs: seq<NamedArtifact>)
    requires Grounded(log.slot) && id in log.slot.claimed
    ensures Grounded(CommitUnit(log, id, outputs).slot)
  {
    var slot, slot' := log.slot, CommitUnit(log, id, outputs).slot;
    assert SourcesCommitted(slot, slot.claimed[id].node);
    forall other | other in slot'.claimed
      ensures SourcesCommitted(slot', slot'.claimed[other].node)
    {
      assert SourcesCommitted(slot, slot.claimed[other].node);
    }
  }

  lemma CommitStaysFrozen(base: World, rank: map<string, nat>, log: RunLog, id: WorkId, outputs: seq<NamedArtifact>)
    requires Frozen(base, rank, log.slot.run) && id in log.slot.claimed
    ensures Frozen(base, rank, CommitUnit(log, id, outputs).slot.run)
  {
    MoveFreezes(log, MCommit(id, outputs));
    StaysFrozen(base, rank, log.slot, CommitUnit(log, id, outputs).slot);
  }

  lemma CommitOnCourse(base: World, rank: map<string, nat>, log: RunLog, id: WorkId, outputs: seq<NamedArtifact>)
    requires OnCourse(base, rank, log.slot) && log.slot.run.state == Running
    requires ClaimsNamed(log.slot) && ClaimsNotDone(log.slot) && id in log.slot.claimed
    requires Supplies(log.slot.run.assembly, log.slot.claimed[id].node.id, outputs)
    ensures OnCourse(base, rank, CommitUnit(log, id, outputs).slot)
  {
    var slot' := CommitUnit(log, id, outputs).slot;
    assert Healthy(slot') by { CommitHealthy(base, rank, log, id, outputs); }
    assert Grounded(slot') by { CommitGrounded(log, id, outputs); }
    assert Frozen(base, rank, slot'.run) by { CommitStaysFrozen(base, rank, log, id, outputs); }
    assert slot'.run.state in {Running, Completed} by {
      NotCancelled(log, id, outputs);
      assert NotFinished(slot');
    }
  }

  lemma NotCancelled(log: RunLog, id: WorkId, outputs: seq<NamedArtifact>)
    requires id in log.slot.claimed && log.slot.run.state == Running
    ensures CommitUnit(log, id, outputs).slot.run.state != Cancelled
  {
  }

  lemma CommitReleases(slot: RunSlot, log: RunLog, w: WorkItem, pending: set<WorkItem>, outputs: seq<NamedArtifact>)
    requires slot == log.slot && Holding(slot, pending) && w in pending
    ensures Holding(CommitUnit(log, w.id, outputs).slot, pending - {w})
  {
  }

  // ---------------------------------------------------------------- the terminal comes last

  /** Every node's data gets to the terminal. */
  ghost predicate AllReachTerminal(assembly: Assembly) {
    assembly.terminal.Some? && forall i :: 0 <= i < |assembly.nodes| ==>
      LeadsTo(assembly.bindings, assembly.nodes[i].id, assembly.terminal.value.node)
  }

  /** Upstream bindings alone carry data. */
  ghost predicate OneSource(bindings: seq<Binding>) {
    forall b :: b in bindings && b.fromNode != "" ==> b.input == ""
  }

  /** If every node reaches the terminal, then a claimed terminal is the only
    * node that has not committed. */
  lemma TerminalAlone(slot: RunSlot, t: AssemblyNode, n: AssemblyNode)
    requires Grounded(slot) && AllReachTerminal(slot.run.assembly) && OneSource(slot.run.assembly.bindings)
    requires t.id == slot.run.assembly.terminal.value.node && SourcesCommitted(slot, t)
    requires n in slot.run.assembly.nodes && n.id != t.id
    ensures n.id in slot.latest
  {
    var bindings := slot.run.assembly.bindings;
    var i :| 0 <= i < |slot.run.assembly.nodes| && slot.run.assembly.nodes[i] == n;
    assert LeadsTo(bindings, slot.run.assembly.nodes[i].id, t.id);
    var path: seq<string> :| FlowsAlong(bindings, n.id, t.id, path);
    var held := slot.latest.Keys + {t.id};
    forall u, v | v in held && Flows(bindings, u, v)
      ensures u in held
    {
      var k :| 0 <= k < |bindings| && bindings[k].fromNode == u && bindings[k].toNode == v;
      assert bindings[k] in bindings;
    }
    PathCame(bindings, path, held, 0);
  }

  /** If the terminal is claimed, nothing else is. */
  lemma OtherClaimsDone(slot: RunSlot, w: WorkItem, v: WorkItem)
    requires DoneIsCommitted(slot) && Grounded(slot) && ClaimsNamed(slot) && ClaimsNotDone(slot)
    requires AllReachTerminal(slot.run.assembly) && OneSource(slot.run.assembly.bindings)
    requires w.id in slot.claimed && slot.claimed[w.id] == w && v.id in slot.claimed && slot.claimed[v.id] == v
    requires w.node.id == slot.run.assembly.terminal.value.node
    ensures v == w
  {
    assert v.unit == OnceUnit(v.node.id) && w.unit == OnceUnit(w.node.id);
    if v.node.id != w.node.id {
      TerminalAlone(slot, w.node, v.node);
      assert false;
    }
  }

  /** The item's commit answers, and closes the run. */
  ghost predicate EndsRun(assembly: Assembly, w: WorkItem) {
    assembly.terminal.Some? && w.node.id == assembly.terminal.value.node
  }

  /** Nothing is to be committed after an item that ends the run. */
  ghost predicate EndsLast(assembly: Assembly, items: seq<WorkItem>) {
    forall i :: 0 <= i < |items| - 1 ==> !EndsRun(assembly, items[i])
  }

  lemma OnCourseState(base: World, rank: map<string, nat>, slot: RunSlot)
    requires OnCourse(base, rank, slot)
    ensures NotFinished(slot) && slot.run.state in {Running, Completed}
  {
  }

  lemma CommitState(log: RunLog, id: WorkId, outputs: seq<NamedArtifact>)
    requires id in log.slot.claimed && log.slot.run.state == Running
    requires NotFinished(CommitUnit(log, id, outputs).slot)
    requires CommitUnit(log, id, outputs).slot.run.state in {Running, Completed}
    ensures CommitUnit(log, id, outputs).slot.run.state
         == if EndsRun(log.slot.run.assembly, log.slot.claimed[id]) then Completed else Running
  {
    var slot' := CommitUnit(log, id, outputs).slot;
    assert slot'.run.assembly == log.slot.run.assembly && log.slot.claimed[id].node.id in slot'.latest;
  }

  /** On course, a commit completes the run if and only if it is the terminal's. */
  lemma CommitEnds(base: World, rank: map<string, nat>, log: RunLog, id: WorkId, outputs: seq<NamedArtifact>)
    requires OnCourse(base, rank, log.slot) && log.slot.run.state == Running
    requires ClaimsNamed(log.slot) && ClaimsNotDone(log.slot) && id in log.slot.claimed
    requires Supplies(log.slot.run.assembly, log.slot.claimed[id].node.id, outputs)
    ensures CommitUnit(log, id, outputs).slot.run.state
         == if EndsRun(log.slot.run.assembly, log.slot.claimed[id]) then Completed else Running
  {
    hide OnCourse, ClaimsNamed, ClaimsNotDone, Supplies;
    CommitOnCourse(base, rank, log, id, outputs);
    OnCourseState(base, rank, CommitUnit(log, id, outputs).slot);
    CommitState(log, id, outputs);
  }

  /** One claim at a time, or every node on the way to the terminal. */
  ghost predicate Orderly(assembly: Assembly, n: nat) {
    n <= 1 || (AllReachTerminal(assembly) && OneSource(assembly.bindings))
  }

  /** In an orderly wave the terminal's item is claimed alone, so it comes last
    * in whatever order the wave is committed. */
  lemma OrderlyEndsLast(slot: RunSlot, items: seq<WorkItem>)
    requires DoneIsCommitted(slot) && Grounded(slot) && ClaimsNamed(slot) && ClaimsNotDone(slot)
    requires Holding(slot, ItemSet(items)) && Distinct(items) && Orderly(slot.run.assembly, |items|)
    ensures EndsLast(slot.run.assembly, items)
  {
    forall i | 0 <= i < |items| - 1
      ensures !EndsRun(slot.run.assembly, items[i])
    {
      if EndsRun(slot.run.assembly, items[i]) {
        var n := |items| - 1;
        assert items[i] in ItemSet(items) && items[n] in ItemSet(items);
        OtherClaimsDone(slot, items[i], items[n]);
        assert false;
      }
    }
  }

  // ---------------------------------------------------------------- one wave

  lemma NoStallNow(base: World, rank: map<string, nat>, world: World, slot: RunSlot)
    requires OnCourse(base, rank, slot) && Unambiguous(base, world, slot.run.assembly.nodes)
    ensures StallIfIdle(world.modules, slot) == slot
  {
    if slot.run.state == Running {
      NeverShouldStall(base, rank, world, slot);
    }
  }

  ghost predicate Unexpired(slot: RunSlot, now: int) {
    forall id :: id in slot.claimed ==> !Expired(slot.claimed[id], now)
  }

  /** On course, a commit is what its unit does: nothing expires and nothing stalls. */
  lemma CommitSettles(base: World, rank: map<string, nat>, world: World, log: RunLog, w: WorkItem,
                      outputs: seq<NamedArtifact>, now: int)
    requires w.id in log.slot.claimed && log.slot.claimed[w.id] == w && log.slot.run.steps < log.slot.run.maxSteps
    requires OnCourse(base, rank, CommitUnit(log, w.id, outputs).slot)
    requires Unambiguous(base, world, CommitUnit(log, w.id, outputs).slot.run.assembly.nodes)
    requires GoodOutputs(world, log.slot, w, outputs) && Unexpired(log.slot, now)
    ensures Commit(world, log, w.id, w.node.id, outputs, now) == (CommitUnit(log, w.id, outputs), None)
  {
    var committed := CommitUnit(log, w.id, outputs);
    CommitAccepted(world, log, w, outputs, now);
    NoStallNow(base, rank, world, committed.slot);
    assert committed.(slot := committed.slot) == committed;
  }

  lemma ChosenNew(modules: seq<ModuleSlot>, slot: RunSlot, req: ClaimRequest)
    requires DistinctNodeIds(slot.run.assembly.nodes) && slot.claimed == map[]
    ensures AllReady(modules, slot, ChosenFor(modules, slot, req))
    ensures |ChosenFor(modules, slot, req)| <= if req.maxItems == 0 then 1 else req.maxItems
  {
    ChosenReady(modules, slot, req);
  }

  lemma TakenDistinct(slot: RunSlot, cs: seq<Candidate>, now: int)
    requires DistinctUnits(cs)
    ensures Distinct(TakenItems(slot, cs, now))
  {
    TakenUnits(slot, cs, now);
  }

  lemma OnCourseDistinct(base: World, rank: map<string, nat>, slot: RunSlot)
    requires OnCourse(base, rank, slot)
    ensures DistinctNodeIds(slot.run.assembly.nodes)
  {
  }

  lemma ReadyDistinct(modules: seq<ModuleSlot>, slot: RunSlot, cs: seq<Candidate>)
    requires AllReady(modules, slot, cs)
    ensures DistinctUnits(cs)
  {
  }

  lemma ClaimServes(base: World, rank: map<string, nat>, world: World, slot: RunSlot, req: ClaimRequest, now: int)
    requires OnCourse(base, rank, slot) && Unambiguous(base, world, slot.run.assembly.nodes)
    requires slot.run.state == Running && slot.claimed == map[] && FilterAdmits(req, slot.run.assembly.nodes)
    ensures var chosen := ChosenFor(world.modules, slot, req);
      && Reap(slot, now) == slot && Scheduler.ClaimReady(world.modules, slot, req, now) == TakeAll(slot, chosen, now)
      && chosen != []
  {
    hide OnCourse, Unambiguous, FilterAdmits, ChosenFor, TakeAll;
    NothingToReap(slot, now);
    WaveClaims(base, rank, world, slot, req);
  }

  /** A wave claims something, and what it claims is what the run then holds. */
  lemma ClaimOpens(base: World, rank: map<string, nat>, world: World, slot: RunSlot, req: ClaimRequest, now: int)
    requires OnCourse(base, rank, slot) && Unambiguous(base, world, slot.run.assembly.nodes)
    requires slot.run.state == Running && slot.claimed == map[] && FilterAdmits(req, slot.run.assembly.nodes)
    ensures var chosen := ChosenFor(world.modules, slot, req);
      var items, slot' := TakenItems(slot, chosen, now), TakeAll(slot, chosen, now);
      && Reap(slot, now) == slot && Scheduler.ClaimReady(world.modules, slot, req, now) == slot'
      && items != [] && Distinct(items) && |items| <= (if req.maxItems == 0 then 1 else req.maxItems)
      && OnCourse(base, rank, slot') && slot'.run == slot.run
      && Holding(slot', ItemSet(items)) && LeasedAt(slot, ItemSet(items), now)
  {
    hide *;
    OnCourseDistinct(base, rank, slot);
    ClaimServes(base, rank, world, slot, req, now);
    ChosenNew(world.modules, slot, req);
    var chosen := ChosenFor(world.modules, slot, req);
    TakeAllOnCourse(base, rank, world, slot, chosen, now);
    ReadyDistinct(world.modules, slot, chosen);
    TakenDistinct(slot, chosen, now);
    TakesFromNothing(slot, chosen, now);
  }

  lemma TakesFromNothing(slot: RunSlot, cs: seq<Candidate>, now: int)
    requires slot.claimed == map[] && DistinctUnits(cs)
    ensures Holding(TakeAll(slot, cs, now), ItemSet(TakenItems(slot, cs, now)))
    ensures LeasedAt(slot, ItemSet(TakenItems(slot, cs, now)), now)
  {
    TakeAllHolds(slot, cs, now, {});
    assert {} + ItemSet(TakenItems(slot, cs, now)) == ItemSet(TakenItems(slot, cs, now));
  }
}
