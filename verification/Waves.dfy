/** A host's waves: what it is configured with, which work it claims, in which
  * order it commits what it claimed, and when that order ends in an error. */
module Waves {
  import opened Base
  import opened Types
  import opened Strings
  import opened Scheduler
  import opened Moves
  import opened Safety
  import opened Accounting
  import opened NoStall
  import opened Integrity
  import opened KernelRuns
  import opened Evaluator
  import opened Convergence
  import opened Memo
  import opened Policies
  import opened Driving
  import opened Steps
  import opened Traces

  datatype HostError = NoPlugin | StepFailed | Refused(error: KernelError)

  /** Commits and failures add no claim and change none. */
  ghost predicate OnlyDrops(slot: RunSlot, slot': RunSlot) {
    forall id :: id in slot'.claimed ==> id in slot.claimed && slot'.claimed[id] == slot.claimed[id]
  }

  lemma SameDrops(slot: RunSlot)
    ensures OnlyDrops(slot, slot)
  {
  }

  lemma CommitDrops(world: World, log: RunLog, id: WorkId, nodeId: string, outputs: seq<NamedArtifact>, now: int)
    ensures OnlyDrops(log.slot, Commit(world, log, id, nodeId, outputs, now).0.slot)
  {
  }

  lemma RefusedAdds(world: World, log: RunLog, id: WorkId, nodeId: string, outputs: seq<NamedArtifact>, now: int)
    requires Commit(world, log, id, nodeId, outputs, now).1.Some?
    ensures Commit(world, log, id, nodeId, outputs, now).0.derivations == log.derivations
  {
  }

  lemma FailDrops(world: World, log: RunLog, id: WorkId, now: int)
    ensures OnlyDrops(log.slot, Serve(world, log, RFail(id, false, now)).slot)
    ensures id !in Serve(world, log, RFail(id, false, now)).slot.claimed
  {
  }

  lemma CommitAppends(world: World, log: RunLog, w: WorkItem, nodeId: string, outputs: seq<NamedArtifact>, now: int)
    requires w.id in log.slot.claimed ==> log.slot.claimed[w.id] == w
    requires Commit(world, log, w.id, nodeId, outputs, now).1.None?
    ensures Committed(log, Commit(world, log, w.id, nodeId, outputs, now).0, w, outputs)
  {
  }

  lemma AcceptedFault(world: World, log: RunLog, id: WorkId, nodeId: string, outputs: seq<NamedArtifact>, now: int)
    requires Commit(world, log, id, nodeId, outputs, now).1.None?
    ensures id in Reap(log.slot, now).claimed && CommitFault(world, Reap(log.slot, now), id, nodeId, outputs).None?
  {
  }

  /** What a run commits has names and artifacts. */
  lemma AcceptedFilled(t: Trace, r: string, world: World, log: RunLog, id: WorkId, nodeId: string,
                       outputs: seq<NamedArtifact>, now: int)
    requires Traced(t, r, world, log) && log.slot.run.state == Running && "" !in world.traits
    requires Commit(world, log, id, nodeId, outputs, now).1.None?
    ensures Filled(outputs)
  {
    AcceptedFault(world, log, id, nodeId, outputs, now);
    var beat := RBeat([], 0, now);
    var reaped := log.(slot := Reap(log.slot, now));
    assert Serve(world, log, beat) == reaped;
    TracedCall(t, r, world, log, beat);
    var base := TracedDriveable(Then(t, world, beat), r, world, reaped);
    CommittedFilled(base, world, r, reaped, id, nodeId, outputs);
  }

  // ---------------------------------------------------------------- a wave, from the host's side

  /** Leases outlast the wave they were taken in. */
  ghost predicate Prompt(clock: nat -> int, batch: nat, lease: nat) {
    forall i: nat, j: nat :: i <= j <= i + batch ==> !(0 < LeaseEnd(clock(i), lease) <= clock(j))
  }

  /** The claimed item, if it is still held. */
  ghost predicate AsClaimed(slot: RunSlot, w: WorkItem) {
    w.id in slot.claimed ==> slot.claimed[w.id] == w
  }

  ghost predicate Committed(log: RunLog, log': RunLog, w: WorkItem, outputs: seq<NamedArtifact>) {
    && log'.derivations == log.derivations + [DerivationOf(w, outputs)]
    && log'.slot.run.steps == log.slot.run.steps + 1 && log'.slot.run.maxSteps == log.slot.run.maxSteps
    && log'.slot.run.assembly == log.slot.run.assembly && log'.slot.defaultLeaseMs == log.slot.defaultLeaseMs
  }

  /** A hit on the execution of this unit. */
  ghost predicate HitFor(plugins: Plugins, w: WorkItem, outputs: seq<NamedArtifact>) {
    var result := Execution(plugins, w);
    w.node.mod in plugins && result.Some? && Filled(NamedOf(result.value))
    && outputs == HitOutputs(NamedOf(result.value))
  }

  ghost predicate Storable(t: Target, accepts: StepArtifact -> bool, o: StepArtifact) {
    accepts(o) && o.traits == t.contentOf(o.id)
  }

  /** One more node has committed. */
  ghost predicate Advanced(slot: RunSlot, slot': RunSlot, node: string) {
    slot.latest.Keys <= slot'.latest.Keys && node in slot'.latest && node !in slot.latest
  }

  /** A commit of a wave: its node is new, and the terminal's ends the run. */
  ghost predicate CommittedInWave(before: RunLog, after: RunLog, w: WorkItem) {
    && before.slot.run.state == Running && Advanced(before.slot, after.slot, w.node.id)
    && after.slot.run.state == (if EndsRun(before.slot.run.assembly, w) then Completed else Running)
  }

  /** A commit of a wave that comes after the run has completed. */
  ghost predicate RefusedInWave(before: RunLog, after: RunLog, err: Option<HostError>) {
    before.slot.run.state == Completed && after == before && err == Some(Refused(RunClosed(Completed)))
  }

  /** How a wave fails: the run has completed, and still holds claims. */
  ghost predicate Overrun(log: RunLog, err: HostError) {
    err == Refused(RunClosed(Completed)) && log.slot.run.state == Completed && log.slot.claimed != map[]
  }

  lemma StillLeased(clock: nat -> int, batch: nat, slot: RunSlot, pending: set<WorkItem>, since: nat, tick: nat)
    requires Prompt(clock, batch, slot.defaultLeaseMs) && Holding(slot, pending)
    requires LeasedAt(slot, pending, clock(since)) && since <= tick <= since + batch
    ensures Unexpired(slot, clock(tick))
  {
  }

  lemma CommitStepsOn(log: RunLog, w: WorkItem, outputs: seq<NamedArtifact>)
    requires w.id in log.slot.claimed && log.slot.claimed[w.id] == w
    requires DoneIsCommitted(log.slot) && ClaimsNamed(log.slot) && ClaimsNotDone(log.slot)
    ensures Advanced(log.slot, CommitUnit(log, w.id, outputs).slot, w.node.id)
    ensures Committed(log, CommitUnit(log, w.id, outputs), w, outputs)
  {
    assert w.unit == OnceUnit(w.node.id);
    var slot, slot' := log.slot, CommitUnit(log, w.id, outputs).slot;
    assert slot'.latest.Keys == slot.latest.Keys + {w.node.id};
  }

  /** A commit inside a wave of a run that is on course. */
  lemma CommitOnTrack(tr: Trace, r: string, t: Target, world: World, log: RunLog, w: WorkItem, pending: set<WorkItem>,
                      outputs: seq<NamedArtifact>, now: int)
    requires Traced(tr, r, world, log) && OnCourse(t.base, t.rank, log.slot) && log.slot.run.state == Running
    requires Unambiguous(t.base, world, log.slot.run.assembly.nodes)
    requires Holding(log.slot, pending) && w in pending
    requires GoodOutputs(world, log.slot, w, outputs) && Unexpired(log.slot, now)
    ensures var result := Commit(world, log, w.id, w.node.id, outputs, now);
      && result.1.None? && OnCourse(t.base, t.rank, result.0.slot) && Holding(result.0.slot, pending - {w})
      && CommittedInWave(log, result.0, w) && Committed(log, result.0, w, outputs)
  {
    var base := TracedDriveable(tr, r, world, log);
    CommitFromSafe(t, world, log, w, pending, outputs, now);
  }

  lemma CommitFromSafe(t: Target, world: World, log: RunLog, w: WorkItem, pending: set<WorkItem>,
                       outputs: seq<NamedArtifact>, now: int)
    requires ClaimsNamed(log.slot) && ClaimsNotDone(log.slot) && StepsBounded(log.slot.run)
    requires OnCourse(t.base, t.rank, log.slot) && log.slot.run.state == Running
    requires Unambiguous(t.base, world, log.slot.run.assembly.nodes)
    requires Holding(log.slot, pending) && w in pending
    requires GoodOutputs(world, log.slot, w, outputs) && Unexpired(log.slot, now)
    ensures var committed := CommitUnit(log, w.id, outputs);
      && Commit(world, log, w.id, w.node.id, outputs, now) == (committed, None)
      && OnCourse(t.base, t.rank, committed.slot) && Holding(committed.slot, pending - {w})
      && CommittedInWave(log, committed, w) && Committed(log, committed, w, outputs)
  {
    assert Supplies(log.slot.run.assembly, w.node.id, outputs);
    CommitOnCourse(t.base, t.rank, log, w.id, outputs);
    CommitEnds(t.base, t.rank, log, w.id, outputs);
    CommitStepsOn(log, w, outputs);
    CommitSettles(t.base, t.rank, world, log, w, outputs, now);
    CommitReleases(log.slot, log, w, pending, outputs);
  }

  lemma NodePlugged(t: Target, plugins: Plugins, accepts: StepArtifact -> bool, assembly: Assembly, w: WorkItem)
    requires Reliable(t, plugins, accepts, assembly) && w.node in assembly.nodes
    ensures w.node.mod in plugins
  {
  }

  lemma ExecutionStorable(t: Target, plugins: Plugins, accepts: StepArtifact -> bool, assembly: Assembly, w: WorkItem)
    requires Reliable(t, plugins, accepts, assembly) && w.node in assembly.nodes
    ensures Execution(plugins, w).Some?
    ensures var outs := Execution(plugins, w).value;
      forall i :: 0 <= i < |outs| ==> Storable(t, accepts, outs[i])
  {
    var outs := Execution(plugins, w).value;
    assert GoodStep(t, accepts, assembly, w.node, outs);
    var cap := CapabilityFor(t.base.modules, w.node).value;
    forall i | 0 <= i < |outs|
      ensures Storable(t, accepts, outs[i])
    {
      assert GoodOutput(t, accepts, cap, outs[i]);
    }
  }

  /** Left for execution: still held as claimed, with a plugin for it. */
  ghost predicate Deferred(slot: RunSlot, plugins: Plugins, w: WorkItem) {
    AsClaimed(slot, w) && Filled(w.inputs) && w.node.mod in plugins
  }

  lemma StillClaimed(slot: RunSlot, slot': RunSlot, items: seq<WorkItem>, from: nat)
    requires OnlyDrops(slot, slot') && forall j :: from <= j < |items| ==> AsClaimed(slot, items[j])
    ensures forall j :: from <= j < |items| ==> AsClaimed(slot', items[j])
  {
  }

  lemma StillDeferred(slot: RunSlot, slot': RunSlot, plugins: Plugins, items: seq<WorkItem>)
    requires OnlyDrops(slot, slot') && forall j :: 0 <= j < |items| ==> Deferred(slot, plugins, items[j])
    ensures forall j :: 0 <= j < |items| ==> Deferred(slot', plugins, items[j])
  {
  }

  /** Steps taken between two states of a run whose frozen parts stay. */
  ghost predicate StepsTaken(log: RunLog, log': RunLog, k: int) {
    && log'.slot.run.steps == log.slot.run.steps + k && log'.slot.run.maxSteps == log.slot.run.maxSteps
    && log'.slot.run.assembly == log.slot.run.assembly && log'.slot.defaultLeaseMs == log.slot.defaultLeaseMs
  }

  /** Since entry `n` no node was executed twice, and all of them committed. */
  ghost predicate ExecutedOnce(executed: seq<AssemblyNode>, n: nat, slot: RunSlot) {
    && (forall k :: n <= k < |executed| ==> executed[k].id in slot.latest)
    && (forall j, k :: n <= j < k < |executed| ==> executed[j].id != executed[k].id)
  }

  lemma ExecutedNone(executed: seq<AssemblyNode>, slot: RunSlot)
    ensures ExecutedOnce(executed, |executed|, slot)
  {
  }

  lemma OnceMore(executed: seq<AssemblyNode>, executed': seq<AssemblyNode>, n: nat, slot: RunSlot, slot': RunSlot,
                 node: AssemblyNode)
    requires n <= |executed| && ExecutedOnce(executed, n, slot) && Advanced(slot, slot', node.id)
    requires executed' == executed || executed' == executed + [node]
    ensures ExecutedOnce(executed', n, slot')
  {
  }

  lemma FirstOfRest(items: seq<WorkItem>, i: nat)
    requires Distinct(items) && i < |items|
    ensures items[i] in ItemSet(items[i..]) && ItemSet(items[i..]) - {items[i]} == ItemSet(items[i + 1..])
    ensures items[i] !in items[i + 1..]
  {
    assert items[i..] == [items[i]] + items[i + 1..];
  }

  lemma OneLess(items: seq<WorkItem>, i: nat, deferred: seq<WorkItem>)
    requires Distinct(items) && i < |items| && forall w :: w in deferred ==> w !in items[i..]
    ensures var pending := ItemSet(items[i..]) + ItemSet(deferred);
      && items[i] in pending && pending - {items[i]} == ItemSet(items[i + 1..]) + ItemSet(deferred)
      && pending == ItemSet(items[i + 1..]) + ItemSet(deferred + [items[i]])
  {
    FirstOfRest(items, i);
    assert items[i] in items[i..];
  }

  // ---------------------------------------------------------------- claiming, from the host's side

  lemma FreshCandidates(world: World, slot: RunSlot, req: ClaimRequest)
    requires Safe(slot) && slot.run.state == Running && DistinctNodeIds(slot.run.assembly.nodes)
    ensures AllReady(world.modules, slot, ChosenFor(world.modules, slot, req))
    ensures var chosen := ChosenFor(world.modules, slot, req);
      forall i :: 0 <= i < |chosen| ==> WorkId(slot.run.id, chosen[i].unit) !in slot.claimed
  {
    ChosenReady(world.modules, slot, req);
    var chosen := ChosenFor(world.modules, slot, req);
    forall i | 0 <= i < |chosen|
      ensures WorkId(slot.run.id, chosen[i].unit) !in slot.claimed
    {
      ReadyIsNew(world, slot, chosen[i]);
    }
  }

  lemma HeldByAll(slot: RunSlot)
    requires ClaimsNamed(slot)
    ensures Holding(slot, set id | id in slot.claimed :: slot.claimed[id])
  {
    forall w | w in (set id | id in slot.claimed :: slot.claimed[id])
      ensures w.id in slot.claimed && slot.claimed[w.id] == w
    {
      var id :| id in slot.claimed && slot.claimed[id] == w;
    }
  }

  /** What a claim hands out is held by the run afterwards, once each. */
  lemma TakenHeld(world: World, slot: RunSlot, req: ClaimRequest, now: int)
    requires Safe(slot) && slot.run.state == Running && DistinctNodeIds(slot.run.assembly.nodes)
    ensures var chosen := ChosenFor(world.modules, slot, req);
      var items := TakenItems(slot, chosen, now);
      && Distinct(items)
      && forall i :: 0 <= i < |items| ==>
           items[i].id in TakeAll(slot, chosen, now).claimed
           && TakeAll(slot, chosen, now).claimed[items[i].id] == items[i]
  {
    var chosen := ChosenFor(world.modules, slot, req);
    FreshCandidates(world, slot, req);
    HeldByAll(slot);
    TakeAllHolds(slot, chosen, now, set id | id in slot.claimed :: slot.claimed[id]);
    TakenDistinct(slot, chosen, now);
  }

  /** The items of a claim: held as handed out, and with named inputs. */
  lemma ClaimedItems(tr: Trace, r: string, world: World, log: RunLog, req: ClaimRequest, now: int)
    requires Traced(tr, r, world, log) && log.slot.run.state == Running && "" !in world.traits
    ensures var reaped := Reap(log.slot, now);
      var items := TakenItems(reaped, ChosenFor(world.modules, reaped, req), now);
      var slot' := Scheduler.ClaimReady(world.modules, log.slot, req, now);
      && Distinct(items)
      && (forall i :: 0 <= i < |items| ==>
            items[i].id in slot'.claimed && slot'.claimed[items[i].id] == items[i] && Filled(items[i].inputs))
      && (items != [] ==> slot'.run == log.slot.run && slot'.defaultLeaseMs == log.slot.defaultLeaseMs)
  {
    var beat, claim := RBeat([], 0, now), RClaim(req, now);
    var reaped := Reap(log.slot, now);
    assert Serve(world, log, beat) == log.(slot := reaped);
    TracedCall(tr, r, world, log, beat);
    var base := TracedDriveable(Then(tr, world, beat), r, world, log.(slot := reaped));
    TakenHeld(world, reaped, req, now);
    TakeAllRun(reaped, ChosenFor(world.modules, reaped, req), now);
    TracedCall(tr, r, world, log, claim);
    TracedGenuine(Then(tr, world, claim), r, world, Serve(world, log, claim));
    ClaimsFilled(world, r, Serve(world, log, claim));
  }

  // ---------------------------------------------------------------- the host's view of its run

  /** What a host is configured with. `clock` is the clock's successive readings;
    * `accepts` is the store's policy on inline content. */
  datatype Setup = Setup(
    plugins: Plugins, accepts: StepArtifact -> bool, clock: nat -> int, policy: HostPolicy, runId: string)

  lemma ListedNames(names: seq<string>, keys: set<string>)
    requires multiset(names) == multiset(keys)
    ensures forall m :: m in names <==> m in keys
    ensures names == [] <==> keys == {}
    ensures names == [""] <==> keys == {""}
  {
    assert forall m :: m in names <==> m in multiset(names);
    assert |names| == |multiset(names)| == |multiset(keys)| == |keys|;
    if keys == {""} {
      assert |names| == 1 && names[0] in keys;
    }
  }

  /** Which modules' work the host claims. A list of one empty name filters
    * nothing, like an empty list. */
  predicate ModuleAllowed(s: Setup, mod: string) {
    if s.policy.claimModules.Some? then
      s.policy.claimModules.value == [] || s.policy.claimModules.value == [""] || mod in s.policy.claimModules.value
    else s.plugins.Keys == {} || s.plugins.Keys == {""} || mod in s.plugins
  }

  /** The run is traced, every call on it was honest, records are sound, addresses
    * are never empty. */
  ghost predicate Sound(s: Setup, trace: Trace, world: World, log: RunLog, memo: map<MemoKey, MemoRecord>) {
    && Traced(trace, s.runId, world, log) && Continues(s.plugins, TakenUpAs(trace), trace)
    && "" !in world.traits && MemoSound(s.plugins, memo)
    && forall o :: s.accepts(o) ==> o.id != ""
  }

  /** A host may take any genuine run up with an empty memo store. */
  lemma TakenUpSound(s: Setup, world: World, log: RunLog)
    requires Genuine(world, s.runId, log) && "" !in world.traits && forall o :: s.accepts(o) ==> o.id != ""
    ensures Sound(s, TakenUp(world, log), world, log, map[])
  {
    hide Genuine;
    assert WellMade(TakenUp(world, log), s.runId);
  }

  /** Nothing stands in the way of this run: coordinates stay unambiguous, no
    * addresses clash, plugins are reliable and a wave takes less than a lease. */
  ghost predicate Settled(s: Setup, t: Target, world: World, slot: RunSlot) {
    && Unambiguous(t.base, world, slot.run.assembly.nodes) && AddressesHonest(t, world)
    && Reliable(t, s.plugins, s.accepts, slot.run.assembly)
    && Prompt(s.clock, Batch(s.policy), slot.defaultLeaseMs)
  }

  /** In a wave claimed at tick `since`, with these items still to finish. */
  ghost predicate WaveHolds(s: Setup, t: Target, world: World, slot: RunSlot, ticks: nat, pending: set<WorkItem>,
                            since: nat) {
    && Settled(s, t, world, slot) && OnCourse(t.base, t.rank, slot)
    && Holding(slot, pending) && LeasedAt(slot, pending, s.clock(since))
    && since < ticks && ticks + |pending| <= since + 1 + Batch(s.policy)
  }

  /** Between waves of a run that will complete. */
  ghost predicate Promising(s: Setup, t: Target, world: World, slot: RunSlot) {
    && Settled(s, t, world, slot) && OnCourse(t.base, t.rank, slot) && slot.claimed == map[]
    && ClaimsAll(s, slot.run.assembly)
  }

  /** Closed, at capacity, or with nothing ready that the host may claim. */
  ghost predicate Idle(s: Setup, world: World, slot: RunSlot) {
    || slot.run.state != Running || WantedItems(slot, Batch(s.policy)) == 0
    || forall n :: n in slot.run.assembly.nodes && ModuleAllowed(s, n.mod) ==> ReadyUnit(world.modules, slot, n).None?
  }

  /** The host claims work of every module in the assembly. */
  ghost predicate ClaimsAll(s: Setup, assembly: Assembly) {
    forall i :: 0 <= i < |assembly.nodes| ==> ModuleAllowed(s, assembly.nodes[i].mod)
  }

  /** Without a list of modules it does: every node has a plugin. */
  lemma OwnModules(s: Setup, t: Target, assembly: Assembly)
    requires Reliable(t, s.plugins, s.accepts, assembly) && s.policy.claimModules.None?
    ensures ClaimsAll(s, assembly)
  {
    forall i | 0 <= i < |assembly.nodes|
      ensures ModuleAllowed(s, assembly.nodes[i].mod)
    {
      NodePlugged(t, s.plugins, s.accepts, assembly,
                  WorkItem(WorkId("", OnceUnit("")), assembly.nodes[i], [], OnceUnit(""), 0, 0));
    }
  }

  /** A fresh pipeline of a validated assembly whose nodes fire once, all of whose
    * modules the host claims, is one. */
  lemma FreshPromising(s: Setup, t: Target, world: World, start: RunLog)
    requires Fresh(start) && Setting(t.base, t.rank, start.slot) && Settled(s, t, world, start.slot)
    requires s.policy.claimModules.None? || ClaimsAll(s, start.slot.run.assembly)
    ensures Promising(s, t, world, start.slot)
  {
    FreshOnCourse(t.base, t.rank, start);
    if s.policy.claimModules.None? {
      OwnModules(s, t, start.slot.run.assembly);
    }
  }

  lemma NothingClaimed(s: Setup, world: World, slot: RunSlot, req: ClaimRequest, now: int)
    requires req.maxItems == Batch(s.policy) && forall n :: MatchesFilter(req, n) <==> ModuleAllowed(s, n.mod)
    requires ChosenFor(world.modules, Reap(slot, now), req) == []
    ensures Idle(s, world, Scheduler.ClaimReady(world.modules, slot, req, now))
  {
    var reaped := Reap(slot, now);
    var nodes := slot.run.assembly.nodes;
    if WantedItems(reaped, Batch(s.policy)) != 0 {
      forall n | n in nodes && ModuleAllowed(s, n.mod)
        ensures ReadyUnit(world.modules, reaped, n).None?
      {
        var i :| 0 <= i < |nodes| && nodes[i] == n;
        if ReadyUnit(world.modules, reaped, n).Some? {
          SomeCandidate(world.modules, reaped, req, nodes, i);
        }
      }
    }
  }

  lemma WaveOpens(s: Setup, t: Target, world: World, slot: RunSlot, req: ClaimRequest, tick: nat)
    requires Promising(s, t, world, slot) && slot.run.state == Running
    requires req.maxItems == Batch(s.policy) && forall n :: MatchesFilter(req, n) <==> ModuleAllowed(s, n.mod)
    ensures var now := s.clock(tick);
      var items := TakenItems(Reap(slot, now), ChosenFor(world.modules, Reap(slot, now), req), now);
      var slot' := Scheduler.ClaimReady(world.modules, slot, req, now);
      && items != [] && WaveHolds(s, t, world, slot', tick + 1, ItemSet(items), tick)
      && slot'.latest == slot.latest && slot'.run == slot.run && |items| <= Batch(s.policy)
  {
    var now := s.clock(tick);
    ClaimOpens(t.base, t.rank, world, slot, req, now);
    var items := TakenItems(slot, ChosenFor(world.modules, slot, req), now);
    TakeAllRun(slot, ChosenFor(world.modules, slot, req), now);
    SetNoLarger(items);
  }

  lemma {:induction false} SetNoLarger(items: seq<WorkItem>)
    ensures |ItemSet(items)| <= |items|
  {
    if items == [] {
      assert ItemSet(items) == {};
    } else {
      SetNoLarger(items[1..]);
      assert items == [items[0]] + items[1..];
      assert ItemSet(items) == {items[0]} + ItemSet(items[1..]);
    }
  }

  lemma WaveCloses(s: Setup, t: Target, world: World, before: RunSlot, slot: RunSlot, ticks: nat, since: nat)
    requires WaveHolds(s, t, world, slot, ticks, {}, since)
    requires slot.run.assembly == before.run.assembly && ClaimsAll(s, before.run.assembly)
    ensures Promising(s, t, world, slot)
  {
    assert slot.claimed == map[];
  }

  lemma ClosedIsIdle(s: Setup, world: World, slot: RunSlot)
    requires slot.run.state != Running
    ensures Idle(s, world, slot)
  {
  }

  lemma ClosedIsCompleted(s: Setup, t: Target, world: World, slot: RunSlot)
    requires Promising(s, t, world, slot) && slot.run.state != Running
    ensures slot.run.state == Completed && slot.claimed == map[]
  {
  }

  lemma StepsLeft(s: Setup, tr: Trace, world: World, log: RunLog, memo: map<MemoKey, MemoRecord>)
    requires Sound(s, tr, world, log, memo) && log.slot.run.state == Running
    ensures log.slot.run.steps < log.slot.run.maxSteps
  {
    var base := TracedDriveable(tr, s.runId, world, log);
  }

  // ---------------------------------------------------------------- the order of a wave's commits

  /** A record of the unit that the policy lets the host use. */
  ghost predicate Remembered(s: Setup, memo: map<MemoKey, MemoRecord>, w: WorkItem) {
    && s.policy.memoEnabled && Allows(s.policy.memoNodes, w.node.id)
    && w.node.mod in s.plugins && s.plugins[w.node.mod].digest != ""
    && KeyFor(s.plugins[w.node.mod].digest, w) in memo
  }

  /** What committing the unit's record commits. */
  ghost function RecordedOutputs(s: Setup, memo: map<MemoKey, MemoRecord>, w: WorkItem): seq<NamedArtifact>
    requires Remembered(s, memo, w)
  {
    RecordOutputs(memo[KeyFor(s.plugins[w.node.mod].digest, w)].outputs)
  }

  /** The unit is a memo hit: its record's artifacts are all still stored. */
  ghost predicate HasHit(s: Setup, memo: map<MemoKey, MemoRecord>, world: World, w: WorkItem) {
    Remembered(s, memo, w) && ItemsStored(world.traits, RecordedOutputs(s, memo, w))
  }

  ghost function Hits(s: Setup, memo: map<MemoKey, MemoRecord>, world: World, items: seq<WorkItem>): seq<WorkItem> {
    if items == [] then []
    else
      var last := items[|items| - 1];
      Hits(s, memo, world, items[..|items| - 1]) + if HasHit(s, memo, world, last) then [last] else []
  }

  ghost function Misses(s: Setup, memo: map<MemoKey, MemoRecord>, world: World, items: seq<WorkItem>): seq<WorkItem> {
    if items == [] then []
    else
      var last := items[|items| - 1];
      Misses(s, memo, world, items[..|items| - 1]) + if HasHit(s, memo, world, last) then [] else [last]
  }

  lemma SortNone(s: Setup, memo: map<MemoKey, MemoRecord>, world: World)
    ensures Hits(s, memo, world, []) == [] && Misses(s, memo, world, []) == []
  {
  }

  lemma SortOne(s: Setup, memo: map<MemoKey, MemoRecord>, world: World, items: seq<WorkItem>, i: nat)
    requires i < |items|
    ensures Hits(s, memo, world, items[..i + 1])
         == Hits(s, memo, world, items[..i]) + if HasHit(s, memo, world, items[i]) then [items[i]] else []
    ensures Misses(s, memo, world, items[..i + 1])
         == Misses(s, memo, world, items[..i]) + if HasHit(s, memo, world, items[i]) then [] else [items[i]]
  {
    assert items[..i + 1][..i] == items[..i];
  }

  lemma {:induction false} HitsPrefix(s: Setup, memo: map<MemoKey, MemoRecord>, world: World, items: seq<WorkItem>,
                                      i: nat)
    requires i <= |items|
    ensures Hits(s, memo, world, items[..i]) <= Hits(s, memo, world, items)
    decreases |items| - i
  {
    if i < |items| {
      SortOne(s, memo, world, items, i);
      HitsPrefix(s, memo, world, items, i + 1);
    } else {
      assert items[..i] == items;
    }
  }

  /** The commits of a wave so far: the run goes on until the terminal's, and
    * nothing has been committed after that. */
  ghost predicate Going(assembly: Assembly, done: seq<WorkItem>, state: RunState) {
    && (state == Running <==> forall j :: 0 <= j < |done| ==> !EndsRun(assembly, done[j]))
    && EndsLast(assembly, done)
  }

  lemma GoingFrom(assembly: Assembly, state: RunState)
    ensures state == Running ==> Going(assembly, [], state)
  {
  }

  lemma GoingEnds(assembly: Assembly, done: seq<WorkItem>, state: RunState)
    requires Going(assembly, done, state)
    ensures EndsLast(assembly, done)
  {
  }

  lemma GoingOn(assembly: Assembly, done: seq<WorkItem>, w: WorkItem)
    requires Going(assembly, done, Running)
    ensures Going(assembly, done + [w], if EndsRun(assembly, w) then Completed else Running)
  {
    var longer := done + [w];
    assert longer[|done|] == w;
    forall j | 0 <= j < |done|
      ensures longer[j] == done[j] && !EndsRun(assembly, longer[j])
    {
    }
  }

  lemma GoingStops(assembly: Assembly, done: seq<WorkItem>, state: RunState, order: seq<WorkItem>)
    requires Going(assembly, done, state) && state != Running && done < order
    ensures !EndsLast(assembly, order)
  {
    var j :| 0 <= j < |done| && EndsRun(assembly, done[j]);
    assert order[j] == done[j];
  }

  lemma EndsLastPrefix(assembly: Assembly, done: seq<WorkItem>, order: seq<WorkItem>)
    requires done <= order && EndsLast(assembly, order)
    ensures EndsLast(assembly, done)
  {
    forall j | 0 <= j < |done| - 1
      ensures !EndsRun(assembly, done[j])
    {
      assert order[j] == done[j];
    }
  }

  /** These items, in this order, and nothing else was committed. */
  ghost predicate Sequenced(log: RunLog, log': RunLog, items: seq<WorkItem>) {
    && |log'.derivations| == |log.derivations| + |items| && log.derivations <= log'.derivations
    && forall i :: 0 <= i < |items| ==> IsDerivationOf(log'.derivations[|log.derivations| + i], items[i])
  }

  /** What was committed last. */
  ghost function LastOutputs(log: RunLog): seq<NamedArtifact> {
    if log.derivations == [] then [] else log.derivations[|log.derivations| - 1].outputs
  }

  lemma CommittedLast(log: RunLog, log': RunLog, w: WorkItem, outputs: seq<NamedArtifact>)
    requires Committed(log, log', w, outputs)
    ensures Committed(log, log', w, LastOutputs(log'))
  {
  }

  lemma SequencedSince(log: RunLog, mid: RunLog, log': RunLog, items: seq<WorkItem>)
    requires Sequenced(mid, log', items) && mid.derivations == log.derivations
    ensures Sequenced(log, log', items)
  {
  }

  ghost predicate IsDerivationOf(d: Derivation, w: WorkItem) {
    d == DerivationOf(w, d.outputs)
  }

  lemma SequencedNone(log: RunLog)
    ensures Sequenced(log, log, [])
  {
  }

  lemma SequencedOn(log: RunLog, mid: RunLog, log': RunLog, items: seq<WorkItem>, w: WorkItem,
                    outputs: seq<NamedArtifact>)
    requires Sequenced(log, mid, items) && Committed(mid, log', w, outputs)
    ensures Sequenced(log, log', items + [w])
  {
    var n, longer := |log.derivations|, items + [w];
    forall i | 0 <= i < |longer|
      ensures IsDerivationOf(log'.derivations[n + i], longer[i])
    {
      if i < |items| {
        assert log'.derivations[n + i] == mid.derivations[n + i];
        assert IsDerivationOf(mid.derivations[n + i], items[i]);
      }
    }
  }

  // ---------------------------------------------------------------- a wave as a caller can foresee it

  /** The claim of a wave, up to the order in which it lists the host's modules. */
  ghost function WaveRequest(s: Setup): ClaimRequest {
    var mods := if s.policy.claimModules.Some? then s.policy.claimModules.value else Listing(s.plugins.Keys);
    if |mods| == 1 then ClaimRequest(s.runId, mods[0], [], [], Batch(s.policy))
    else ClaimRequest(s.runId, "", mods, [], Batch(s.policy))
  }

  /** The items a wave claims. */
  ghost function WaveItems(s: Setup, world: World, slot: RunSlot, now: int): seq<WorkItem> {
    var reaped := Reap(slot, now);
    TakenItems(reaped, ChosenFor(world.modules, reaped, WaveRequest(s)), now)
  }

  /** One after another as claimed; or, side by side, memo hits before executions. */
  ghost function CommitOrder(s: Setup, memo: map<MemoKey, MemoRecord>, world: World,
                             items: seq<WorkItem>): seq<WorkItem> {
    if Concurrency(s.policy) <= 1 || |items| <= 1 then items
    else Hits(s, memo, world, items) + Misses(s, memo, world, items)
  }

  lemma OrderIs(s: Setup, memo: map<MemoKey, MemoRecord>, world: World, items: seq<WorkItem>)
    ensures CommitOrder(s, memo, world, items) ==
      if Concurrency(s.policy) <= 1 || |items| <= 1 then items
      else Hits(s, memo, world, items) + Misses(s, memo, world, items)
  {
  }

  /** The wave commits nothing after the terminal's item. */
  ghost predicate WaveEndsLast(s: Setup, memo: map<MemoKey, MemoRecord>, world: World, slot: RunSlot, now: int) {
    EndsLast(slot.run.assembly, CommitOrder(s, memo, world, WaveItems(s, world, slot, now)))
  }

  lemma {:induction false} SameCandidates(modules: seq<ModuleSlot>, slot: RunSlot, a: ClaimRequest, b: ClaimRequest,
                                          nodes: seq<AssemblyNode>)
    requires forall n :: MatchesFilter(a, n) <==> MatchesFilter(b, n)
    ensures Candidates(modules, slot, a, nodes) == Candidates(modules, slot, b, nodes)
  {
    if nodes != [] {
      SameCandidates(modules, slot, a, b, nodes[1..]);
    }
  }

  lemma RequestAllows(s: Setup, mods: seq<string>, req: ClaimRequest)
    requires if s.policy.claimModules.Some? then mods == s.policy.claimModules.value
             else multiset(mods) == multiset(s.plugins.Keys)
    requires req == if |mods| == 1 then ClaimRequest(s.runId, mods[0], [], [], Batch(s.policy))
                    else ClaimRequest(s.runId, "", mods, [], Batch(s.policy))
    ensures forall n :: MatchesFilter(req, n) <==> ModuleAllowed(s, n.mod)
  {
    if s.policy.claimModules.None? {
      ListedNames(mods, s.plugins.Keys);
    }
    if |mods| == 1 {
      assert mods == [mods[0]];
    }
  }

  /** Whatever order the host lists its modules in, the wave is the same. */
  lemma WaveIs(s: Setup, world: World, slot: RunSlot, req: ClaimRequest, now: int)
    requires req.maxItems == Batch(s.policy) && forall n :: MatchesFilter(req, n) <==> ModuleAllowed(s, n.mod)
    ensures var reaped := Reap(slot, now);
      TakenItems(reaped, ChosenFor(world.modules, reaped, req), now) == WaveItems(s, world, slot, now)
  {
    var mods := if s.policy.claimModules.Some? then s.policy.claimModules.value else Listing(s.plugins.Keys);
    RequestAllows(s, mods, WaveRequest(s));
    SameCandidates(world.modules, Reap(slot, now), req, WaveRequest(s), slot.run.assembly.nodes);
  }

  lemma SortLast(s: Setup, memo: map<MemoKey, MemoRecord>, world: World, items: seq<WorkItem>)
    requires items != []
    ensures var n := |items| - 1;
      var hits, misses := Hits(s, memo, world, items[..n]), Misses(s, memo, world, items[..n]);
      if HasHit(s, memo, world, items[n]) then
        Hits(s, memo, world, items) == hits + [items[n]] && Misses(s, memo, world, items) == misses
      else
        Hits(s, memo, world, items) == hits && Misses(s, memo, world, items) == misses + [items[n]]
  {
    hide HasHit;
    var n := |items| - 1;
    var hits, misses := Hits(s, memo, world, items[..n]), Misses(s, memo, world, items[..n]);
    assert hits + [] == hits && misses + [] == misses;
  }

  lemma {:induction false} SortCount(s: Setup, memo: map<MemoKey, MemoRecord>, world: World, items: seq<WorkItem>)
    ensures |Hits(s, memo, world, items)| + |Misses(s, memo, world, items)| == |items|
  {
    if items != [] {
      SortCount(s, memo, world, items[..|items| - 1]);
      SortLast(s, memo, world, items);
    }
  }

  /** Hits and misses split the items. */
  lemma {:induction false} Split(s: Setup, memo: map<MemoKey, MemoRecord>, world: World, items: seq<WorkItem>,
                                 w: WorkItem)
    ensures w in Hits(s, memo, world, items) <==> w in items && HasHit(s, memo, world, w)
    ensures w in Misses(s, memo, world, items) <==> w in items && !HasHit(s, memo, world, w)
  {
    if items == [] {
      SortNone(s, memo, world);
    } else {
      hide *;
      var n := |items| - 1;
      assert items == items[..n] + [items[n]];
      Split(s, memo, world, items[..n], w);
      SortLast(s, memo, world, items);
    }
  }

  lemma {:induction false} SplitDistinct(s: Setup, memo: map<MemoKey, MemoRecord>, world: World, items: seq<WorkItem>)
    requires Distinct(items)
    ensures Distinct(Hits(s, memo, world, items)) && Distinct(Misses(s, memo, world, items))
  {
    if items == [] {
      SortNone(s, memo, world);
    } else {
      hide HasHit, Hits, Misses;
      var n := |items| - 1;
      SplitDistinct(s, memo, world, items[..n]);
      Split(s, memo, world, items[..n], items[n]);
      SortLast(s, memo, world, items);
      assert items[n] !in items[..n];
    }
  }

  lemma OrderDistinct(s: Setup, memo: map<MemoKey, MemoRecord>, world: World, items: seq<WorkItem>)
    requires Distinct(items)
    ensures var order := CommitOrder(s, memo, world, items);
      Distinct(order) && ItemSet(order) == ItemSet(items) && |order| == |items|
  {
    hide HasHit, Hits, Misses;
    SortCount(s, memo, world, items);
    SplitDistinct(s, memo, world, items);
    var hits, misses := Hits(s, memo, world, items), Misses(s, memo, world, items);
    forall w
      ensures w in hits <==> w in items && HasHit(s, memo, world, w)
      ensures w in misses <==> w in items && !HasHit(s, memo, world, w)
    {
      Split(s, memo, world, items, w);
    }
    assert forall w :: w in hits + misses <==> w in items;
    assert forall i, j :: 0 <= i < |hits| && 0 <= j < |misses| ==> hits[i] in hits && misses[j] in misses;
  }

  /** Without records there are no hits. */
  lemma {:induction false} AllMiss(s: Setup, world: World, items: seq<WorkItem>)
    ensures Hits(s, map[], world, items) == [] && Misses(s, map[], world, items) == items
  {
    if items == [] {
      SortNone(s, map[], world);
    } else {
      var n := |items| - 1;
      AllMiss(s, world, items[..n]);
      SortLast(s, map[], world, items);
      assert !HasHit(s, map[], world, items[n]) && items == items[..n] + [items[n]];
    }
  }

  /** An orderly wave of a promising run ends last. */
  lemma OrderlyWave(s: Setup, t: Target, tr: Trace, memo: map<MemoKey, MemoRecord>, world: World, log: RunLog,
                    tick: nat)
    requires Sound(s, tr, world, log, memo) && Promising(s, t, world, log.slot) && log.slot.run.state == Running
    requires Orderly(log.slot.run.assembly, Batch(s.policy))
    ensures WaveEndsLast(s, memo, world, log.slot, s.clock(tick))
  {
    hide OnCourse, Sound, Settled, Holding;
    var slot, now, req := log.slot, s.clock(tick), WaveRequest(s);
    var mods := if s.policy.claimModules.Some? then s.policy.claimModules.value else Listing(s.plugins.Keys);
    RequestAllows(s, mods, req);
    WaveOpens(s, t, world, slot, req, tick);
    var items := WaveItems(s, world, slot, now);
    var claimed := log.(slot := Scheduler.ClaimReady(world.modules, slot, req, now));
    ClaimStaysSafe(s, tr, world, log, memo, req, now);
    WaveDistinct(s, tr, world, log, memo, req, now);
    OrderDistinct(s, memo, world, items);
    OnCourseParts(t.base, t.rank, claimed.slot);
    OrderlyEndsLast(claimed.slot, CommitOrder(s, memo, world, items));
  }

  lemma OnCourseParts(base: World, rank: map<string, nat>, slot: RunSlot)
    requires OnCourse(base, rank, slot)
    ensures DoneIsCommitted(slot) && Grounded(slot) && slot.run.state in {Running, Completed}
  {
  }

  lemma ClaimStaysSafe(s: Setup, tr: Trace, world: World, log: RunLog, memo: map<MemoKey, MemoRecord>,
                       req: ClaimRequest, now: int)
    requires Sound(s, tr, world, log, memo) && log.slot.run.state == Running
    ensures var slot' := Scheduler.ClaimReady(world.modules, log.slot, req, now);
      ClaimsNamed(slot') && ClaimsNotDone(slot')
  {
    TracedCall(tr, s.runId, world, log, RClaim(req, now));
    var base := TracedDriveable(Then(tr, world, RClaim(req, now)), s.runId, world, Serve(world, log, RClaim(req, now)));
  }

  lemma WaveDistinct(s: Setup, tr: Trace, world: World, log: RunLog, memo: map<MemoKey, MemoRecord>,
                     req: ClaimRequest, now: int)
    requires Sound(s, tr, world, log, memo) && log.slot.run.state == Running
    ensures var reaped := Reap(log.slot, now); Distinct(TakenItems(reaped, ChosenFor(world.modules, reaped, req), now))
  {
    ClaimedItems(tr, s.runId, world, log, req, now);
  }

  // ---------------------------------------------------------------- memo transparency

  /** The two runs supply the same artifact on every port of every node that both
    * have committed, and answer the same when both have completed. */
  ghost predicate AgreeOnPorts(x: RunLog, y: RunLog) {
    && (forall n :: n in x.slot.latest && n in y.slot.latest ==>
          && x.slot.latest[n].inputs == y.slot.latest[n].inputs
          && SamePorts(x.slot.latest[n].outputs, y.slot.latest[n].outputs))
    && (forall i, j :: 0 <= i < |x.derivations| && 0 <= j < |y.derivations| ==>
          x.derivations[i].node == y.derivations[j].node ==>
            SamePorts(x.derivations[i].outputs, y.derivations[j].outputs))
    && (x.slot.run.state == Completed && y.slot.run.state == Completed ==> x.slot.run.answer == y.slot.run.answer)
  }

  lemma ConvergingAgree(p: Program, x: RunLog, y: RunLog)
    requires Ranked(p) && DistinctNodeIds(p.assembly.nodes) && Converging(p, x) && Converging(p, y)
    ensures AgreeOnPorts(x, y)
  {
    forall n | n in x.slot.latest && n in y.slot.latest
      ensures x.slot.latest[n].node == y.slot.latest[n].node
    {
      SameNode(p.assembly.nodes, x.slot.latest[n].node);
      SameNode(p.assembly.nodes, y.slot.latest[n].node);
    }
    forall i, j | 0 <= i < |x.derivations| && 0 <= j < |y.derivations|
                  && x.derivations[i].node == y.derivations[j].node
      ensures SamePorts(x.derivations[i].outputs, y.derivations[j].outputs)
    {
      assert PortsEvaluated(p, x.derivations[i]) && PortsEvaluated(p, y.derivations[j]);
    }
  }

  /** The run was converging on the program when the host took it up, as every
    * fresh run of the program is. */
  ghost predicate TookUp(p: Program, plugins: Plugins, tr: Trace)
    requires Ranked(p)
  {
    Means(p, plugins) && SingleValued(plugins, p.assembly) && Converging(p, TracedLog(TakenUpAs(tr)))
  }

  lemma SoundConverges(p: Program, s: Setup, tr: Trace, world: World, log: RunLog, memo: map<MemoKey, MemoRecord>)
    requires Ranked(p) && Sound(s, tr, world, log, memo) && TookUp(p, s.plugins, tr)
    ensures Converging(p, log) && DistinctNodeIds(p.assembly.nodes)
  {
    WorkConverges(p, s.plugins, s.runId, TakenUpAs(tr), tr);
    var base := TracedDriveable(tr, s.runId, world, log);
  }

  /** Memo transparency: two hosts with the same plugins, each at any moment of
    * driving a run of one program, agree on every port of every node both have
    * committed, whatever their memo policies and stores, their clocks, claims and
    * concurrency; and if both runs have completed, they have the same answer,
    * which is the evaluator's. */
  lemma MemoTransparent(p: Program, s: Setup, tr: Trace, world: World, log: RunLog, memo: map<MemoKey, MemoRecord>,
                        s': Setup, tr': Trace, world': World, log': RunLog, memo': map<MemoKey, MemoRecord>)
    requires Ranked(p) && s'.plugins == s.plugins
    requires Sound(s, tr, world, log, memo) && TookUp(p, s.plugins, tr)
    requires Sound(s', tr', world', log', memo') && TookUp(p, s'.plugins, tr')
    ensures AgreeOnPorts(log, log')
    ensures log.slot.run.state == Completed ==> log.slot.run.answer.Some? && log.slot.run.answer == Answer(p)
    ensures log'.slot.run.state == Completed ==> log'.slot.run.answer.Some? && log'.slot.run.answer == Answer(p)
  {
    SoundConverges(p, s, tr, world, log, memo);
    SoundConverges(p, s', tr', world', log', memo');
    ConvergingAgree(p, log, log');
  }
}
