/** The host: claims work of a run, executes plugins or reuses memo records,
  * commits, and drives the run until it is idle. */
module Hosting {
  import opened Base
  import opened Types
  import opened Strings
  import opened Scheduler
  import opened Moves
  import opened NoStall
  import opened Integrity
  import opened Evaluator
  import opened Convergence
  import opened Memo
  import opened Policies
  import opened Driving
  import opened Steps
  import opened Traces
  import opened Waves
  import opened Records
  import opened Outlook

  /** A host driving one run. `contentOf`, `base` and `rank` in a `Target` are
    * what a caller may assume about the run; methods promise more when they are
    * given one. */
  class Host {
    const setup: Setup
    var world: World
    var log: RunLog
    var memo: map<MemoKey, MemoRecord>
    var ticks: nat
    var executeCount: nat
    var memoHitCount: nat
    ghost var executed: seq<AssemblyNode>
    ghost var trace: Trace

    ghost predicate Valid()
      reads this
    {
      Sound(setup, trace, world, log, memo)
    }

    constructor (setup: Setup, world: World, log: RunLog, memo: map<MemoKey, MemoRecord>)
      requires Sound(setup, TakenUp(world, log), world, log, memo)
      ensures Valid() && this.setup == setup && this.world == world && this.log == log && this.memo == memo
      ensures ticks == 0 && executed == [] && trace == TakenUp(world, log)
    {
      this.setup, this.world, this.log, this.memo := setup, world, log, memo;
      ticks, executeCount, memoHitCount, executed := 0, 0, 0, [];
      trace := TakenUp(world, log);
    }

    // -------------------------------------------------------------- kernel calls

    method Now() returns (now: int)
      modifies this`ticks
      ensures now == setup.clock(old(ticks)) && ticks == old(ticks) + 1
    {
      now := setup.clock(ticks);
      ticks := ticks + 1;
    }

    method KernelClaim(req: ClaimRequest) returns (items: Result<seq<WorkItem>, KernelError>)
      requires Valid()
      modifies this`log, this`ticks, this`trace
      ensures Valid() && Worked(setup.plugins, old(trace), old(log), trace, log)
      ensures log.derivations == old(log.derivations)
      ensures old(log.slot.run.state) != Running ==>
        log == old(log) && items == Failure(RunClosed(old(log.slot.run.state)))
      ensures old(log.slot.run.state) == Running ==>
        var reaped := Reap(old(log.slot), setup.clock(old(ticks)));
        && ticks == old(ticks) + 1
        && log.slot == Scheduler.ClaimReady(world.modules, old(log.slot), req, setup.clock(old(ticks)))
        && items == Success(TakenItems(reaped, ChosenFor(world.modules, reaped, req), setup.clock(old(ticks))))
    {
      WorkedNone(setup.plugins, trace, log);
      if log.slot.run.state != Running {
        return Failure(RunClosed(log.slot.run.state));
      }
      var now := Now();
      var reaped := Reap(log.slot, now);
      items := Success(TakenItems(reaped, ChosenFor(world.modules, reaped, req), now));
      MakeCall(RClaim(req, now));
    }

    method KernelCommit(w: WorkItem, outputs: seq<NamedArtifact>) returns (err: Option<KernelError>)
      requires Valid() && AsClaimed(log.slot, w) && AsExecuted(setup.plugins, w.node, w.inputs, outputs)
      modifies this`log, this`ticks, this`trace
      ensures Valid() && OnlyDrops(old(log.slot), log.slot) && Worked(setup.plugins, old(trace), old(log), trace, log)
      ensures old(log.slot.run.state) != Running ==> err == Some(RunClosed(old(log.slot.run.state))) && log == old(log)
      ensures old(log.slot.run.state) == Running ==>
        ticks == old(ticks) + 1
        && (log, err) == Commit(world, old(log), w.id, w.node.id, outputs, setup.clock(old(ticks)))
      ensures err.None? ==> Committed(old(log), log, w, outputs) && Filled(outputs)
      ensures err.Some? ==> log.derivations == old(log.derivations)
    {
      hide AsExecuted, Worked, Sound, Commit, OnlyDrops, Committed, Filled;
      WorkedNone(setup.plugins, trace, log);
      SameDrops(log.slot);
      if log.slot.run.state != Running {
        return Some(RunClosed(log.slot.run.state));
      }
      var now := Now();
      CommitKnown(w, outputs, now);
      err := Commit(world, log, w.id, w.node.id, outputs, now).1;
      MakeCall(RCommit(w.id, w.node.id, outputs, now));
    }

    lemma CommitKnown(w: WorkItem, outputs: seq<NamedArtifact>, now: int)
      requires Valid() && AsClaimed(log.slot, w) && log.slot.run.state == Running
      ensures var result := Commit(world, log, w.id, w.node.id, outputs, now);
        && OnlyDrops(log.slot, result.0.slot)
        && (result.1.None? ==> Committed(log, result.0, w, outputs) && Filled(outputs))
        && (result.1.Some? ==> result.0.derivations == log.derivations)
    {
      hide Commit, Committed, OnlyDrops, Filled;
      if Commit(world, log, w.id, w.node.id, outputs, now).1.Some? {
        RefusedAdds(world, log, w.id, w.node.id, outputs, now);
      }
      CommitDrops(world, log, w.id, w.node.id, outputs, now);
      if Commit(world, log, w.id, w.node.id, outputs, now).1.None? {
        AcceptedFilled(trace, setup.runId, world, log, w.id, w.node.id, outputs, now);
        CommitAppends(world, log, w, w.node.id, outputs, now);
      }
    }

    /** An honest call that the kernel does not refuse. */
    method MakeCall(call: RunCall)
      requires Valid() && Accepted(world, log, call) && Honest(setup.plugins, log.slot, call)
      modifies this`log, this`trace
      ensures Valid() && Worked(setup.plugins, old(trace), old(log), trace, log)
      ensures log == Serve(world, old(log), call)
    {
      TracedCall(trace, setup.runId, world, log, call);
      WorkedCall(setup.plugins, trace, world, log, call);
      ContinuesTransitive(setup.plugins, TakenUpAs(trace), trace, Then(trace, world, call));
      trace := Then(trace, world, call);
      log := Serve(world, log, call);
    }

    method KernelFail(w: WorkItem)
      requires Valid()
      modifies this`log, this`ticks, this`trace
      ensures Valid() && OnlyDrops(old(log.slot), log.slot) && Worked(setup.plugins, old(trace), old(log), trace, log)
      ensures log.derivations == old(log.derivations)
      ensures old(log.slot.run.state) == Running ==>
        log == Serve(world, old(log), RFail(w.id, false, setup.clock(old(ticks)))) && w.id !in log.slot.claimed
    {
      WorkedNone(setup.plugins, trace, log);
      if log.slot.run.state == Running {
        var now := Now();
        FailDrops(world, log, w.id, now);
        MakeCall(RFail(w.id, false, now));
      }
    }

    method KernelPut(o: StepArtifact) returns (ok: bool)
      requires Valid()
      modifies this`world
      ensures Valid() && ok == setup.accepts(o) && world == if ok then Put(old(world), o) else old(world)
    {
      ok := setup.accepts(o);
      if ok {
        TracedPut(trace, setup.runId, world, log, o);
        world := Put(world, o);
      }
    }

    // -------------------------------------------------------------- one unit

    ghost predicate InWave(t: Target, pending: set<WorkItem>, since: nat)
      reads this
    {
      WaveHolds(setup, t, world, log.slot, ticks, pending, since)
    }

    method CommitOutputs(w: WorkItem, outputs: seq<NamedArtifact>, ghost t: Option<Target>,
                         ghost pending: set<WorkItem>,
                         ghost since: nat)
      returns (err: Option<HostError>)
      requires Valid() && AsClaimed(log.slot, w) && AsExecuted(setup.plugins, w.node, w.inputs, outputs)
      requires t.Some? ==> InWave(t.value, pending, since) && w in pending && GoodOutputs(world, log.slot, w, outputs)
      modifies this`log, this`ticks, this`trace
      ensures Valid() && OnlyDrops(old(log.slot), log.slot) && Worked(setup.plugins, old(trace), old(log), trace, log)
      ensures err.None? ==> Committed(old(log), log, w, outputs) && Filled(outputs)
      ensures err.Some? ==> err.value.Refused? && log.derivations == old(log.derivations)
      ensures t.Some? && err.None? ==> CommittedInWave(old(log), log, w) && InWave(t.value, pending - {w}, since)
      ensures t.Some? && err.Some? ==> RefusedInWave(old(log), log, err)
    {
      hide OnCourse, Traced, MemoSound, Unambiguous, AddressesHonest, Reliable, GoodOutputs, AsExecuted, Worked,
        Continues;
      if t.Some? {
        OnCourseParts(t.value.base, t.value.rank, log.slot);
        if log.slot.run.state == Running {
          StillLeased(setup.clock, Batch(setup.policy), log.slot, pending, since, ticks);
          CommitOnTrack(trace, setup.runId, t.value, world, log, w, pending, outputs, setup.clock(ticks));
        }
      }
      var refused := KernelCommit(w, outputs);
      err := if refused.Some? then Some(Refused(refused.value)) else None;
    }

    /** The record of the unit, where the policy lets it be used. */
    method LookUp(w: WorkItem) returns (record: Option<MemoRecord>)
      ensures record.Some? <==> Remembered(setup, memo, w)
      ensures record.Some? ==> record.value == memo[KeyFor(setup.plugins[w.node.mod].digest, w)]
    {
      if !setup.policy.memoEnabled || !Allows(setup.policy.memoNodes, w.node.id) || w.node.mod !in setup.plugins {
        return None;
      }
      var digest := setup.plugins[w.node.mod].digest;
      if digest == "" {
        return None;
      }
      var inputs := CollectPorts(w.inputs);
      var key := MemoKey(w.node.mod, w.node.version, digest, w.node.capability, inputs);
      return if key in memo then Some(memo[key]) else None;
    }

    method ArePresent(outputs: seq<NamedArtifact>) returns (ok: bool)
      ensures ok <==> ItemsStored(world.traits, outputs)
    {
      for i := 0 to |outputs|
        invariant ItemsStored(world.traits, outputs[..i])
      {
        if outputs[i].artifact.None? || outputs[i].artifact.value !in world.traits {
          return false;
        }
        assert outputs[..i + 1] == outputs[..i] + [outputs[i]];
      }
      assert outputs[..|outputs|] == outputs;
      return true;
    }

    /** `try_memo_hit`: a record whose artifacts are all still stored. */
    method TryMemoHit(w: WorkItem) returns (hit: Option<seq<NamedArtifact>>)
      requires MemoSound(setup.plugins, memo) && Filled(w.inputs)
      ensures hit.Some? <==> HasHit(setup, memo, world, w)
      ensures hit.Some? ==> HitFor(setup.plugins, w, hit.value) && ItemsStored(world.traits, hit.value)
    {
      var record := LookUp(w);
      if record.None? {
        return None;
      }
      HitIsExecution(setup.plugins, memo, w);
      var named := RecordToNamedOutputs(record.value.outputs);
      var present := ArePresent(named);
      return if present then Some(named) else None;
    }

    /** `store_memo_after_success`: nothing without memo, for a node the policy leaves
      * out, or for a plugin without a digest; otherwise a record of the unit. */
    method StoreMemo(w: WorkItem, outputs: seq<NamedArtifact>)
      requires MemoSound(setup.plugins, memo) && Filled(w.inputs) && Filled(outputs)
      requires Execution(setup.plugins, w).Some? && outputs == NamedOf(Execution(setup.plugins, w).value)
      modifies this`memo
      ensures MemoSound(setup.plugins, memo) && RecordsKept(old(memo), memo)
      ensures !Memoisable(setup, w.node) ==> memo == old(memo)
      ensures Memoisable(setup, w.node) ==>
        var key := KeyFor(setup.plugins[w.node.mod].digest, w);
        && key in memo && memo == old(memo)[key := memo[key]] && memo[key].outputs == PortMap(outputs)
        && Summarises(memo[key].outputs, outputs)
        && memo[key].key == key && memo[key].nodeId == w.node.id
        && memo[key].sourceRun == setup.runId && memo[key].sourceWork == w.id
    {
      if !setup.policy.memoEnabled || !Allows(setup.policy.memoNodes, w.node.id)
         || setup.plugins[w.node.mod].digest == "" {
        return;
      }
      var digest := setup.plugins[w.node.mod].digest;
      var inputs := CollectPorts(w.inputs);
      var ports := CollectPorts(outputs);
      var key := MemoKey(w.node.mod, w.node.version, digest, w.node.capability, inputs);
      KeySeesAll(w.inputs);
      PortMapSummarises(outputs);
      hide Summarises;
      memo := memo[key := MemoRecord(key, w.node.id, ports, setup.runId, w.id)];
      if key in old(memo) {
        SameRecord(setup.plugins, key, old(memo)[key], memo[key]);
      }
    }

    /** Store a step's outputs, one after another. */
    method PutOutputs(outs: seq<StepArtifact>, ghost t: Option<Target>) returns (ok: bool)
      requires Valid()
      requires t.Some? ==>
        AddressesHonest(t.value, world) && forall i :: 0 <= i < |outs| ==> Storable(t.value, setup.accepts, outs[i])
      modifies this`world
      ensures Valid() && Grows(old(world), world) && world.modules == old(world.modules)
      ensures ok ==> AllStored(world, outs)
      ensures t.Some? ==> ok && AddressesHonest(t.value, world)
    {
      hide Sound;
      for i := 0 to |outs|
        invariant Valid() && Grows(old(world), world) && world.modules == old(world.modules)
        invariant forall j :: 0 <= j < i ==> outs[j].id in world.traits
        invariant t.Some? ==> AddressesHonest(t.value, world)
      {
        assert t.Some? ==> Storable(t.value, setup.accepts, outs[i]);
        ok := KernelPut(outs[i]);
        if !ok {
          return;
        }
      }
      ok := true;
    }

    lemma ClaimKnown(w: WorkItem)
      requires Valid() && w.id in log.slot.claimed && log.slot.claimed[w.id] == w
      ensures w.node in log.slot.run.assembly.nodes && ItemsStored(world.traits, w.inputs)
    {
      var base := TracedDriveable(trace, setup.runId, world, log);
    }

    /** `commit_memo_hit`. */
    method CommitHit(w: WorkItem, outputs: seq<NamedArtifact>, ghost t: Option<Target>, ghost pending: set<WorkItem>,
                     ghost since: nat)
      returns (err: Option<HostError>)
      requires Valid() && AsClaimed(log.slot, w) && HitFor(setup.plugins, w, outputs)
      requires ItemsStored(world.traits, outputs)
      requires t.Some? ==> InWave(t.value, pending, since) && w in pending
      modifies this`log, this`ticks, this`trace, this`memoHitCount
      ensures Valid() && OnlyDrops(old(log.slot), log.slot) && Worked(setup.plugins, old(trace), old(log), trace, log)
      ensures err.None? ==> Committed(old(log), log, w, outputs) && memoHitCount == SaturatingSucc(old(memoHitCount))
      ensures err.Some? ==> log.derivations == old(log.derivations) && memoHitCount == old(memoHitCount)
      ensures t.Some? && err.None? ==> CommittedInWave(old(log), log, w) && InWave(t.value, pending - {w}, since)
      ensures t.Some? && err.Some? ==> RefusedInWave(old(log), log, err)
    {
      hide OnCourse, Traced, Prompt, MemoSound, Unambiguous, AddressesHonest, Reliable, Worked, Continues;
      if t.Some? {
        ClaimKnown(w);
        HitGood(t.value, setup.plugins, setup.accepts, world, log.slot, w);
      }
      err := CommitOutputs(w, outputs, t, pending, since);
      if err.None? {
        memoHitCount := SaturatingSucc(memoHitCount);
      }
    }

    /** What was executed, stored, committed and recorded is a hit. */
    lemma Remembers(w: WorkItem, outs: seq<StepArtifact>, records: map<MemoKey, MemoRecord>, shelf: World,
                    before: RunLog)
      requires Committed(before, log, w, NamedOf(outs)) && Grows(shelf, world) && RecordsKept(records, memo)
      requires AllStored(world, outs) && (!Memoisable(setup, w.node) ==> memo == records)
      requires Memoisable(setup, w.node) ==>
        var key := KeyFor(setup.plugins[w.node.mod].digest, w);
        key in memo && memo[key].outputs == PortMap(NamedOf(outs))
      ensures Learned(setup, records, shelf, before, memo, world, log)
      ensures Memoisable(setup, w.node) ==> HasHit(setup, memo, world, w)
    {
      hide Committed, Grows, HasHit, Learned, RecordsKept, AllStored, PortMap;
      if Memoisable(setup, w.node) {
        RecordHits(setup, memo, world, w, outs);
      }
      LearnedUnit(setup, records, shelf, before, memo, world, log, w, NamedOf(outs));
    }

    /** A hit that is committed stays one. */
    lemma HitLearned(w: WorkItem, outputs: seq<NamedArtifact>, before: RunLog, err: Option<HostError>)
      requires HasHit(setup, memo, world, w)
      requires err.None? ==> Committed(before, log, w, outputs)
      requires err.Some? ==> log.derivations == before.derivations
      ensures Learned(setup, memo, world, before, memo, world, log)
    {
      if err.None? {
        LearnedUnit(setup, memo, world, before, memo, world, log, w, outputs);
      } else {
        LearnedNone(setup, memo, world, before, world, log);
      }
    }

    /** Run the plugin, store its outputs, commit, remember. A failed step gives
      * the lease back. */
    method ExecuteAndCommit(w: WorkItem, ghost t: Option<Target>, ghost pending: set<WorkItem>, ghost since: nat)
      returns (err: Option<HostError>)
      requires Valid() && AsClaimed(log.slot, w) && Filled(w.inputs) && w.node.mod in setup.plugins
      requires t.Some? ==> InWave(t.value, pending, since) && w in pending
      modifies this`log, this`ticks, this`trace, this`world, this`memo, this`executeCount, this`executed
      ensures Valid() && OnlyDrops(old(log.slot), log.slot) && Worked(setup.plugins, old(trace), old(log), trace, log)
      ensures Learned(setup, old(memo), old(world), old(log), memo, world, log)
      ensures err == Some(StepFailed) <==> Execution(setup.plugins, w).None?
      ensures err == Some(StepFailed) && old(log.slot.run.state) == Running ==> w.id !in log.slot.claimed
      ensures executed == old(executed) + [w.node] && executeCount == SaturatingSucc(old(executeCount))
      ensures err.None? ==>
        Execution(setup.plugins, w).Some? && Committed(old(log), log, w, NamedOf(Execution(setup.plugins, w).value))
      ensures err.None? && Memoisable(setup, w.node) ==> HasHit(setup, memo, world, w)
      ensures t.Some? && err.None? ==> CommittedInWave(old(log), log, w) && InWave(t.value, pending - {w}, since)
      ensures t.Some? && err.Some? ==> RefusedInWave(old(log), log, err)
    {
      hide OnCourse, Traced, Prompt, MemoSound, Reliable, GoodOutputs, Worked, Continues, Learned, HasHit, Summarises,
        RecordsKept;
      var plugin := setup.plugins[w.node.mod];
      var result := plugin.execute(StepFor(plugin.digest, w.node, w.inputs));
      executeCount, executed := SaturatingSucc(executeCount), executed + [w.node];
      if t.Some? {
        ClaimKnown(w);
        ExecutionStorable(t.value, setup.plugins, setup.accepts, log.slot.run.assembly, w);
      }
      if result.None? {
        KernelFail(w);
        LearnedNone(setup, memo, world, old(log), world, log);
        return Some(StepFailed);
      }
      WorkedNone(setup.plugins, trace, log);
      var ok := PutOutputs(result.value, t);
      LearnedNone(setup, memo, old(world), old(log), world, log);
      if !ok {
        return Some(Refused(Invalid));
      }
      if t.Some? {
        ExecutedGood(t.value, setup.plugins, setup.accepts, world, log.slot, w);
      }
      err := CommitOutputs(w, NamedOf(result.value), t, pending, since);
      if err.None? {
        StoreMemo(w, NamedOf(result.value));
        Remembers(w, result.value, old(memo), old(world), old(log));
      } else {
        LearnedNone(setup, memo, old(world), old(log), world, log);
      }
    }

    /** `finish_work_unit`. */
    method FinishWorkUnit(w: WorkItem, ghost t: Option<Target>, ghost pending: set<WorkItem>, ghost since: nat)
      returns (err: Option<HostError>)
      requires Valid() && AsClaimed(log.slot, w) && Filled(w.inputs)
      requires t.Some? ==> InWave(t.value, pending, since) && w in pending
      modifies this`log, this`ticks, this`trace, this`world, this`memo, this`executeCount, this`executed,
        this`memoHitCount
      ensures Valid() && OnlyDrops(old(log.slot), log.slot) && Worked(setup.plugins, old(trace), old(log), trace, log)
      ensures Learned(setup, old(memo), old(world), old(log), memo, world, log)
      ensures executed == old(executed) || executed == old(executed) + [w.node]
      ensures err.None? ==> if old(HasHit(setup, memo, world, w))
        then executed == old(executed) && memoHitCount == SaturatingSucc(old(memoHitCount))
        else executed == old(executed) + [w.node] && memoHitCount == old(memoHitCount)
      ensures err.None? ==> Execution(setup.plugins, w).Some?
      ensures err.None? ==>
        var outputs := NamedOf(Execution(setup.plugins, w).value);
        Committed(old(log), log, w, if old(HasHit(setup, memo, world, w)) then HitOutputs(outputs) else outputs)
      ensures err.None? && Memoisable(setup, w.node) ==> HasHit(setup, memo, world, w)
      ensures t.Some? && err.None? ==> CommittedInWave(old(log), log, w) && InWave(t.value, pending - {w}, since)
      ensures t.Some? && err.Some? ==> RefusedInWave(old(log), log, err)
    {
      hide Worked, Traced, Continues, OnCourse, Settled, HasHit, Committed, Filled, CommittedInWave, RefusedInWave,
        Reliable, Learned;
      WorkedNone(setup.plugins, trace, log);
      if t.Some? {
        PendingKnown(t.value, pending, since, w);
      }
      LearnedNone(setup, memo, world, log, world, log);
      var loaded := ArePresent(w.inputs);
      if !loaded {
        return Some(Refused(NotFound));
      }
      var hit := TryMemoHit(w);
      if hit.Some? {
        err := CommitHit(w, hit.value, t, pending, since);
        HitLearned(w, hit.value, old(log), err);
      } else if w.node.mod in setup.plugins {
        err := ExecuteAndCommit(w, t, pending, since);
      } else {
        err := Some(NoPlugin);
      }
    }

    // -------------------------------------------------------------- one wave

    /** One unit after another. The wave fails if and only if something comes
      * after the terminal's item. */
    method FinishSerial(items: seq<WorkItem>, ghost t: Option<Target>, ghost since: nat, ghost n: nat)
      returns (err: Option<HostError>)
      requires Valid() && Distinct(items) && n <= |executed|
      requires forall j :: 0 <= j < |items| ==> AsClaimed(log.slot, items[j]) && Filled(items[j].inputs)
      requires t.Some? ==>
        InWave(t.value, ItemSet(items), since) && ExecutedOnce(executed, n, log.slot) && log.slot.run.state == Running
      modifies this`log, this`ticks, this`trace, this`world, this`memo, this`executeCount, this`executed,
        this`memoHitCount
      ensures Valid() && n <= |executed| && Worked(setup.plugins, old(trace), old(log), trace, log)
      ensures Learned(setup, old(memo), old(world), old(log), memo, world, log)
      ensures err.None? ==> StepsTaken(old(log), log, |items|) && Sequenced(old(log), log, items)
      ensures t.Some? ==> (err.None? <==> EndsLast(old(log.slot.run.assembly), items))
      ensures t.Some? && err.None? ==> InWave(t.value, {}, since) && ExecutedOnce(executed, n, log.slot)
      ensures t.Some? && err.None? ==> Going(old(log.slot.run.assembly), items, log.slot.run.state)
      ensures t.Some? && err.Some? ==> Overrun(log, err.value)
    {
      hide Sound, WaveHolds, Worked, Sequenced, EndsRun, EndsLast, Going, Filled, OnlyDrops, AsClaimed, Learned, HasHit;
      ghost var assembly := log.slot.run.assembly;
      WorkedNone(setup.plugins, trace, log);
      LearnedNone(setup, memo, world, log, world, log);
      SequencedNone(log);
      GoingFrom(assembly, log.slot.run.state);
      assert items[0..] == items && items[..0] == [];
      for i := 0 to |items|
        invariant Valid() && StepsTaken(old(log), log, i) && n <= |executed|
        invariant Learned(setup, old(memo), old(world), old(log), memo, world, log)
        invariant Worked(setup.plugins, old(trace), old(log), trace, log) && Sequenced(old(log), log, items[..i])
        invariant forall j :: i <= j < |items| ==> AsClaimed(log.slot, items[j])
        invariant t.Some? ==> InWave(t.value, ItemSet(items[i..]), since) && ExecutedOnce(executed, n, log.slot)
        invariant t.Some? ==> Going(assembly, items[..i], log.slot.run.state)
      {
        FirstOfRest(items, i);
        assert items[..i + 1] == items[..i] + [items[i]];
        ghost var before, list, trail := log, executed, trace;
        ghost var records, shelf := memo, world;
        if t.Some? {
          HoldsSome(t.value, ItemSet(items[i..]), since, items[i]);
        }
        err := FinishWorkUnit(items[i], t, ItemSet(items[i..]), since);
        StillClaimed(before.slot, log.slot, items, i);
        WorkedOn(setup.plugins, old(trace), old(log), trail, before, trace, log);
        LearnedOn(setup, old(memo), old(world), old(log), records, shelf, before, memo, world, log);
        if err.Some? {
          if t.Some? {
            GoingStops(assembly, items[..i], log.slot.run.state, items);
          }
          return;
        }
        SequencedOn(old(log), before, log, items[..i], items[i], LastOutputs(log));
        if t.Some? {
          OnceMore(list, executed, n, before.slot, log.slot, items[i].node);
          GoingOn(assembly, items[..i], items[i]);
        }
      }
      assert ItemSet(items[|items|..]) == {} && items[..|items|] == items;
      if t.Some? {
        GoingEnds(assembly, items, log.slot.run.state);
      }
      err := None;
    }

    /** Memo hits first; then the executions, which ran side by side, commit one
      * after another. The wave fails if and only if something comes after the
      * terminal's item in that order. */
    method FinishParallel(items: seq<WorkItem>, ghost t: Option<Target>, ghost since: nat, ghost n: nat)
      returns (err: Option<HostError>)
      requires Valid() && Distinct(items) && n <= |executed|
      requires forall j :: 0 <= j < |items| ==> AsClaimed(log.slot, items[j]) && Filled(items[j].inputs)
      requires t.Some? ==>
        InWave(t.value, ItemSet(items), since) && ExecutedOnce(executed, n, log.slot) && log.slot.run.state == Running
      modifies this`log, this`ticks, this`trace, this`world, this`memo, this`executeCount, this`executed,
        this`memoHitCount
      ensures Valid() && n <= |executed| && Worked(setup.plugins, old(trace), old(log), trace, log)
      ensures Learned(setup, old(memo), old(world), old(log), memo, world, log)
      ensures var order := old(Hits(setup, memo, world, items) + Misses(setup, memo, world, items));
        && (err.None? ==> StepsTaken(old(log), log, |items|) && Sequenced(old(log), log, order))
        && (t.Some? ==> (err.None? <==> EndsLast(old(log.slot.run.assembly), order)))
        && (t.Some? && err.None? ==> Going(old(log.slot.run.assembly), order, log.slot.run.state))
      ensures t.Some? && err.None? ==> InWave(t.value, {}, since) && ExecutedOnce(executed, n, log.slot)
      ensures t.Some? && err.Some? ==> Overrun(log, err.value)
    {
      hide Sound, WaveHolds, Worked, Sequenced, EndsRun, EndsLast, Going, Filled, Hits, Misses, OnlyDrops,
        AsClaimed, Learned;
      ghost var assembly, hits := log.slot.run.assembly, Hits(setup, memo, world, items);
      ghost var order := hits + Misses(setup, memo, world, items);
      var deferred;
      err, deferred := FinishHits(items, t, since, n);
      if err.Some? {
        if t.Some? && EndsLast(assembly, order) {
          EndsLastPrefix(assembly, hits, order);
        }
        return;
      }
      ghost var between := log;
      assert deferred[0..] == deferred && hits + deferred[..0] == hits;
      for i := 0 to |deferred|
        invariant Valid() && StepsTaken(between, log, i) && n <= |executed|
        invariant Learned(setup, old(memo), old(world), old(log), memo, world, log)
        invariant Worked(setup.plugins, old(trace), old(log), trace, log)
        invariant Sequenced(old(log), log, hits + deferred[..i])
        invariant forall j :: i <= j < |deferred| ==> AsClaimed(log.slot, deferred[j])
        invariant t.Some? ==> InWave(t.value, ItemSet(deferred[i..]), since) && ExecutedOnce(executed, n, log.slot)
        invariant t.Some? ==> Going(assembly, hits + deferred[..i], log.slot.run.state)
      {
        FirstOfRest(deferred, i);
        ghost var done := hits + deferred[..i];
        assert hits + deferred[..i + 1] == done + [deferred[i]];
        ghost var before, list, trail := log, executed, trace;
        ghost var records, shelf := memo, world;
        if t.Some? {
          HoldsSome(t.value, ItemSet(deferred[i..]), since, deferred[i]);
        }
        err := ExecuteAndCommit(deferred[i], t, ItemSet(deferred[i..]), since);
        StillClaimed(before.slot, log.slot, deferred, i);
        WorkedOn(setup.plugins, old(trace), old(log), trail, before, trace, log);
        LearnedOn(setup, old(memo), old(world), old(log), records, shelf, before, memo, world, log);
        if err.Some? {
          if t.Some? {
            assert done < order;
            GoingStops(assembly, done, log.slot.run.state, order);
          }
          return;
        }
        SequencedOn(old(log), before, log, done, deferred[i], LastOutputs(log));
        if t.Some? {
          OnceMore(list, executed, n, before.slot, log.slot, deferred[i].node);
          GoingOn(assembly, done, deferred[i]);
        }
      }
      assert ItemSet(deferred[|deferred|..]) == {} && hits + deferred[..|deferred|] == order;
      if t.Some? {
        GoingEnds(assembly, order, log.slot.run.state);
      }
      err := None;
    }

    /** Commit a hit, or leave the unit to be executed. */
    method HitOrDefer(w: WorkItem, ghost t: Option<Target>, ghost pending: set<WorkItem>, ghost since: nat)
      returns (err: Option<HostError>, done: bool)
      requires Valid() && AsClaimed(log.slot, w) && Filled(w.inputs)
      requires t.Some? ==> InWave(t.value, pending, since) && w in pending
      modifies this`log, this`ticks, this`trace, this`memoHitCount
      ensures Valid() && OnlyDrops(old(log.slot), log.slot) && Worked(setup.plugins, old(trace), old(log), trace, log)
      ensures Learned(setup, old(memo), old(world), old(log), memo, world, log)
      ensures err.None? ==> (done <==> HasHit(setup, memo, world, w))
      ensures err.None? && done ==> Committed(old(log), log, w, LastOutputs(log))
      ensures err.None? && !done ==> log == old(log) && w.node.mod in setup.plugins
      ensures t.Some? && err.None? ==> InWave(t.value, if done then pending - {w} else pending, since)
      ensures t.Some? && err.None? && done ==> CommittedInWave(old(log), log, w)
      ensures t.Some? && err.Some? ==> RefusedInWave(old(log), log, err) && HasHit(setup, memo, world, w)
    {
      hide Worked, Traced, Continues, OnCourse, Settled, HitFor, HasHit, Committed, Filled, CommittedInWave,
        RefusedInWave, Reliable, StepsTaken, Learned;
      WorkedNone(setup.plugins, trace, log);
      LearnedNone(setup, memo, world, log, world, log);
      if t.Some? {
        PendingKnown(t.value, pending, since, w);
      }
      done := false;
      var hit := TryMemoHit(w);
      if hit.None? && w.node.mod !in setup.plugins {
        return Some(NoPlugin), false;
      }
      var loaded := ArePresent(w.inputs);
      if !loaded {
        return Some(Refused(NotFound)), false;
      }
      err := None;
      if hit.Some? {
        ghost var before := log;
        err := CommitHit(w, hit.value, t, pending, since);
        HitLearned(w, hit.value, before, err);
        done := true;
        if err.None? {
          CommittedLast(before, log, w, hit.value);
        }
      }
    }

    /** The memo hits among the items, in their order; the rest is deferred. */
    method FinishHits(items: seq<WorkItem>, ghost t: Option<Target>, ghost since: nat, ghost n: nat)
      returns (err: Option<HostError>, deferred: seq<WorkItem>)
      requires Valid() && Distinct(items) && n <= |executed|
      requires forall j :: 0 <= j < |items| ==> AsClaimed(log.slot, items[j]) && Filled(items[j].inputs)
      requires t.Some? ==>
        InWave(t.value, ItemSet(items), since) && ExecutedOnce(executed, n, log.slot) && log.slot.run.state == Running
      modifies this`log, this`ticks, this`trace, this`memoHitCount
      ensures Valid() && Distinct(deferred) && Worked(setup.plugins, old(trace), old(log), trace, log)
      ensures Learned(setup, old(memo), old(world), old(log), memo, world, log)
      ensures forall j :: 0 <= j < |deferred| ==> Deferred(log.slot, setup.plugins, deferred[j])
      ensures err.None? ==> deferred == Misses(setup, memo, world, items)
      ensures err.None? ==> StepsTaken(old(log), log, |items| - |deferred|)
      ensures err.None? ==> Sequenced(old(log), log, Hits(setup, memo, world, items))
      ensures t.Some? && err.None? ==>
        InWave(t.value, ItemSet(deferred), since) && ExecutedOnce(executed, n, log.slot)
        && Going(old(log.slot.run.assembly), Hits(setup, memo, world, items), log.slot.run.state)
      ensures t.Some? && err.Some? ==>
        Overrun(log, err.value) && !EndsLast(old(log.slot.run.assembly), Hits(setup, memo, world, items))
    {
      hide Sound, WaveHolds, Worked, Sequenced, EndsRun, EndsLast, Going, Filled, Hits, Misses, HasHit, LastOutputs,
        ExecutedOnce, Advanced, OnlyDrops, AsClaimed, Learned;
      ghost var assembly := log.slot.run.assembly;
      deferred := [];
      WorkedNone(setup.plugins, trace, log);
      LearnedNone(setup, memo, world, log, world, log);
      SequencedNone(log);
      GoingFrom(assembly, log.slot.run.state);
      SortNone(setup, memo, world);
      assert items[0..] == items && items[..0] == [] && ItemSet(items[0..]) + ItemSet([]) == ItemSet(items);
      for i := 0 to |items|
        invariant Valid() && |deferred| <= i && StepsTaken(old(log), log, i - |deferred|)
        invariant Learned(setup, old(memo), old(world), old(log), memo, world, log)
        invariant Worked(setup.plugins, old(trace), old(log), trace, log)
        invariant deferred == Misses(setup, memo, world, items[..i])
        invariant Sequenced(old(log), log, Hits(setup, memo, world, items[..i]))
        invariant Distinct(deferred) && forall w :: w in deferred ==> w !in items[i..]
        invariant forall j :: i <= j < |items| ==> AsClaimed(log.slot, items[j])
        invariant forall j :: 0 <= j < |deferred| ==> Deferred(log.slot, setup.plugins, deferred[j])
        invariant t.Some? ==>
          InWave(t.value, ItemSet(items[i..]) + ItemSet(deferred), since) && ExecutedOnce(executed, n, log.slot)
        invariant t.Some? ==> Going(assembly, Hits(setup, memo, world, items[..i]), log.slot.run.state)
      {
        FirstOfRest(items, i);
        OneLess(items, i, deferred);
        SortOne(setup, memo, world, items, i);
        assert items[i + 1..] == items[i..][1..];
        ghost var before, trail, hits := log, trace, Hits(setup, memo, world, items[..i]);
        if t.Some? {
          HoldsSome(t.value, ItemSet(items[i..]) + ItemSet(deferred), since, items[i]);
        }
        var done;
        err, done := HitOrDefer(items[i], t, ItemSet(items[i..]) + ItemSet(deferred), since);
        StillClaimed(before.slot, log.slot, items, i);
        StillDeferred(before.slot, log.slot, setup.plugins, deferred);
        WorkedOn(setup.plugins, old(trace), old(log), trail, before, trace, log);
        LearnedOn(setup, memo, world, old(log), memo, world, before, memo, world, log);
        if err.Some? {
          if t.Some? {
            HitsPrefix(setup, memo, world, items, i + 1);
            GoingStops(assembly, hits, log.slot.run.state, Hits(setup, memo, world, items));
          }
          return;
        }
        assert hits + [] == hits && deferred + [] == deferred;
        if !done {
          deferred := deferred + [items[i]];
        } else {
          SequencedOn(old(log), before, log, hits, items[i], LastOutputs(log));
          if t.Some? {
            OnceMore(executed, executed, n, before.slot, log.slot, items[i].node);
            GoingOn(assembly, hits, items[i]);
          }
        }
      }
      assert ItemSet(items[|items|..]) + ItemSet(deferred) == ItemSet(deferred) && items[..|items|] == items;
      err := None;
    }

    lemma HoldsSome(t: Target, pending: set<WorkItem>, since: nat, w: WorkItem)
      requires InWave(t, pending, since) && w in pending
      ensures log.slot.claimed != map[]
    {
    }

    lemma PendingKnown(t: Target, pending: set<WorkItem>, since: nat, w: WorkItem)
      requires Valid() && InWave(t, pending, since) && w in pending
      ensures ItemsStored(world.traits, w.inputs) && w.node.mod in setup.plugins
    {
      ClaimKnown(w);
      NodePlugged(t, setup.plugins, setup.accepts, log.slot.run.assembly, w);
    }

    /** The filter of a wave's claim: the policy's modules, or the host's own. */
    method MakeClaim() returns (req: ClaimRequest)
      ensures req.maxItems == Batch(setup.policy)
      ensures forall n :: MatchesFilter(req, n) <==> ModuleAllowed(setup, n.mod)
    {
      var mods;
      if setup.policy.claimModules.Some? {
        mods := setup.policy.claimModules.value;
      } else {
        mods := Keys(setup.plugins.Keys);
      }
      if |mods| == 1 {
        req := ClaimRequest(setup.runId, mods[0], [], [], Batch(setup.policy));
      } else {
        req := ClaimRequest(setup.runId, "", mods, [], Batch(setup.policy));
      }
      RequestAllows(setup, mods, req);
    }

    /** Commit everything that was claimed, in the wave's order. */
    method FinishWave(items: seq<WorkItem>, ghost t: Option<Target>, ghost since: nat, ghost n: nat)
      returns (err: Option<HostError>)
      requires Valid() && Distinct(items) && n <= |executed|
      requires forall j :: 0 <= j < |items| ==> AsClaimed(log.slot, items[j]) && Filled(items[j].inputs)
      requires t.Some? ==>
        InWave(t.value, ItemSet(items), since) && ExecutedOnce(executed, n, log.slot) && log.slot.run.state == Running
      modifies this`log, this`ticks, this`trace, this`world, this`memo, this`executeCount, this`executed,
        this`memoHitCount
      ensures Valid() && n <= |executed| && Worked(setup.plugins, old(trace), old(log), trace, log)
      ensures Learned(setup, old(memo), old(world), old(log), memo, world, log)
      ensures var order := old(CommitOrder(setup, memo, world, items));
        && (err.None? ==> StepsTaken(old(log), log, |items|) && Sequenced(old(log), log, order))
        && (t.Some? ==> (err.None? <==> EndsLast(old(log.slot.run.assembly), order)))
        && (t.Some? && err.None? ==> Going(old(log.slot.run.assembly), order, log.slot.run.state))
      ensures t.Some? && err.None? ==> InWave(t.value, {}, since) && ExecutedOnce(executed, n, log.slot)
      ensures t.Some? && err.Some? ==> Overrun(log, err.value)
    {
      hide *;
      assert CommitOrder(setup, memo, world, items) ==
        if Concurrency(setup.policy) <= 1 || |items| <= 1 then items
        else Hits(setup, memo, world, items) + Misses(setup, memo, world, items)
      by { OrderIs(setup, memo, world, items); }
      if Concurrency(setup.policy) <= 1 || |items| <= 1 {
        err := FinishSerial(items, t, since, n);
      } else {
        err := FinishParallel(items, t, since, n);
      }
    }

    /** `drive_claim_wave` while driving until idle. On a promising run a wave
      * fails if and only if it commits something after the terminal's item. */
    method DriveClaimWave(ghost t: Option<Target>, ghost n: nat) returns (r: Result<bool, HostError>)
      requires Valid() && n <= |executed| && log.slot.run.state == Running
      requires t.Some? ==> Promising(setup, t.value, world, log.slot) && ExecutedOnce(executed, n, log.slot)
      modifies this
      ensures Valid() && n <= |executed| && Worked(setup.plugins, old(trace), old(log), trace, log)
      ensures Learned(setup, old(memo), old(world), old(log), memo, world, log)
      ensures r == Success(true) ==>
        && Sequenced(old(log), log,
                     old(CommitOrder(setup, memo, world, WaveItems(setup, world, log.slot, setup.clock(ticks)))))
        && log.slot.run.steps > old(log.slot.run.steps) && log.slot.run.maxSteps == old(log.slot.run.maxSteps)
        && log.slot.run.assembly == old(log.slot.run.assembly)
      ensures r == Success(false) ==> Idle(setup, world, log.slot)
      ensures t.Some? ==>
        (r == Success(true) <==> old(WaveEndsLast(setup, memo, world, log.slot, setup.clock(ticks))))
      ensures t.Some? && r == Success(true) ==>
        && Promising(setup, t.value, world, log.slot) && ExecutedOnce(executed, n, log.slot)
        && Going(old(log.slot.run.assembly),
                 old(CommitOrder(setup, memo, world, WaveItems(setup, world, log.slot, setup.clock(ticks)))),
                 log.slot.run.state)
      ensures t.Some? && r != Success(true) ==> r.Failure? && Overrun(log, r.error)
    {
      hide OnCourse, Traced, MemoSound, Settled, Holding, Worked, Sequenced, EndsLast, Going, CommitOrder, WaveItems,
        Continues, Adds, Learned;
      var req := MakeClaim();
      ghost var before, since, start := log, ticks, trace;
      ClaimedItems(trace, setup.runId, world, log, req, setup.clock(ticks));
      WaveIs(setup, world, log.slot, req, setup.clock(ticks));
      if t.Some? {
        WaveOpens(setup, t.value, world, log.slot, req, ticks);
      }
      var claimed := KernelClaim(req);
      LearnedNone(setup, memo, world, before, world, log);
      var items := claimed.value;
      if items == [] {
        NothingClaimed(setup, world, before.slot, req, setup.clock(since));
        return Success(false);
      }
      ghost var held, trail := log, trace;
      var err := FinishWave(items, t, since, n);
      WorkedOn(setup.plugins, start, before, trail, held, trace, log);
      LearnedOn(setup, old(memo), old(world), before, old(memo), old(world), held, memo, world, log);
      if err.Some? {
        return Failure(err.value);
      }
      SequencedSince(before, held, log,
                     old(CommitOrder(setup, memo, world, WaveItems(setup, world, log.slot, setup.clock(ticks)))));
      if t.Some? {
        WaveCloses(setup, t.value, world, before.slot, log.slot, ticks, since);
      }
      return Success(true);
    }

    /** The run is one of the program, with these plugins, as far as it got. */
    ghost predicate Meant(p: Program)
      reads this
    {
      Ranked(p) && Means(p, setup.plugins) && SingleValued(setup.plugins, p.assembly) && Converging(p, log)
    }

    lemma TraceLeads()
      requires Valid()
      ensures TracedLog(trace) == log
    {
    }

    lemma StaysMeant(p: Program, before: Trace, was: RunLog)
      requires Valid() && Ranked(p) && Means(p, setup.plugins) && SingleValued(setup.plugins, p.assembly)
      requires TracedLog(before) == was && Converging(p, was) && Worked(setup.plugins, before, was, trace, log)
      ensures Meant(p) && (log.slot.run.state == Completed ==> log.slot.run.answer == Answer(p))
    {
      WorkConverges(p, setup.plugins, setup.runId, before, trace);
    }

    /** A wave keeps to the plan, or the plan does not end with the terminal. */
    lemma WaveToPlan(t: Target, was: RunLog, tr: Trace, shelf: World, before: RunLog, records: map<MemoKey, MemoRecord>,
                     tick: nat, r: Result<bool, HostError>)
      requires Valid() && Sound(setup, tr, shelf, before, records) && Worked(setup.plugins, tr, before, trace, log)
      requires !setup.policy.memoEnabled && OnPlan(setup, was, before) && before.slot.run.state == Running
      requires Promising(setup, t, shelf, before.slot)
      requires r == Success(true) <==> WaveEndsLast(setup, records, shelf, before.slot, setup.clock(tick))
      requires r == Success(true) ==>
        var order := CommitOrder(setup, records, shelf, WaveItems(setup, shelf, before.slot, setup.clock(tick)));
        && Sequenced(before, log, order) && Going(before.slot.run.assembly, order, log.slot.run.state)
        && log.slot.run.steps > before.slot.run.steps
      ensures if r == Success(true) then OnPlan(setup, was, log)
              else !TerminalLast(was.slot.run.assembly, Plan(setup, was.slot))
    {
      assert Sound(setup, trace, world, log, memo);
      hide *;
      if r == Success(true) {
        WaveOnPlan(setup, t, was, tr, shelf, before, records, setup.clock(tick), trace, world, log, memo);
      } else {
        WaveOffPlan(setup, t, was, shelf, before, records, setup.clock(tick));
      }
    }

    /** `drive_until_idle`. Every wave that does not end the drive commits, so
      * the steps left bound the number of waves. */
    method DriveUntilIdle(ghost t: Option<Target>, ghost p: Option<Program>) returns (r: Result<Run, HostError>)
      requires Valid()
      requires t.Some? ==> Promising(setup, t.value, world, log.slot)
      requires p.Some? ==> Meant(p.value)
      modifies this
      ensures Valid() && Worked(setup.plugins, old(trace), old(log), trace, log)
      ensures Learned(setup, old(memo), old(world), old(log), memo, world, log)
      ensures r.Success? ==> r.value == log.slot.run && Idle(setup, world, log.slot)
      ensures p.Some? ==> Meant(p.value) && (log.slot.run.state == Completed ==> log.slot.run.answer == Answer(p.value))
      ensures t.Some? ==> log.slot.run.state == Completed && (r.Failure? ==> Overrun(log, r.error))
      ensures t.Some? ==> (r.Failure? <==> log.slot.claimed != map[])
      ensures t.Some? && r.Success? ==> ExecutedOnce(executed, |old(executed)|, log.slot)
      ensures t.Some? && r.Success? && old(log.slot.run.state) == Running ==>
        old(WaveEndsLast(setup, memo, world, log.slot, setup.clock(ticks)))
      ensures t.Some? && Orderly(old(log.slot.run.assembly), Batch(setup.policy)) ==> r.Success?
      ensures t.Some? && !setup.policy.memoEnabled && old(log.slot.run.state) == Running ==>
        && (r.Success? <==> old(TerminalLast(log.slot.run.assembly, Plan(setup, log.slot))))
        && (r.Success? ==>
              CommittedNodes(log.derivations) == old(CommittedNodes(log.derivations) + Plan(setup, log.slot)))
    {
      hide Sound, Promising, Worked, WaveEndsLast, Sequenced, Converging, Orderly, Means, SingleValued, Idle,
        CommitOrder, ExecutedOnce, WaveItems, OnPlan, Plan, TerminalLast, Going, Learned;
      ghost var planned := t.Some? && !setup.policy.memoEnabled && log.slot.run.state == Running;
      if planned {
        PlanStarts(setup, log);
      }
      ExecutedNone(executed, log.slot);
      ghost var n, moved := |executed|, false;
      WorkedNone(setup.plugins, trace, log);
      LearnedNone(setup, memo, world, log, world, log);
      TraceLeads();
      while true
        invariant Valid() && n <= |executed| && Worked(setup.plugins, old(trace), old(log), trace, log)
        invariant Learned(setup, old(memo), old(world), old(log), memo, world, log)
        invariant t.Some? ==> Promising(setup, t.value, world, log.slot) && ExecutedOnce(executed, n, log.slot)
        invariant t.Some? ==> log.slot.run.assembly == old(log.slot.run.assembly)
        invariant !moved ==> log == old(log) && world == old(world) && memo == old(memo) && ticks == old(ticks)
        invariant t.Some? && moved ==> old(WaveEndsLast(setup, memo, world, log.slot, setup.clock(ticks)))
        invariant planned ==> OnPlan(setup, old(log), log)
        decreases log.slot.run.maxSteps - log.slot.run.steps
      {
        if log.slot.run.state != Running {
          if t.Some? {
            ClosedIsCompleted(setup, t.value, world, log.slot);
          }
          if planned {
            PlanDone(setup, old(log), log);
          }
          ClosedIsIdle(setup, world, log.slot);
          r := Success(log.slot.run);
          break;
        }
        StepsLeft(setup, trace, world, log, memo);
        ghost var before, trail, shelf, records, tick := log, trace, world, memo, ticks;
        if t.Some? && Orderly(log.slot.run.assembly, Batch(setup.policy)) {
          OrderlyWave(setup, t.value, trace, memo, world, log, ticks);
        }
        var progressed := DriveClaimWave(t, n);
        WorkedOn(setup.plugins, old(trace), old(log), trail, before, trace, log);
        LearnedOn(setup, old(memo), old(world), old(log), records, shelf, before, memo, world, log);
        moved := true;
        if planned {
          WaveToPlan(t.value, old(log), trail, shelf, before, records, tick, progressed);
        }
        if progressed.Failure? {
          r := Failure(progressed.error);
          break;
        }
        if !progressed.value {
          r := Success(log.slot.run);
          break;
        }
      }
      if p.Some? {
        StaysMeant(p.value, old(trace), old(log));
      }
    }
  }
}
