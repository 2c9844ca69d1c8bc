/** The scheduler as a state machine over small moves.
  *
  * Every call on a run is a sequence of enabled moves (the lemmas named
  * `...IsPath`), so a fact kept by each move holds in every run, whatever the
  * interleaving of callers, expiries and clocks. */
module Moves {
  import opened Base
  import opened Types
  import opened Scheduler

  datatype Move =
    | MTake(candidate: Candidate, now: int)
    | MRenew(id: WorkId, until: int)
    | MDrop(id: WorkId, terminal: bool)
    | MCommit(id: WorkId, outputs: seq<NamedArtifact>)
    | MInject(input: NamedArtifact)
    | MStall
    | MCancel

  predicate HasRoom(slot: RunSlot) {
    slot.maxInFlight == 0 || |slot.claimed| < slot.maxInFlight
  }

  predicate IsBoundInput(assembly: Assembly, name: string) {
    exists i :: 0 <= i < |assembly.bindings| && assembly.bindings[i].input == name
  }

  predicate IsReady(modules: seq<ModuleSlot>, slot: RunSlot, c: Candidate) {
    ReadyUnit(modules, slot, c.node) == Some(c)
  }

  predicate CommitAllowed(world: World, slot: RunSlot, id: WorkId, outputs: seq<NamedArtifact>) {
    id in slot.claimed && CommitFault(world, slot, id, "", outputs).None?
  }

  predicate Enabled(world: World, slot: RunSlot, m: Move) {
    slot.run.state == Running &&
    match m
    case MTake(c, _) =>
      c.node in slot.run.assembly.nodes
      && IsReady(world.modules, slot, c) && HasRoom(slot)
    case MRenew(id, _) => id in slot.claimed
    case MDrop(id, _) => id in slot.claimed
    case MCommit(id, outputs) => CommitAllowed(world, slot, id, outputs)
    case MInject(input) =>
      input.name != "" && input.artifact.Some? && input.artifact.value in world.traits
      && IsBoundInput(slot.run.assembly, input.name)
    case MStall => ShouldStall(world.modules, slot)
    case MCancel => true
  }

  function Apply(log: RunLog, m: Move): RunLog {
    match m
    case MTake(c, now) => log.(slot := Take(log.slot, c, now))
    case MRenew(id, until) => if id in log.slot.claimed then log.(slot := Renew(log.slot, id, until)) else log
    case MDrop(id, terminal) => if id in log.slot.claimed then log.(slot := Drop(log.slot, id, terminal)) else log
    case MCommit(id, outputs) => if id in log.slot.claimed then CommitUnit(log, id, outputs) else log
    case MInject(input) => log.(slot := Inject(log.slot, input))
    case MStall => log.(slot := Stall(log.slot))
    case MCancel => log.(slot := Cancel(log.slot))
  }

  /** A move taken in some state of the registry and the artifact store. */
  datatype Step = Step(world: World, move: Move)

  function RunSteps(log: RunLog, steps: seq<Step>): RunLog {
    if steps == [] then log
    else Apply(RunSteps(log, steps[..|steps| - 1]), steps[|steps| - 1].move)
  }

  /** Every step is enabled where it is taken. */
  predicate IsRun(log: RunLog, steps: seq<Step>) {
    steps == [] ||
    (var front := steps[..|steps| - 1];
     IsRun(log, front) && EnabledAfter(log, front, steps[|steps| - 1]))
  }

  predicate EnabledAfter(log: RunLog, steps: seq<Step>, s: Step) {
    Enabled(s.world, RunSteps(log, steps).slot, s.move)
  }

  lemma RunStep(log: RunLog, steps: seq<Step>, s: Step)
    requires IsRun(log, steps) && EnabledAfter(log, steps, s)
    ensures IsRun(log, steps + [s])
    ensures RunSteps(log, steps + [s]) == Apply(RunSteps(log, steps), s.move)
  {
    assert (steps + [s])[..|steps|] == steps;
  }

  // ---------------------------------------------------------------- reachability

  /** Modules are only appended (or advance in their lifecycle) and stored
    * artifacts never change. */
  ghost predicate Grows(world: World, world': World) {
    && |world.modules| <= |world'.modules|
    && (forall i :: 0 <= i < |world.modules| ==> world'.modules[i].manifest == world.modules[i].manifest)
    && (forall a :: a in world.traits ==> a in world'.traits && world'.traits[a] == world.traits[a])
  }

  lemma GrowsTransitive(a: World, b: World, c: World)
    requires Grows(a, b) && Grows(b, c)
    ensures Grows(a, c)
  {
  }

  ghost predicate WorldsGrow(steps: seq<Step>, world: World) {
    && (forall i :: 0 <= i < |steps| ==> Grows(steps[i].world, world))
    && (forall i, j :: 0 <= i < j < |steps| ==> Grows(steps[i].world, steps[j].world))
  }

  /** What may be demanded of a step, seeing the run it is taken in. */
  type StepRule = (RunLog, Step) -> bool

  /** A run from `start` to `log`, all steps satisfying `ok` where they are taken,
    * in worlds that grow towards `world`. */
  ghost predicate Leads(ok: StepRule, world: World, start: RunLog, steps: seq<Step>, log: RunLog) {
    IsRun(start, steps) && AllOk(ok, start, steps) && WorldsGrow(steps, world) && RunSteps(start, steps) == log
  }

  ghost predicate Reaches(ok: StepRule, world: World, start: RunLog, log: RunLog) {
    exists steps: seq<Step> :: Leads(ok, world, start, steps, log)
  }

  ghost predicate AllOk(ok: StepRule, start: RunLog, steps: seq<Step>) {
    forall i :: 0 <= i < |steps| ==> ok(RunSteps(start, steps[..i]), steps[i])
  }

  lemma ReachSelf(ok: StepRule, world: World, log: RunLog)
    ensures Reaches(ok, world, log, log)
  {
    assert Leads(ok, world, log, [], log);
  }

  lemma ReachLater(ok: StepRule, world: World, later: World, start: RunLog, log: RunLog)
    requires Reaches(ok, world, start, log) && Grows(world, later)
    ensures Reaches(ok, later, start, log)
  {
    var steps: seq<Step> :| Leads(ok, world, start, steps, log);
    forall i | 0 <= i < |steps|
      ensures Grows(steps[i].world, later)
    {
      GrowsTransitive(steps[i].world, world, later);
    }
    assert Leads(ok, later, start, steps, log);
  }

  lemma LongerGrows(steps: seq<Step>, s: Step)
    requires WorldsGrow(steps, s.world)
    ensures WorldsGrow(steps + [s], s.world)
  {
  }

  lemma LongerOk(ok: StepRule, start: RunLog, steps: seq<Step>, s: Step)
    requires AllOk(ok, start, steps) && ok(RunSteps(start, steps), s)
    ensures AllOk(ok, start, steps + [s])
  {
    var longer := steps + [s];
    forall i | 0 <= i < |longer|
      ensures ok(RunSteps(start, longer[..i]), longer[i])
    {
      assert longer[..i] == if i < |steps| then steps[..i] else steps;
    }
  }

  lemma ShorterOk(ok: StepRule, start: RunLog, steps: seq<Step>)
    requires steps != [] && AllOk(ok, start, steps)
    ensures var n := |steps| - 1; AllOk(ok, start, steps[..n]) && ok(RunSteps(start, steps[..n]), steps[n])
  {
    var front := steps[..|steps| - 1];
    forall i | 0 <= i < |front|
      ensures ok(RunSteps(start, front[..i]), front[i])
    {
      assert front[..i] == steps[..i];
    }
  }

  lemma ReachStep(ok: StepRule, world: World, start: RunLog, log: RunLog, m: Move)
    requires Reaches(ok, world, start, log) && Enabled(world, log.slot, m) && ok(log, Step(world, m))
    ensures Reaches(ok, world, start, Apply(log, m))
  {
    var steps: seq<Step> :| Leads(ok, world, start, steps, log);
    var s := Step(world, m);
    assert EnabledAfter(start, steps, s);
    RunStep(start, steps, s);
    LongerGrows(steps, s);
    LongerOk(ok, start, steps, s);
    assert Leads(ok, world, start, steps + [s], Apply(log, m));
  }

  // ---------------------------------------------------------------- calls on a run

  /** A call as one run sees it. */
  datatype RunCall =
    | RClaim(req: ClaimRequest, now: int)
    | RBeat(ids: seq<WorkId>, extend: nat, now: int)
    | RFail(id: WorkId, terminal: bool, now: int)
    | RCommit(id: WorkId, nodeId: string, outputs: seq<NamedArtifact>, now: int)
    | RInject(input: NamedArtifact)
    | RCancel

  predicate Accepted(world: World, log: RunLog, call: RunCall) {
    log.slot.run.state == Running && (call.RInject? ==> Enabled(world, log.slot, MInject(call.input)))
  }

  function Serve(world: World, log: RunLog, call: RunCall): RunLog {
    match call
    case RClaim(req, now) => log.(slot := ClaimReady(world.modules, log.slot, req, now))
    case RBeat(ids, extend, now) => log.(slot := Heartbeat(log.slot, ids, extend, now))
    case RFail(id, terminal, now) => log.(slot := FailWork(world.modules, log.slot, id, terminal, now).0)
    case RCommit(id, nodeId, outputs, now) => Commit(world, log, id, nodeId, outputs, now).0
    case RInject(input) => log.(slot := Inject(log.slot, input))
    case RCancel => log.(slot := Cancel(log.slot))
  }

  function Overdue(slot: RunSlot, now: int): set<WorkId> {
    set id | id in slot.claimed && Expired(slot.claimed[id], now)
  }

  function BeatEnd(slot: RunSlot, extend: nat, now: int): int {
    LeaseEnd(now, if extend == 0 then slot.defaultLeaseMs else extend)
  }

  /** The leases a call reaps. */
  function ReapedBy(slot: RunSlot, call: RunCall): set<WorkId> {
    match call
    case RClaim(_, now) => Overdue(slot, now)
    case RBeat(ids, extend, now) => Overdue(RenewAll(slot, ids, BeatEnd(slot, extend, now)), now)
    case RFail(_, _, now) => Overdue(slot, now)
    case RCommit(_, _, _, now) => Overdue(slot, now)
    case _ => {}
  }

  /** The same run with fewer claims; leases aside, those left are the same. */
  ghost predicate Fewer(slot: RunSlot, slot': RunSlot) {
    && slot'.run == slot.run && slot'.maxAttempts == slot.maxAttempts
    && forall id :: id in slot'.claimed ==>
         id in slot.claimed && slot'.claimed[id].(leaseUntil := 0) == slot.claimed[id].(leaseUntil := 0)
  }

  /** The moves a call on `slot` may make, when they have led to `slot'`. */
  ghost predicate Makes(slot: RunSlot, call: RunCall, slot': RunSlot, m: Move) {
    match m
    case MTake(_, _) => call.RClaim? && slot'.run == slot.run
    case MRenew(_, _) => call.RBeat?
    case MDrop(id, terminal) =>
      Fewer(slot, slot') && ((!terminal && id in ReapedBy(slot, call))
                             || (call.RFail? && call.id == id && call.terminal == terminal))
    case MCommit(id, outputs) => Fewer(slot, slot') && call.RCommit? && call.id == id && call.outputs == outputs
    case MInject(input) => slot' == slot && call == RInject(input)
    case MStall => true
    case MCancel => call.RCancel?
  }

  /** The rule lets a call make all its moves. */
  ghost predicate Permits(ok: StepRule, world: World, slot: RunSlot, call: RunCall) {
    forall log: RunLog, m :: Makes(slot, call, log.slot, m) ==> ok(log, Step(world, m))
  }

  // ---------------------------------------------------------------- calls are paths

  ghost predicate ExpiredOrder(slot: RunSlot, now: int, order: seq<WorkId>) {
    Distinct(order) && forall id :: id in order <==> id in slot.claimed && Expired(slot.claimed[id], now)
  }

  function DropAll(slot: RunSlot, ids: seq<WorkId>): RunSlot {
    if ids == [] then slot
    else
      var before := DropAll(slot, ids[..|ids| - 1]);
      var id := ids[|ids| - 1];
      if id in before.claimed then Drop(before, id, false) else before
  }

  function ExhaustedUnits(slot: RunSlot, ids: seq<WorkId>): set<UnitKey> {
    set id | id in ids && id in slot.claimed && slot.claimed[id].attempt >= slot.maxAttempts :: slot.claimed[id].unit
  }

  lemma ExhaustedGrow(slot: RunSlot, front: seq<WorkId>, last: WorkId)
    requires last in slot.claimed
    ensures ExhaustedUnits(slot, front + [last]) == ExhaustedUnits(slot, front)
      + (if slot.claimed[last].attempt >= slot.maxAttempts then {slot.claimed[last].unit} else {})
  {
    var ids := front + [last];
    forall u | u in ExhaustedUnits(slot, front)
      ensures u in ExhaustedUnits(slot, ids)
    {
      var id :| id in front && id in slot.claimed
                && slot.claimed[id].attempt >= slot.maxAttempts && slot.claimed[id].unit == u;
      assert id in ids;
    }
    assert last in ids;
  }

  function Without(slot: RunSlot, ids: seq<WorkId>): RunSlot {
    slot.(claimed := slot.claimed - (set id | id in ids), doneUnits := slot.doneUnits + ExhaustedUnits(slot, ids))
  }

  lemma WithoutNext(slot: RunSlot, front: seq<WorkId>, last: WorkId)
    requires last in slot.claimed && last !in front
    ensures last in Without(slot, front).claimed
    ensures Drop(Without(slot, front), last, false) == Without(slot, front + [last])
  {
    ExhaustedGrow(slot, front, last);
    var gone := set id | id in front;
    DropOne(slot, Without(slot, front), gone, ExhaustedUnits(slot, front), last);
    assert (set id | id in front + [last]) == gone + {last};
  }

  /** Reaping one lease at a time: what is left does not depend on the order. */
  lemma {:induction false} DropAllEffect(slot: RunSlot, ids: seq<WorkId>)
    requires Distinct(ids) && forall id :: id in ids ==> id in slot.claimed
    ensures DropAll(slot, ids) == Without(slot, ids)
  {
    if ids == [] {
      assert slot.claimed - (set id | id in ids) == slot.claimed;
      assert slot.doneUnits + ExhaustedUnits(slot, ids) == slot.doneUnits;
    } else {
      hide Drop, Without;
      var front, last := ids[..|ids| - 1], ids[|ids| - 1];
      DropAllEffect(slot, front);
      WithoutNext(slot, front, last);
      assert ids == front + [last];
    }
  }

  lemma DropOne(slot: RunSlot, before: RunSlot, gone: set<WorkId>, spent: set<UnitKey>, last: WorkId)
    requires last in slot.claimed && last !in gone
    requires before == slot.(claimed := slot.claimed - gone, doneUnits := slot.doneUnits + spent)
    ensures last in before.claimed
    ensures Drop(before, last, false) == slot.(
      claimed := slot.claimed - (gone + {last}),
      doneUnits := slot.doneUnits
        + (spent + if slot.claimed[last].attempt >= slot.maxAttempts then {slot.claimed[last].unit} else {}))
  {
    assert slot.claimed - gone - {last} == slot.claimed - (gone + {last});
    var item := slot.claimed[last];
    assert before.claimed[last] == item;
    assert slot.doneUnits + spent + {item.unit} == slot.doneUnits + (spent + {item.unit});
    assert slot.doneUnits + spent == slot.doneUnits + (spent + {});
  }

  lemma DropAllIsReap(slot: RunSlot, now: int, order: seq<WorkId>)
    requires ExpiredOrder(slot, now, order)
    ensures DropAll(slot, order) == Reap(slot, now)
  {
    DropAllEffect(slot, order);
    var reaped := Reap(slot, now);
    assert slot.claimed - (set id | id in order) == reaped.claimed;
    assert ExhaustedUnits(slot, order)
        == set id | id in slot.claimed && Expired(slot.claimed[id], now)
                    && slot.claimed[id].attempt >= slot.maxAttempts :: slot.claimed[id].unit;
  }

  lemma {:induction false} DropAllIsPath(ok: StepRule, world: World, start: RunLog, slot: RunSlot, call: RunCall,
                                         log: RunLog, ids: seq<WorkId>)
    requires log.slot.run.state == Running && Reaches(ok, world, start, log)
    requires Permits(ok, world, slot, call) && Fewer(slot, log.slot)
    requires forall id :: id in ids ==> id in ReapedBy(slot, call)
    requires Distinct(ids) && forall id :: id in ids ==> id in log.slot.claimed
    ensures Reaches(ok, world, start, log.(slot := DropAll(log.slot, ids)))
    ensures Fewer(slot, DropAll(log.slot, ids))
  {
    if ids != [] {
      var front, last := ids[..|ids| - 1], ids[|ids| - 1];
      DropAllIsPath(ok, world, start, slot, call, log, front);
      DropAllEffect(log.slot, front);
      assert last !in front && last in ids;
      var before := log.(slot := DropAll(log.slot, front));
      assert Makes(slot, call, before.slot, MDrop(last, false));
      ReachStep(ok, world, start, before, MDrop(last, false));
    }
  }

  lemma {:induction false} SomeOrder(ids: set<WorkId>) returns (order: seq<WorkId>)
    ensures Distinct(order) && forall id :: id in order <==> id in ids
  {
    if ids == {} {
      order := [];
    } else {
      var id :| id in ids;
      var rest := SomeOrder(ids - {id});
      order := rest + [id];
    }
  }

  lemma ReapIsPath(ok: StepRule, world: World, start: RunLog, slot: RunSlot, call: RunCall, log: RunLog, now: int)
    requires log.slot.run.state == Running && Reaches(ok, world, start, log)
    requires Permits(ok, world, slot, call) && Fewer(slot, log.slot) && Overdue(log.slot, now) == ReapedBy(slot, call)
    ensures Reaches(ok, world, start, log.(slot := Reap(log.slot, now)))
    ensures Fewer(slot, Reap(log.slot, now))
  {
    var order := SomeOrder(Overdue(log.slot, now));
    assert ExpiredOrder(log.slot, now, order);
    DropAllIsReap(log.slot, now, order);
    DropAllIsPath(ok, world, start, slot, call, log, order);
  }

  lemma StallIsPath(ok: StepRule, world: World, start: RunLog, slot: RunSlot, call: RunCall, log: RunLog)
    requires Reaches(ok, world, start, log) && Permits(ok, world, slot, call)
    ensures Reaches(ok, world, start, log.(slot := StallIfIdle(world.modules, log.slot)))
  {
    if ShouldStall(world.modules, log.slot) {
      assert Makes(slot, call, log.slot, MStall);
      ReachStep(ok, world, start, log, MStall);
    } else {
      assert log.(slot := StallIfIdle(world.modules, log.slot)) == log;
    }
  }

  /** A candidate stays ready while other units are taken. */
  lemma ReadyAfterTake(modules: seq<ModuleSlot>, slot: RunSlot, taken: Candidate, now: int, c: Candidate)
    requires IsReady(modules, slot, c) && c.unit != taken.unit
    ensures IsReady(modules, Take(slot, taken, now), c)
  {
    var slot' := Take(slot, taken, now);
    assert CurrentUnit(modules, slot', c.node) == CurrentUnit(modules, slot, c.node) by {
      SameUnit(modules, slot, slot', c.node);
    }
    forall id | id in slot'.claimed
      ensures slot'.claimed[id].unit != c.unit
    {
      if id != WorkId(slot.run.id, taken.unit) {
        assert id in slot.claimed;
      }
    }
  }

  lemma {:induction false} SameResolution(slot: RunSlot, slot': RunSlot, bs: seq<Binding>)
    requires forall b :: b in bs ==>
      ResolveBinding(slot'.run.inputs, slot'.latest, b) == ResolveBinding(slot.run.inputs, slot.latest, b)
    ensures ResolveAll(slot'.run.inputs, slot'.latest, bs) == ResolveAll(slot.run.inputs, slot.latest, bs)
  {
    if bs != [] {
      assert bs[0] in bs;
      SameResolution(slot, slot', bs[1..]);
    }
  }

  lemma {:induction false} SameRows(slot: RunSlot, slot': RunSlot, bs: seq<Binding>, inputs: seq<NamedArtifact>)
    requires forall b :: b in bs ==> Generation(slot', b) == Generation(slot, b)
    ensures DeliveryRows(slot', bs, inputs) == DeliveryRows(slot, bs, inputs)
  {
    if bs != [] {
      assert bs[0] in bs;
      SameRows(slot, slot', bs[1..], inputs);
    }
  }

  lemma SameKey(slot: RunSlot, slot': RunSlot, node: AssemblyNode, cap: Capability, inputs: seq<NamedArtifact>)
    requires slot'.run.assembly == slot.run.assembly && slot'.run.policy == slot.run.policy
    requires DeliveryRows(slot', BoundTo(slot, node), inputs) == DeliveryRows(slot, BoundTo(slot, node), inputs)
    ensures UnitKeyOf(slot', node, cap, inputs) == UnitKeyOf(slot, node, cap, inputs)
  {
  }

  /** The binding delivers the same artifact at the same generation. */
  ghost predicate SameSource(slot: RunSlot, slot': RunSlot, b: Binding) {
    && ResolveBinding(slot'.run.inputs, slot'.latest, b) == ResolveBinding(slot.run.inputs, slot.latest, b)
    && Generation(slot', b) == Generation(slot, b)
  }

  /** A node's current unit reads only the frozen run and the sources bound to it. */
  lemma SameUnit(modules: seq<ModuleSlot>, slot: RunSlot, slot': RunSlot, node: AssemblyNode)
    requires slot'.run.assembly == slot.run.assembly && slot'.run.policy == slot.run.policy
    requires forall b :: b in BoundTo(slot, node) ==> SameSource(slot, slot', b)
    ensures CurrentUnit(modules, slot', node) == CurrentUnit(modules, slot, node)
  {
    var bs := BoundTo(slot, node);
    SameResolution(slot, slot', bs);
    var inputs := ResolveInputs(slot, node);
    var cap := CapabilityFor(modules, node);
    if inputs.Some? && cap.Some? {
      SameRows(slot, slot', bs, inputs.value);
      SameKey(slot, slot', node, cap.value, inputs.value);
    }
  }

  ghost predicate AllReady(modules: seq<ModuleSlot>, slot: RunSlot, cs: seq<Candidate>) {
    && (forall i :: 0 <= i < |cs| ==>
          cs[i].node in slot.run.assembly.nodes && IsReady(modules, slot, cs[i]))
    && DistinctUnits(cs)
  }

  lemma OthersStayReady(modules: seq<ModuleSlot>, slot: RunSlot, cs: seq<Candidate>, now: int)
    requires cs != [] && AllReady(modules, slot, cs)
    ensures AllReady(modules, Take(slot, cs[0], now), cs[1..])
  {
    var rest := cs[1..];
    forall i | 0 <= i < |rest|
      ensures IsReady(modules, Take(slot, cs[0], now), rest[i]) && rest[i].node in slot.run.assembly.nodes
    {
      assert rest[i] == cs[i + 1];
      ReadyAfterTake(modules, slot, cs[0], now, rest[i]);
    }
  }

  ghost predicate RoomFor(slot: RunSlot, n: nat) {
    slot.maxInFlight != 0 && n > 0 ==> |slot.claimed| + n <= slot.maxInFlight
  }

  lemma {:induction false} TakeAllIsPath(ok: StepRule, world: World, start: RunLog, slot: RunSlot, call: RunCall,
                                         log: RunLog, cs: seq<Candidate>, now: int)
    requires log.slot.run.state == Running && Reaches(ok, world, start, log)
    requires Permits(ok, world, slot, call) && call.RClaim? && log.slot.run == slot.run
    requires AllReady(world.modules, log.slot, cs) && RoomFor(log.slot, |cs|)
    ensures Reaches(ok, world, start, log.(slot := TakeAll(log.slot, cs, now)))
    decreases |cs|
  {
    if cs == [] {
      assert log.(slot := TakeAll(log.slot, cs, now)) == log;
    } else {
      var c, rest := cs[0], cs[1..];
      var log' := log.(slot := Take(log.slot, c, now));
      assert Makes(slot, call, log.slot, MTake(c, now));
      ReachStep(ok, world, start, log, MTake(c, now));
      forall i | 0 <= i < |rest|
        ensures IsReady(world.modules, log'.slot, rest[i])
      {
        assert rest[i] == cs[i + 1];
        ReadyAfterTake(world.modules, log.slot, c, now, rest[i]);
      }
      assert |log'.slot.claimed| <= |log.slot.claimed| + 1 by {
        var id := WorkId(log.slot.run.id, c.unit);
        SubsetCardinality(log'.slot.claimed.Keys, log.slot.claimed.Keys + {id});
      }
      TakeAllIsPath(ok, world, start, slot, call, log', rest, now);
    }
  }

  /** Claiming changes nothing but claims and attempts. */
  lemma {:induction false} TakeAllRun(slot: RunSlot, cs: seq<Candidate>, now: int)
    ensures var slot' := TakeAll(slot, cs, now);
      slot'.run == slot.run && slot'.defaultLeaseMs == slot.defaultLeaseMs && slot'.latest == slot.latest
    decreases |cs|
  {
    if cs != [] {
      TakeAllRun(Take(slot, cs[0], now), cs[1..], now);
    }
  }

  lemma {:induction false} CandidatesReady(modules: seq<ModuleSlot>, slot: RunSlot, req: ClaimRequest,
                                           nodes: seq<AssemblyNode>)
    ensures forall c :: c in Candidates(modules, slot, req, nodes) ==> IsReady(modules, slot, c)
  {
    if nodes != [] {
      CandidatesReady(modules, slot, req, nodes[1..]);
      var unit := ReadyUnit(modules, slot, nodes[0]);
      var rest := Candidates(modules, slot, req, nodes[1..]);
      forall c | c in Candidates(modules, slot, req, nodes)
        ensures IsReady(modules, slot, c)
      {
        if c !in rest {
          assert unit == Some(c);
        }
      }
    }
  }

  ghost predicate DistinctUnits(cs: seq<Candidate>) {
    forall i, j :: 0 <= i < j < |cs| ==> cs[i].unit != cs[j].unit
  }

  lemma {:induction false} CandidatesDistinct(modules: seq<ModuleSlot>, slot: RunSlot, req: ClaimRequest,
                                              nodes: seq<AssemblyNode>)
    requires DistinctNodeIds(nodes)
    ensures DistinctUnits(Candidates(modules, slot, req, nodes))
  {
    if nodes != [] {
      var tail := nodes[1..];
      CandidatesDistinct(modules, slot, req, tail);
      var rest := Candidates(modules, slot, req, tail);
      forall j | 0 <= j < |rest|
        ensures rest[j].unit.node != nodes[0].id
      {
        var k :| 0 <= k < |tail| && tail[k] == rest[j].node;
        assert tail[k] == nodes[k + 1];
      }
    }
  }

  lemma ChosenReady(modules: seq<ModuleSlot>, slot: RunSlot, req: ClaimRequest)
    requires DistinctNodeIds(slot.run.assembly.nodes)
    ensures AllReady(modules, slot, ChosenFor(modules, slot, req))
    ensures RoomFor(slot, |ChosenFor(modules, slot, req)|)
  {
    var cs := Candidates(modules, slot, req, slot.run.assembly.nodes);
    CandidatesReady(modules, slot, req, slot.run.assembly.nodes);
    CandidatesDistinct(modules, slot, req, slot.run.assembly.nodes);
    var n := |ChosenFor(modules, slot, req)|;
    var chosen := ChosenFor(modules, slot, req);
    forall i | 0 <= i < n
      ensures chosen[i].node in slot.run.assembly.nodes
      ensures IsReady(modules, slot, chosen[i])
    {
      assert chosen[i] == cs[i];
    }
  }

  /** `claim_ready`: reap, then take every chosen unit, or stall. */
  lemma ClaimIsPath(ok: StepRule, world: World, start: RunLog, log: RunLog, req: ClaimRequest, now: int)
    requires Reaches(ok, world, start, log) && Permits(ok, world, log.slot, RClaim(req, now))
    requires log.slot.run.state == Running && DistinctNodeIds(log.slot.run.assembly.nodes)
    ensures Reaches(ok, world, start, log.(slot := ClaimReady(world.modules, log.slot, req, now)))
  {
    var call := RClaim(req, now);
    ReapIsPath(ok, world, start, log.slot, call, log, now);
    var reaped := log.(slot := Reap(log.slot, now));
    var chosen := ChosenFor(world.modules, reaped.slot, req);
    ChosenReady(world.modules, reaped.slot, req);
    TakeAllIsPath(ok, world, start, log.slot, call, reaped, chosen, now);
    StallIsPath(ok, world, start, log.slot, call, reaped);
  }

  lemma {:induction false} RenewAllIsPath(ok: StepRule, world: World, start: RunLog, slot: RunSlot, call: RunCall,
                                          log: RunLog, ids: seq<WorkId>, until: int)
    requires log.slot.run.state == Running && Reaches(ok, world, start, log)
    requires Permits(ok, world, slot, call) && call.RBeat? && Fewer(slot, log.slot)
    ensures Reaches(ok, world, start, log.(slot := RenewAll(log.slot, ids, until)))
    ensures RenewAll(log.slot, ids, until).run == log.slot.run && Fewer(slot, RenewAll(log.slot, ids, until))
    decreases |ids|
  {
    if ids == [] {
      assert log.(slot := RenewAll(log.slot, ids, until)) == log;
    } else if ids[0] in log.slot.claimed {
      assert Makes(slot, call, log.slot, MRenew(ids[0], until));
      ReachStep(ok, world, start, log, MRenew(ids[0], until));
      RenewAllIsPath(ok, world, start, slot, call, log.(slot := Renew(log.slot, ids[0], until)), ids[1..], until);
    } else {
      RenewAllIsPath(ok, world, start, slot, call, log, ids[1..], until);
    }
  }

  lemma {:induction false} RenewedUntil(slot: RunSlot, ids: seq<WorkId>, until: int, id: WorkId)
    ensures var slot' := RenewAll(slot, ids, until);
      && slot'.claimed.Keys == slot.claimed.Keys && slot'.doneUnits == slot.doneUnits
      && (id in slot.claimed ==>
            slot'.claimed[id] == (if id in ids then slot.claimed[id].(leaseUntil := until) else slot.claimed[id]))
    decreases |ids|
  {
    if ids != [] {
      var renewed := if ids[0] in slot.claimed then Renew(slot, ids[0], until) else slot;
      assert renewed.claimed.Keys == slot.claimed.Keys;
      RenewedUntil(renewed, ids[1..], until, id);
    }
  }

  /** A heartbeat renews before it reaps: a lease it names survives even when it
    * has expired, unless the new end has passed too; other expired leases go. */
  lemma HeartbeatKeeps(slot: RunSlot, ids: seq<WorkId>, extend: nat, now: int, id: WorkId)
    ensures var until := LeaseEnd(now, if extend == 0 then slot.defaultLeaseMs else extend);
      id in Heartbeat(slot, ids, extend, now).claimed <==>
        id in slot.claimed && (if id in ids then !(0 < until <= now) else !Expired(slot.claimed[id], now))
  {
    RenewedUntil(slot, ids, LeaseEnd(now, if extend == 0 then slot.defaultLeaseMs else extend), id);
  }

  lemma HeartbeatIsPath(ok: StepRule, world: World, start: RunLog, log: RunLog, ids: seq<WorkId>, extend: nat, now: int)
    requires log.slot.run.state == Running && Reaches(ok, world, start, log)
    requires Permits(ok, world, log.slot, RBeat(ids, extend, now))
    ensures Reaches(ok, world, start, log.(slot := Heartbeat(log.slot, ids, extend, now)))
  {
    var call, until := RBeat(ids, extend, now), BeatEnd(log.slot, extend, now);
    RenewAllIsPath(ok, world, start, log.slot, call, log, ids, until);
    ReapIsPath(ok, world, start, log.slot, call, log.(slot := RenewAll(log.slot, ids, until)), now);
  }

  lemma FailIsPath(ok: StepRule, world: World, start: RunLog, log: RunLog, id: WorkId, terminal: bool, now: int)
    requires log.slot.run.state == Running && Reaches(ok, world, start, log)
    requires Permits(ok, world, log.slot, RFail(id, terminal, now))
    ensures Reaches(ok, world, start, log.(slot := FailWork(world.modules, log.slot, id, terminal, now).0))
  {
    var call := RFail(id, terminal, now);
    ReapIsPath(ok, world, start, log.slot, call, log, now);
    var reaped := log.(slot := Reap(log.slot, now));
    if id in reaped.slot.claimed {
      assert Makes(log.slot, call, reaped.slot, MDrop(id, terminal));
      ReachStep(ok, world, start, reaped, MDrop(id, terminal));
      StallIsPath(ok, world, start, log.slot, call, reaped.(slot := Drop(reaped.slot, id, terminal)));
    }
  }

  lemma CommitIsPath(ok: StepRule, world: World, start: RunLog, log: RunLog, id: WorkId, nodeId: string,
                     outputs: seq<NamedArtifact>, now: int)
    requires log.slot.run.state == Running && Reaches(ok, world, start, log)
    requires Permits(ok, world, log.slot, RCommit(id, nodeId, outputs, now))
    ensures Reaches(ok, world, start, Commit(world, log, id, nodeId, outputs, now).0)
  {
    var call := RCommit(id, nodeId, outputs, now);
    ReapIsPath(ok, world, start, log.slot, call, log, now);
    var reaped := log.(slot := Reap(log.slot, now));
    if CommitFault(world, reaped.slot, id, nodeId, outputs).None? {
      assert Makes(log.slot, call, reaped.slot, MCommit(id, outputs));
      ReachStep(ok, world, start, reaped, MCommit(id, outputs));
      StallIsPath(ok, world, start, log.slot, call, CommitUnit(reaped, id, outputs));
    }
  }

  /** Serving a call is taking enabled moves of that call's. */
  lemma ServeIsPath(ok: StepRule, world: World, start: RunLog, log: RunLog, call: RunCall)
    requires Accepted(world, log, call) && Permits(ok, world, log.slot, call) && Reaches(ok, world, start, log)
    requires DistinctNodeIds(log.slot.run.assembly.nodes)
    ensures Reaches(ok, world, start, Serve(world, log, call))
  {
    match call
    case RClaim(req, now) => ClaimIsPath(ok, world, start, log, req, now);
    case RBeat(ids, extend, now) => HeartbeatIsPath(ok, world, start, log, ids, extend, now);
    case RFail(id, terminal, now) => FailIsPath(ok, world, start, log, id, terminal, now);
    case RCommit(id, nodeId, outputs, now) => CommitIsPath(ok, world, start, log, id, nodeId, outputs, now);
    case RInject(input) =>
      assert Makes(log.slot, call, log.slot, MInject(input));
      ReachStep(ok, world, start, log, MInject(input));
    case RCancel =>
      assert Makes(log.slot, call, log.slot, MCancel);
      ReachStep(ok, world, start, log, MCancel);
  }

  // ---------------------------------------------------------------- an induction principle for calls

  /** Each move of the call keeps the fact. */
  ghost predicate KeptByMoves(inv: RunLog -> bool, world: World, slot: RunSlot, call: RunCall) {
    forall log: RunLog, m :: inv(log) && Enabled(world, log.slot, m) && Makes(slot, call, log.slot, m) ==>
      inv(Apply(log, m))
  }

  ghost function MadeBy(world: World, slot: RunSlot, call: RunCall): StepRule {
    (log: RunLog, s: Step) => s.world == world && Makes(slot, call, log.slot, s.move)
  }

  lemma {:induction false} KeptAlong(inv: RunLog -> bool, world: World, slot: RunSlot, call: RunCall, start: RunLog,
                                     steps: seq<Step>)
    requires KeptByMoves(inv, world, slot, call) && inv(start)
    requires IsRun(start, steps) && AllOk(MadeBy(world, slot, call), start, steps)
    ensures inv(RunSteps(start, steps))
  {
    if steps != [] {
      var n := |steps| - 1;
      ShorterOk(MadeBy(world, slot, call), start, steps);
      KeptAlong(inv, world, slot, call, start, steps[..n]);
      assert EnabledAfter(start, steps[..n], steps[n]);
    }
  }

  /** What every move of a call keeps, the call keeps. */
  lemma ServeKeeps(inv: RunLog -> bool, world: World, log: RunLog, call: RunCall)
    requires Accepted(world, log, call) && DistinctNodeIds(log.slot.run.assembly.nodes)
    requires inv(log) && KeptByMoves(inv, world, log.slot, call)
    ensures inv(Serve(world, log, call))
  {
    var ok := MadeBy(world, log.slot, call);
    ReachSelf(ok, world, log);
    ServeIsPath(ok, world, log, log, call);
    var steps: seq<Step> :| Leads(ok, world, log, steps, Serve(world, log, call));
    KeptAlong(inv, world, log.slot, call, log, steps);
  }
}
