/** Ledger reconstruction: folding the entries in order rebuilds the registry,
  * the stored artifacts and every run, whatever calls wrote them. Left out of
  * the rebuilt state are lease times, frozen limits and blob bytes, which the
  * ledger does not carry. */
module Replay {
  import opened Base
  import opened Types
  import opened Scheduler
  import opened Moves
  import opened Kernel

  datatype RunView = RunView(
    run: Run,
    claimed: map<WorkId, WorkItem>,
    latest: map<string, Derivation>,
    doneUnits: set<UnitKey>,
    claimAttempts: map<UnitKey, nat>,
    inputEpochs: map<string, nat>,
    nodeCommits: map<string, nat>)

  datatype View = View(
    modules: seq<ModuleSlot>,
    contracts: map<string, Contract>,
    artifacts: map<string, Artifact>,
    blobs: map<(string, string), ObjectRef>,
    runs: map<string, RunView>,
    derivations: seq<Derivation>)

  // ---------------------------------------------------------------- what the ledger can show

  function UnleasedAll(claimed: map<WorkId, WorkItem>): map<WorkId, WorkItem> {
    map id | id in claimed :: Unleased(claimed[id])
  }

  function ViewSlot(slot: RunSlot): RunView {
    RunView(slot.run, UnleasedAll(slot.claimed), slot.latest, slot.doneUnits, slot.claimAttempts,
            slot.inputEpochs, slot.nodeCommits)
  }

  function ViewState(state: State): View {
    View(
      state.modules, state.contracts, state.artifacts,
      map k | k in state.blobs :: state.blobs[k].ref,
      map r | r in state.runs :: ViewSlot(state.runs[r]),
      state.derivations)
  }

  // ---------------------------------------------------------------- replaying one entry

  /** What an entry does to the run it is about. */
  function ReplayRun(v: RunView, p: Payload): RunView {
    match p
    case InputInjected(_, input) =>
      v.(run := v.run.(inputs := Replace(v.run.inputs, input)),
         inputEpochs := v.inputEpochs[input.name := SaturatingSucc(Lookup(v.inputEpochs, input.name, 0))])
    case WorkClaimed(item) =>
      v.(claimed := v.claimed[item.id := item], claimAttempts := v.claimAttempts[item.unit := item.attempt])
    case WorkExpired(item) => v.(claimed := v.claimed - {item.id})
    case WorkFailed(work, unit, _, terminal, _) =>
      v.(claimed := v.claimed - {work}, doneUnits := if terminal then v.doneUnits + {unit} else v.doneUnits)
    case DerivationCommitted(d) =>
      var unit := if d.work in v.claimed then v.claimed[d.work].unit else d.work.unit;
      v.(claimed := v.claimed - {d.work}, doneUnits := v.doneUnits + {unit},
         latest := v.latest[d.node.id := d],
         nodeCommits := v.nodeCommits[d.node.id := Lookup(v.nodeCommits, d.node.id, 0) + 1])
    case RunUpdated(run) => v.(run := run, claimed := if run.state == Cancelled then map[] else v.claimed)
    case _ => v
  }

  function RunOf(p: Payload): Option<string> {
    match p
    case InputInjected(r, _) => Some(r)
    case WorkClaimed(item) => Some(item.id.run)
    case WorkExpired(item) => Some(item.id.run)
    case WorkFailed(work, _, _, _, _) => Some(work.run)
    case DerivationCommitted(d) => Some(d.work.run)
    case RunUpdated(run) => Some(run.id)
    case _ => None
  }

  function StartedView(run: Run): RunView {
    RunView(run, map[], map[], {}, map[], StartEpochs(run.inputs), map[])
  }

  function ReplayEntry(hashes: Hashes, v: View, p: Payload): View {
    match p
    case ModuleRegistered(manifest) =>
      v.(modules := v.modules + [ModuleSlot(manifest, Registered)],
         contracts := NamePlaceholders(hashes, v.contracts, ManifestRefs(manifest.capabilities)))
    case ModuleAdvanced(name, to) => v.(modules := SetLifecycle(v.modules, name, to))
    case ContractRegistered(c) => v.(contracts := v.contracts[c.ref := c])
    case ArtifactPut(a) => v.(artifacts := v.artifacts[a.id := a])
    case BlobPut(ref) => v.(blobs := v.blobs[(ref.namespace, ref.digest) := ref])
    case RunStarted(run) => v.(runs := v.runs[run.id := StartedView(run)])
    case _ =>
      var r := RunOf(p);
      if r.None? || r.value !in v.runs then v
      else v.(
        runs := v.runs[r.value := ReplayRun(v.runs[r.value], p)],
        derivations := if p.DerivationCommitted? then v.derivations + [p.derivation] else v.derivations)
  }

  /** The rebuilt state: a left fold over the entries. */
  function Rebuild(hashes: Hashes, entries: seq<Payload>): View {
    if entries == [] then View([], map[], map[], map[], map[], [])
    else ReplayEntry(hashes, Rebuild(hashes, entries[..|entries| - 1]), entries[|entries| - 1])
  }

  function ReplayAll(hashes: Hashes, v: View, entries: seq<Payload>): View {
    if entries == [] then v
    else ReplayEntry(hashes, ReplayAll(hashes, v, entries[..|entries| - 1]), entries[|entries| - 1])
  }

  lemma {:induction false} RebuildAppend(hashes: Hashes, a: seq<Payload>, b: seq<Payload>)
    ensures Rebuild(hashes, a + b) == ReplayAll(hashes, Rebuild(hashes, a), b)
  {
    if b == [] {
      assert a + b == a;
    } else {
      RebuildAppend(hashes, a, b[..|b| - 1]);
      assert (a + b)[..|a + b| - 1] == a + b[..|b| - 1];
    }
  }

  lemma {:induction false} ReplayAppend(hashes: Hashes, v: View, a: seq<Payload>, b: seq<Payload>)
    ensures ReplayAll(hashes, v, a + b) == ReplayAll(hashes, ReplayAll(hashes, v, a), b)
  {
    if b == [] {
      assert a + b == a;
    } else {
      ReplayAppend(hashes, v, a, b[..|b| - 1]);
      assert (a + b)[..|a + b| - 1] == a + b[..|b| - 1];
    }
  }

  lemma ReplayOne(hashes: Hashes, v: View, p: Payload)
    ensures ReplayAll(hashes, v, [p]) == ReplayEntry(hashes, v, p)
  {
    assert [p][..0] == [];
    assert ReplayAll(hashes, v, []) == v;
  }

  // ---------------------------------------------------------------- entries about one run

  ghost predicate AboutRun(r: string, entries: seq<Payload>) {
    forall i :: 0 <= i < |entries| ==> RunOf(entries[i]) == Some(r) && !entries[i].DerivationCommitted?
  }

  function ReplayRunAll(v: RunView, entries: seq<Payload>): RunView {
    if entries == [] then v
    else ReplayRun(ReplayRunAll(v, entries[..|entries| - 1]), entries[|entries| - 1])
  }

  lemma {:induction false} ReplayRunAppend(v: RunView, a: seq<Payload>, b: seq<Payload>)
    ensures ReplayRunAll(v, a + b) == ReplayRunAll(ReplayRunAll(v, a), b)
  {
    if b == [] {
      assert a + b == a;
    } else {
      ReplayRunAppend(v, a, b[..|b| - 1]);
      assert (a + b)[..|a + b| - 1] == a + b[..|b| - 1];
    }
  }

  lemma {:induction false} ReplayAboutRun(hashes: Hashes, v: View, r: string, entries: seq<Payload>)
    requires r in v.runs && AboutRun(r, entries)
    ensures ReplayAll(hashes, v, entries) == v.(runs := v.runs[r := ReplayRunAll(v.runs[r], entries)])
  {
    if entries == [] {
      assert v.runs[r := v.runs[r]] == v.runs;
    } else {
      var front, last := entries[..|entries| - 1], entries[|entries| - 1];
      ReplayAboutRun(hashes, v, r, front);
      assert RunOf(last) == Some(r);
      var mid := v.(runs := v.runs[r := ReplayRunAll(v.runs[r], front)]);
      assert ReplayEntry(hashes, mid, last)
          == mid.(runs := mid.runs[r := ReplayRun(mid.runs[r], last)]);
      assert mid.runs[r := ReplayRun(mid.runs[r], last)] == v.runs[r := ReplayRun(mid.runs[r], last)];
    }
  }

  // ---------------------------------------------------------------- reaping

  lemma UnleasedRemove(claimed: map<WorkId, WorkItem>, id: WorkId)
    ensures UnleasedAll(claimed - {id}) == UnleasedAll(claimed) - {id}
  {
  }

  lemma UnleasedInsert(claimed: map<WorkId, WorkItem>, id: WorkId, item: WorkItem)
    ensures UnleasedAll(claimed[id := item]) == UnleasedAll(claimed)[id := Unleased(item)]
  {
  }

  ghost predicate IdsMatch(slot: RunSlot) {
    forall id :: id in slot.claimed ==> slot.claimed[id].id == id && id.run == slot.run.id
  }

  lemma ExpiryReplays(slot: RunSlot, id: WorkId)
    requires IdsMatch(slot) && id in slot.claimed
    ensures ReplayRunAll(ViewSlot(slot), ExpiryEvents(slot, id)) == ViewSlot(Drop(slot, id, false))
    ensures AboutRun(slot.run.id, ExpiryEvents(slot, id))
  {
    var v, item := ViewSlot(slot), slot.claimed[id];
    UnleasedRemove(slot.claimed, id);
    var expired := WorkExpired(Unleased(item));
    assert [expired][..0] == [] && ReplayRunAll(v, []) == v;
    assert ReplayRunAll(v, [expired]) == ReplayRun(v, expired);
    if item.attempt >= slot.maxAttempts {
      var failed := WorkFailed(id, item.unit, EXPIRED_REASON, true, item.attempt);
      assert [expired, failed][..1] == [expired];
      assert ExpiryEvents(slot, id) == [expired, failed];
      assert v.claimed - {id} - {id} == v.claimed - {id};
    } else {
      assert ExpiryEvents(slot, id) == [expired];
    }
  }

  lemma {:induction false} ReapReplays(slot: RunSlot, order: seq<WorkId>)
    requires IdsMatch(slot) && Distinct(order) && forall id :: id in order ==> id in slot.claimed
    ensures ReplayRunAll(ViewSlot(slot), ReapEvents(slot, order)) == ViewSlot(DropAll(slot, order))
    ensures AboutRun(slot.run.id, ReapEvents(slot, order))
  {
    if order != [] {
      var front, last := order[..|order| - 1], order[|order| - 1];
      ReapReplays(slot, front);
      DropAllEffect(slot, front);
      var before := DropAll(slot, front);
      assert last !in front && last in slot.claimed;
      assert before.claimed[last] == slot.claimed[last];
      assert ExpiryEvents(before, last) == ExpiryEvents(slot, last);
      ExpiryReplays(before, last);
      ReplayRunAppend(ViewSlot(slot), ReapEvents(slot, front), ExpiryEvents(slot, last));
    }
  }

  /** Whatever order the leases were reaped in, their entries replay to the
    * slot the scheduler's reaping leaves. */
  lemma ReapingReplays(slot: RunSlot, now: int, order: seq<WorkId>)
    requires IdsMatch(slot) && ExpiredOrder(slot, now, order)
    ensures ReplayRunAll(ViewSlot(slot), ReapEvents(slot, order)) == ViewSlot(Reap(slot, now))
    ensures AboutRun(slot.run.id, ReapEvents(slot, order))
  {
    ReapReplays(slot, order);
    DropAllIsReap(slot, now, order);
  }

  lemma ReapKeepsIds(slot: RunSlot, now: int)
    requires IdsMatch(slot)
    ensures IdsMatch(Reap(slot, now)) && Reap(slot, now).run == slot.run
  {
  }

  // ---------------------------------------------------------------- claiming, renewing, closing

  lemma TakeReplays(slot: RunSlot, c: Candidate, now: int)
    requires IdsMatch(slot)
    ensures var slot' := Take(slot, c, now); var id := WorkId(slot.run.id, c.unit);
      && IdsMatch(slot') && id in slot'.claimed && slot'.run == slot.run
      && ReplayRun(ViewSlot(slot), WorkClaimed(Unleased(slot'.claimed[id]))) == ViewSlot(slot')
      && RunOf(WorkClaimed(Unleased(slot'.claimed[id]))) == Some(slot.run.id)
  {
    var id := WorkId(slot.run.id, c.unit);
    var slot' := Take(slot, c, now);
    UnleasedInsert(slot.claimed, id, slot'.claimed[id]);
  }

  lemma {:induction false} ClaimsReplay(slot: RunSlot, cs: seq<Candidate>, now: int)
    requires IdsMatch(slot)
    ensures ReplayRunAll(ViewSlot(slot), ClaimEvents(slot, cs, now)) == ViewSlot(TakeAll(slot, cs, now))
    ensures AboutRun(slot.run.id, ClaimEvents(slot, cs, now))
    decreases |cs|
  {
    if cs != [] {
      var slot' := Take(slot, cs[0], now);
      var first := WorkClaimed(Unleased(slot'.claimed[WorkId(slot.run.id, cs[0].unit)]));
      TakeReplays(slot, cs[0], now);
      ClaimsReplay(slot', cs[1..], now);
      assert [first][..0] == [] && ReplayRunAll(ViewSlot(slot), []) == ViewSlot(slot);
      ReplayRunAppend(ViewSlot(slot), [first], ClaimEvents(slot', cs[1..], now));
    }
  }

  lemma StallReplays(modules: seq<ModuleSlot>, slot: RunSlot)
    requires slot.run.state == Running
    ensures var slot' := StallIfIdle(modules, slot);
      && ReplayRunAll(ViewSlot(slot), StallEvents(slot, slot')) == ViewSlot(slot')
      && AboutRun(slot.run.id, StallEvents(slot, slot'))
  {
    var slot' := StallIfIdle(modules, slot);
    if ShouldStall(modules, slot) {
      var e := RunUpdated(slot'.run);
      assert [e][..0] == [] && ReplayRunAll(ViewSlot(slot), []) == ViewSlot(slot);
    }
  }

  /** Renewing a lease leaves nothing on the ledger, and needs nothing. */
  lemma {:induction false} RenewalsInvisible(slot: RunSlot, ids: seq<WorkId>, until: int)
    requires IdsMatch(slot)
    ensures ViewSlot(RenewAll(slot, ids, until)) == ViewSlot(slot) && IdsMatch(RenewAll(slot, ids, until))
    ensures RenewAll(slot, ids, until).run == slot.run
    decreases |ids|
  {
    if ids != [] {
      if ids[0] in slot.claimed {
        assert UnleasedAll(Renew(slot, ids[0], until).claimed) == UnleasedAll(slot.claimed);
        RenewalsInvisible(Renew(slot, ids[0], until), ids[1..], until);
      } else {
        RenewalsInvisible(slot, ids[1..], until);
      }
    }
  }
}
