/** Which appended entries leave the rebuilt state as it was. The kernel lets
  * anyone append an entry of any kind; one of a kernel's kind is replayed like
  * the kernel's own. */
module Forgery {
  import opened Base
  import opened Types
  import opened Scheduler
  import opened Kernel
  import opened Replay

  function FirstOf(inputs: seq<NamedArtifact>, name: string): Option<NamedArtifact> {
    if inputs == [] then None
    else if inputs[0].name == name then Some(inputs[0])
    else FirstOf(inputs[1..], name)
  }

  /** An entry about a run says nothing new of it. */
  predicate HarmlessToRun(v: RunView, p: Payload) {
    match p
    case InputInjected(_, input) =>
      FirstOf(v.run.inputs, input.name) == Some(input)
      && input.name in v.inputEpochs && v.inputEpochs[input.name] >= U64_MAX
    case WorkClaimed(item) =>
      item.id in v.claimed && v.claimed[item.id] == item
      && item.unit in v.claimAttempts && v.claimAttempts[item.unit] == item.attempt
    case WorkExpired(item) => item.id !in v.claimed
    case WorkFailed(work, unit, _, terminal, _) => work !in v.claimed && (terminal ==> unit in v.doneUnits)
    case DerivationCommitted(_) => false
    case RunUpdated(run) => run == v.run && (run.state == Cancelled ==> v.claimed == map[])
    case _ => true
  }

  /** An entry repeats what is there already, or is about nothing that is there. */
  predicate Harmless(v: View, p: Payload) {
    match p
    case ModuleRegistered(_) => false
    case ModuleAdvanced(name, to) =>
      var i := FindModule(v.modules, name);
      i.Some? ==> v.modules[i.value].lifecycle == to
    case ContractRegistered(c) => c.ref in v.contracts && v.contracts[c.ref] == c
    case ArtifactPut(a) => a.id in v.artifacts && v.artifacts[a.id] == a
    case BlobPut(ref) => (ref.namespace, ref.digest) in v.blobs && v.blobs[(ref.namespace, ref.digest)] == ref
    case RunStarted(run) => run.id in v.runs && v.runs[run.id] == StartedView(run)
    case _ => RunOf(p).Some? && RunOf(p).value in v.runs ==> HarmlessToRun(v.runs[RunOf(p).value], p)
  }

  // ---------------------------------------------------------------- runs

  lemma {:induction false} ReplaceSame(inputs: seq<NamedArtifact>, input: NamedArtifact)
    ensures Replace(inputs, input) == inputs <==> FirstOf(inputs, input.name) == Some(input)
  {
    if inputs != [] {
      ReplaceSame(inputs[1..], input);
      assert inputs == [inputs[0]] + inputs[1..];
      var rest := if inputs[0].name == input.name then inputs[1..] else Replace(inputs[1..], input);
      assert Replace(inputs, input)[1..] == rest;
    }
  }

  lemma InsertSame<K, V>(m: map<K, V>, k: K, v: V)
    ensures m[k := v] == m <==> k in m && m[k] == v
  {
    assert k in m[k := v] && m[k := v][k] == v;
  }

  lemma RemoveSame<K, V>(m: map<K, V>, k: K)
    ensures m - {k} == m <==> k !in m
  {
    assert k !in m - {k};
  }

  lemma InjectedHarmless(v: RunView, p: Payload)
    requires p.InputInjected?
    ensures ReplayRun(v, p) == v <==> HarmlessToRun(v, p)
  {
    var input := p.input;
    ReplaceSame(v.run.inputs, input);
    InsertSame(v.inputEpochs, input.name, SaturatingSucc(Lookup(v.inputEpochs, input.name, 0)));
  }

  lemma WorkHarmless(v: RunView, p: Payload)
    requires p.WorkClaimed? || p.WorkExpired? || p.WorkFailed?
    ensures ReplayRun(v, p) == v <==> HarmlessToRun(v, p)
  {
    match p
    case WorkClaimed(item) =>
      InsertSame(v.claimed, item.id, item);
      InsertSame(v.claimAttempts, item.unit, item.attempt);
    case WorkExpired(item) => RemoveSame(v.claimed, item.id);
    case WorkFailed(work, unit, _, _, _) =>
      RemoveSame(v.claimed, work);
      assert v.doneUnits + {unit} == v.doneUnits <==> unit in v.doneUnits;
  }

  /** Replaying an entry about a run leaves the run if and only if it is harmless. */
  lemma RunHarmless(v: RunView, p: Payload)
    requires RunOf(p).Some? && !p.DerivationCommitted?
    ensures ReplayRun(v, p) == v <==> HarmlessToRun(v, p)
  {
    if p.InputInjected? {
      InjectedHarmless(v, p);
    } else if !p.RunUpdated? {
      WorkHarmless(v, p);
    }
  }

  // ---------------------------------------------------------------- everything

  lemma AdvanceHarmless(modules: seq<ModuleSlot>, name: string, to: Lifecycle)
    ensures SetLifecycle(modules, name, to) == modules
      <==> var i := FindModule(modules, name); i.Some? ==> modules[i.value].lifecycle == to
  {
    var i := FindModule(modules, name);
    if i.Some? {
      var slot := modules[i.value];
      assert SetLifecycle(modules, name, to)[i.value] == slot.(lifecycle := to);
      assert slot.lifecycle == to ==> SetLifecycle(modules, name, to) == modules;
    }
  }

  lemma RegistryHarmless(hashes: Hashes, v: View, p: Payload)
    requires p.ModuleRegistered? || p.ModuleAdvanced? || p.ContractRegistered? || p.ArtifactPut? || p.BlobPut?
          || p.RunStarted?
    ensures ReplayEntry(hashes, v, p) == v <==> Harmless(v, p)
  {
    match p
    case ModuleRegistered(manifest) => assert |ReplayEntry(hashes, v, p).modules| == |v.modules| + 1;
    case ModuleAdvanced(name, to) => AdvanceHarmless(v.modules, name, to);
    case ContractRegistered(c) => InsertSame(v.contracts, c.ref, c);
    case ArtifactPut(a) => InsertSame(v.artifacts, a.id, a);
    case BlobPut(ref) => InsertSame(v.blobs, (ref.namespace, ref.digest), ref);
    case RunStarted(run) => InsertSame(v.runs, run.id, StartedView(run));
  }

  /** An entry leaves the rebuilt state as it was if and only if it is harmless. */
  lemma HarmlessIff(hashes: Hashes, v: View, p: Payload)
    ensures ReplayEntry(hashes, v, p) == v <==> Harmless(v, p)
  {
    var r := RunOf(p);
    if r.Some? && r.value in v.runs {
      if p.DerivationCommitted? {
        assert |ReplayEntry(hashes, v, p).derivations| == |v.derivations| + 1;
      } else {
        RunHarmless(v.runs[r.value], p);
        InsertSame(v.runs, r.value, ReplayRun(v.runs[r.value], p));
      }
    } else if r.None? && !p.EventPublished? && !p.Foreign? {
      RegistryHarmless(hashes, v, p);
    }
  }

  // ---------------------------------------------------------------- histories

  /** Whatever is appended is harmless where it is appended. */
  ghost predicate Truthful(config: Config, calls: seq<Call>) {
    forall i :: 0 <= i < |calls| && calls[i].CAppend? ==>
      Harmless(ViewState(After(config, calls[..i])), calls[i].payload)
  }

  lemma UnforgedIsTruthful(config: Config, calls: seq<Call>)
    requires Unforged(calls)
    ensures Truthful(config, calls)
  {
    hide After, ViewState;
  }

  lemma TruthfulFront(config: Config, calls: seq<Call>)
    requires Truthful(config, calls) && calls != []
    ensures var front := calls[..|calls| - 1];
      Truthful(config, front)
      && (calls[|calls| - 1].CAppend? ==> Harmless(ViewState(After(config, front)), calls[|calls| - 1].payload))
  {
    var front := calls[..|calls| - 1];
    forall i | 0 <= i < |front| && front[i].CAppend?
      ensures Harmless(ViewState(After(config, front[..i])), front[i].payload)
    {
      assert front[..i] == calls[..i] && front[i] == calls[i];
    }
  }

  /** One more entry on a ledger. */
  lemma OneMoreEntry(hashes: Hashes, ledger: seq<Payload>, p: Payload)
    ensures Rebuild(hashes, ledger + [p]) == Rebuild(hashes, ledger) <==> Harmless(Rebuild(hashes, ledger), p)
  {
    assert (ledger + [p])[..|ledger|] == ledger;
    HarmlessIff(hashes, Rebuild(hashes, ledger), p);
  }
}
