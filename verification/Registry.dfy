/** What the registry and the blob store keep over any history of calls: modules
  * only advance, step by step; a contract is filled at most once; a blob reads
  * back what was put. */
module Registry {
  import opened Base
  import opened Types
  import opened Strings
  import opened Scheduler
  import opened Kernel
  import opened Integrity

  // ---------------------------------------------------------------- lifecycles

  /** How far along `REGISTERED, LOADED, ACTIVE, DEACTIVATED` a module is. */
  function Age(l: Lifecycle): nat {
    match l
    case Registered => 0
    case Loaded => 1
    case Active => 2
    case Deactivated => 3
  }

  /** The first module of the name. */
  predicate FirstOfName(modules: seq<ModuleSlot>, name: string, i: nat) {
    i < |modules| && modules[i].manifest.name == name && forall k :: 0 <= k < i ==> modules[k].manifest.name != name
  }

  lemma {:induction false} FoundFirst(modules: seq<ModuleSlot>, name: string, i: nat)
    ensures FindModule(modules, name) == Some(i) <==> FirstOfName(modules, name, i)
  {
    if modules != [] && modules[0].manifest.name != name {
      if i > 0 {
        FoundFirst(modules[1..], name, i - 1);
        assert forall k :: 0 < k < |modules| ==> modules[1..][k - 1] == modules[k];
      }
    }
  }

  lemma {:induction false} FoundNone(modules: seq<ModuleSlot>, name: string)
    ensures FindModule(modules, name).None? <==> forall i :: 0 <= i < |modules| ==> modules[i].manifest.name != name
  {
    if modules != [] {
      FoundNone(modules[1..], name);
      assert forall k :: 0 < k < |modules| ==> modules[1..][k - 1] == modules[k];
    }
  }

  /** A transition is refused exactly when no module has the name, as NotFound. */
  lemma TransitionRefusedIff(state: State, name: string, to: Lifecycle)
    ensures var known := exists i :: 0 <= i < |state.modules| && state.modules[i].manifest.name == name;
      Transition(state, name, to).1 == if known then None else Some(NotFound)
  {
    FoundNone(state.modules, name);
  }

  /** The call asks for this module's next step. */
  ghost predicate Advances(modules: seq<ModuleSlot>, call: Call, i: nat)
    requires i < |modules|
  {
    && call.CTransition? && FirstOfName(modules, call.name, i)
    && Age(call.to) == Age(modules[i].lifecycle) + 1
  }

  lemma TransitionAdvances(state: State, name: string, to: Lifecycle, i: nat)
    requires i < |state.modules|
    ensures var modules' := Transition(state, name, to).0.modules;
      |modules'| == |state.modules|
      && modules'[i] == if Advances(state.modules, CTransition(name, to), i) then state.modules[i].(lifecycle := to)
                        else state.modules[i]
  {
    FoundFirst(state.modules, name, i);
  }

  lemma OthersKeepModules(config: Config, state: State, call: Call)
    requires !call.CTransition?
    ensures state.modules <= Do(config, state, call).modules
  {
  }

  /** A call moves a module by one step forward, if it is the transition that asks
    * for exactly that of the first module of that name, and not at all otherwise. */
  lemma OneStepAtMost(config: Config, state: State, call: Call, i: nat)
    requires i < |state.modules|
    ensures var modules' := Do(config, state, call).modules;
      && i < |modules'| && modules'[i].manifest == state.modules[i].manifest
      && Age(modules'[i].lifecycle)
            == Age(state.modules[i].lifecycle) + if Advances(state.modules, call, i) then 1 else 0
  {
    if call.CTransition? {
      TransitionAdvances(state, call.name, call.to, i);
    } else {
      OthersKeepModules(config, state, call);
    }
  }

  /** A module is registered at the end of the list, as REGISTERED. */
  lemma RegisteredLast(hashes: Hashes, state: State, manifest: ModuleManifest)
    ensures var modules' := Register(hashes, state, manifest).modules;
      && |modules'| == |state.modules| + 1 && state.modules <= modules'
      && modules'[|state.modules|].manifest == manifest && Age(modules'[|state.modules|].lifecycle) == 0
  {
  }

  lemma NextState(config: Config, calls: seq<Call>, call: Call)
    ensures After(config, calls + [call]) == Do(config, After(config, calls), call)
  {
    assert (calls + [call])[..|calls|] == calls;
  }

  /** However the history goes on, a registered module keeps its place and its
    * manifest, and its lifecycle never goes back. */
  lemma {:induction false} LifecycleNeverGoesBack(config: Config, calls: seq<Call>, more: seq<Call>, i: nat)
    requires i < |After(config, calls).modules|
    ensures var before, after := After(config, calls).modules, After(config, calls + more).modules;
      && i < |after| && after[i].manifest == before[i].manifest
      && Age(before[i].lifecycle) <= Age(after[i].lifecycle) <= Age(before[i].lifecycle) + |more|
    decreases |more|
  {
    if more == [] {
      assert calls + more == calls;
    } else {
      var front, last := more[..|more| - 1], more[|more| - 1];
      LifecycleNeverGoesBack(config, calls, front, i);
      assert calls + more == calls + front + [last];
      NextState(config, calls + front, last);
      OneStepAtMost(config, After(config, calls + front), last, i);
    }
  }

  // ---------------------------------------------------------------- contracts

  /** The contract stays, or an empty placeholder is filled. */
  ghost predicate FillsAtMost(before: Contract, after: Contract) {
    after == before || (IsPlaceholder(before) && !IsPlaceholder(after))
  }

  lemma {:induction false} NamingKeeps(hashes: Hashes, contracts: map<string, Contract>, refs: seq<string>, ref: string)
    requires ref in contracts
    ensures var named := NamePlaceholders(hashes, contracts, refs); ref in named && named[ref] == contracts[ref]
    decreases |refs|
  {
    if refs != [] {
      var named := if refs[0] == "" || refs[0] in contracts then contracts
                   else contracts[refs[0] := Placeholder(hashes, refs[0])];
      NamingKeeps(hashes, named, refs[1..], ref);
    }
  }

  /** The ref is asked for on some port, in or out, of some capability. */
  ghost predicate AskedOn(ports: seq<Port>, ref: string) {
    exists p, t :: 0 <= p < |ports| && 0 <= t < |ports[p].traits| && ports[p].traits[t] == ref
  }

  ghost predicate Mentions(capabilities: seq<Capability>, ref: string) {
    exists c :: 0 <= c < |capabilities|
                && (AskedOn(capabilities[c].inputs, ref) || AskedOn(capabilities[c].outputs, ref))
  }

  lemma {:induction false} PortRefsAre(ports: seq<Port>, ref: string)
    ensures ref in PortRefs(ports) <==> AskedOn(ports, ref)
  {
    if ports != [] {
      PortRefsAre(ports[1..], ref);
      if ref in ports[0].traits {
        var t :| 0 <= t < |ports[0].traits| && ports[0].traits[t] == ref;
        assert AskedOn(ports, ref);
      }
      if p, t :| 0 <= p < |ports[1..]| && 0 <= t < |ports[1..][p].traits| && ports[1..][p].traits[t] == ref {
        assert ports[p + 1].traits[t] == ref;
      }
      if p, t :| 0 <= p < |ports| && 0 <= t < |ports[p].traits| && ports[p].traits[t] == ref {
        assert p > 0 ==> ports[1..][p - 1].traits[t] == ref;
      }
    }
  }

  lemma {:induction false} ManifestRefsAre(capabilities: seq<Capability>, ref: string)
    ensures ref in ManifestRefs(capabilities) <==> Mentions(capabilities, ref)
  {
    if capabilities != [] {
      var rest := capabilities[1..];
      ManifestRefsAre(rest, ref);
      PortRefsAre(capabilities[0].inputs, ref);
      PortRefsAre(capabilities[0].outputs, ref);
      hide AskedOn, PortRefs;
      if c :| 0 <= c < |rest| && (AskedOn(rest[c].inputs, ref) || AskedOn(rest[c].outputs, ref)) {
        assert AskedOn(capabilities[c + 1].inputs, ref) || AskedOn(capabilities[c + 1].outputs, ref);
      }
      if c :| 0 <= c < |capabilities|
              && (AskedOn(capabilities[c].inputs, ref) || AskedOn(capabilities[c].outputs, ref)) {
        assert c > 0 ==> AskedOn(rest[c - 1].inputs, ref) || AskedOn(rest[c - 1].outputs, ref);
      }
    }
  }

  lemma {:induction false} NamedAre(hashes: Hashes, contracts: map<string, Contract>, refs: seq<string>, ref: string)
    ensures var named := NamePlaceholders(hashes, contracts, refs);
      && (ref in named <==> ref in contracts || (ref != "" && ref in refs))
      && (ref in contracts ==> named[ref] == contracts[ref])
      && (ref in named && ref !in contracts ==> named[ref] == Placeholder(hashes, ref))
    decreases |refs|
  {
    if refs != [] {
      var named := if refs[0] == "" || refs[0] in contracts then contracts
                   else contracts[refs[0] := Placeholder(hashes, refs[0])];
      NamedAre(hashes, named, refs[1..], ref);
      assert ref in refs <==> ref == refs[0] || ref in refs[1..];
    }
  }

  /** Registering a module names every contract that its ports ask for, and no other: the
    * ones not there yet by an empty contract of that ref, to be filled later. */
  lemma RegisterNames(hashes: Hashes, state: State, manifest: ModuleManifest, ref: string)
    ensures var contracts' := Register(hashes, state, manifest).contracts;
      && (ref in contracts' <==> ref in state.contracts || (ref != "" && Mentions(manifest.capabilities, ref)))
      && (ref in state.contracts ==> contracts'[ref] == state.contracts[ref])
      && (ref in contracts' && ref !in state.contracts ==>
            IsPlaceholder(contracts'[ref]) && contracts'[ref].ref == ref
            && contracts'[ref].digest == hashes.contract("", "", "", []))
  {
    NamedAre(hashes, state.contracts, ManifestRefs(manifest.capabilities), ref);
    ManifestRefsAre(manifest.capabilities, ref);
  }

  lemma PutContractFills(hashes: Hashes, state: State, submitted: Contract, ref: string)
    requires ref in state.contracts
    ensures var contracts' := PutContract(hashes, state, submitted).0.contracts;
      ref in contracts' && FillsAtMost(state.contracts[ref], contracts'[ref])
  {
  }

  lemma OthersKeepContracts(config: Config, state: State, call: Call)
    requires !call.CRegister? && !call.CPutContract?
    ensures Do(config, state, call).contracts == state.contracts
  {
    hide PutFault, SetLifecycle, StartFault, Materialize, FreshSlot, ClaimReady, Heartbeat, FailWork, Commit, Inject;
  }

  lemma CallFills(config: Config, state: State, call: Call, ref: string)
    requires ref in state.contracts
    ensures var contracts' := Do(config, state, call).contracts;
      ref in contracts' && FillsAtMost(state.contracts[ref], contracts'[ref])
  {
    hide Register, PutContract;
    match call
    case CRegister(manifest) => RegisterFills(config.hashes, state, manifest, ref);
    case CPutContract(contract) => PutContractFills(config.hashes, state, contract, ref);
    case _ => OthersKeepContracts(config, state, call);
  }

  lemma RegisterFills(hashes: Hashes, state: State, manifest: ModuleManifest, ref: string)
    requires ref in state.contracts
    ensures var contracts' := Register(hashes, state, manifest).contracts;
      ref in contracts' && contracts'[ref] == state.contracts[ref]
  {
    NamingKeeps(hashes, state.contracts, ManifestRefs(manifest.capabilities), ref);
  }

  lemma {:induction false} ContractStays(config: Config, calls: seq<Call>, more: seq<Call>, ref: string)
    requires ref in After(config, calls).contracts
    ensures var before, after := After(config, calls).contracts, After(config, calls + more).contracts;
      ref in after && FillsAtMost(before[ref], after[ref])
    decreases |more|
  {
    if more == [] {
      assert calls + more == calls;
    } else {
      var front, last := more[..|more| - 1], more[|more| - 1];
      ContractStays(config, calls, front, ref);
      assert calls + more == calls + front + [last];
      NextState(config, calls + front, last);
      CallFills(config, After(config, calls + front), last, ref);
    }
  }

  /** A contract changes at most once in any history: while it is a placeholder,
    * and then for good. */
  lemma FilledOnce(config: Config, calls: seq<Call>, more: seq<Call>, rest: seq<Call>, ref: string)
    requires ref in After(config, calls).contracts
    ensures ref in After(config, calls + more).contracts && ref in After(config, calls + more + rest).contracts
    ensures var a, b := After(config, calls).contracts[ref], After(config, calls + more).contracts[ref];
      a != b ==> IsPlaceholder(a) && !IsPlaceholder(b) && After(config, calls + more + rest).contracts[ref] == b
  {
    ContractStays(config, calls, more, ref);
    ContractStays(config, calls + more, rest, ref);
  }

  /** A contract that is not empty is stored for good under its ref, or was there
    * already, or is refused; then its ref is missing, its digest is wrong, or the
    * ref holds something else. */
  lemma SubmittedContract(config: Config, calls: seq<Call>, submitted: Contract, more: seq<Call>)
    requires !IsPlaceholder(submitted)
    ensures var state, put := After(config, calls), PutContract(config.hashes, After(config, calls), submitted);
      var contract, ref := Normalized(config.hashes, submitted), submitted.ref;
      var later := After(config, calls + [CPutContract(submitted)] + more).contracts;
      if put.1.None? then
        || (ref in later && later[ref] == contract)
        || (ref in state.contracts && state.contracts[ref].digest == contract.digest && put.0 == state)
      else
        || ref == "" || (submitted.digest != "" && submitted.digest != contract.digest)
        || (ref in state.contracts && !IsPlaceholder(state.contracts[ref])
            && state.contracts[ref].digest != contract.digest)
  {
    var all := calls + [CPutContract(submitted)];
    NextState(config, calls, CPutContract(submitted));
    SortNamesSorts(submitted.compatibleWith);
    if PutContract(config.hashes, After(config, calls), submitted).1.None? {
      ContractStays(config, all, more, submitted.ref);
    }
  }

  /** Exactly which contracts are accepted: they have a ref, no digest or the right one, and
    * nothing else is under the ref, unless it is a placeholder to fill. A clash is a
    * Conflict, and a refusal changes nothing. */
  lemma ContractAcceptedIff(hashes: Hashes, state: State, submitted: Contract)
    ensures var contract, put := Normalized(hashes, submitted), PutContract(hashes, state, submitted);
      var whole := submitted.ref != "" && (submitted.digest == "" || submitted.digest == contract.digest);
      var clashes := submitted.ref in state.contracts && state.contracts[submitted.ref].digest != contract.digest
                     && !(IsPlaceholder(state.contracts[submitted.ref]) && !IsPlaceholder(contract));
      && (put.1.None? <==> whole && !clashes) && (put.1 == Some(Conflict) <==> whole && clashes)
      && (put.1.Some? ==> put.0 == state && put.1.value in {Invalid, Conflict})
  {
  }

  /** The contract as it is stored: names sorted, digest assigned. */
  function Normalized(hashes: Hashes, c: Contract): Contract {
    var compatible := SortNames(c.compatibleWith);
    c.(compatibleWith := compatible, digest := hashes.contract(c.mediaType, c.schema, c.version, compatible))
  }

  // ---------------------------------------------------------------- blobs

  /** A blob within the limit is accepted, and however the history goes on it is
    * stored under its namespace and digest: these very bytes, or bytes with the
    * same digest that were there before. Putting it again changes nothing. */
  lemma BlobReadsBack(config: Config, calls: seq<Call>, namespace: string, data: Bytes, more: seq<Call>)
    ensures var put := PutBlob(config.hashes, config.policy, After(config, calls), namespace, data);
      && (put.1.Success? <==> config.policy.maxBlob == 0 || |data| <= config.policy.maxBlob)
      && (put.1.Success? ==>
            var later, key := After(config, calls + [CPutBlob(namespace, data)] + more),
                            (namespace, config.hashes.blob(data));
            && put.1.value == ObjectRef(key.1, |data|, namespace) && key in later.blobs
            && config.hashes.blob(later.blobs[key].data) == config.hashes.blob(data)
            && (key !in After(config, calls).blobs ==> later.blobs[key].data == data)
            && PutBlob(config.hashes, config.policy, later, namespace, data) == (later, put.1))
  {
    var all := calls + [CPutBlob(namespace, data)];
    NextState(config, calls, CPutBlob(namespace, data));
    StoredForever(config, all, more);
    HistoryIntact(config, all + more);
  }
}
