/** What a host remembers: which units get a record, what is in it, and that a unit
  * once committed is a hit from then on. */
module Records {
  import opened Base
  import opened Types
  import opened Strings
  import opened Scheduler
  import opened Moves
  import opened Seeds
  import opened Memo
  import opened Policies
  import opened Steps
  import opened Waves

  /** The policy asks for records of this node, and its plugin names its version. */
  predicate Memoisable(s: Setup, node: AssemblyNode) {
    && s.policy.memoEnabled && Allows(s.policy.memoNodes, node.id)
    && node.mod in s.plugins && s.plugins[node.mod].digest != ""
  }

  /** The ports on which something was put out, each with what was put out last. */
  ghost predicate Summarises(ports: map<string, string>, outputs: seq<NamedArtifact>) {
    && (forall port :: port in ports <==> exists i :: 0 <= i < |outputs| && outputs[i].name == port)
    && (forall i :: 0 <= i < |outputs| && (forall j :: i < j < |outputs| ==> outputs[j].name != outputs[i].name) ==>
          outputs[i].name in ports && outputs[i].artifact == Some(ports[outputs[i].name]))
  }

  lemma PortMapSummarises(outputs: seq<NamedArtifact>)
    requires Filled(outputs)
    ensures Summarises(PortMap(outputs), outputs)
  {
    var ports := PortMap(outputs);
    hide PortMap, LastNamed;
    forall port
      ensures port in ports <==> exists i :: 0 <= i < |outputs| && outputs[i].name == port
    {
      PortMapIsLast(outputs, port);
      SomeLast(outputs, port);
    }
    forall i | 0 <= i < |outputs| && forall j :: i < j < |outputs| ==> outputs[j].name != outputs[i].name
      ensures outputs[i].name in ports && outputs[i].artifact == Some(ports[outputs[i].name])
    {
      PortMapIsLast(outputs, outputs[i].name);
      LastThere(outputs, i);
    }
  }

  // ---------------------------------------------------------------- a record makes a hit

  lemma {:induction false} MappedIsOutput(outs: seq<NamedArtifact>, port: string)
    requires port in PortMap(outs)
    ensures exists i :: 0 <= i < |outs| && outs[i].artifact == Some(PortMap(outs)[port])
  {
    var n := |outs| - 1;
    if outs[n].artifact == Some(PortMap(outs)[port]) {
    } else {
      MappedIsOutput(outs[..n], port);
      var i :| 0 <= i < |outs[..n]| && outs[..n][i].artifact == Some(PortMap(outs[..n])[port]);
      assert outs[i].artifact == Some(PortMap(outs)[port]);
    }
  }

  /** A record of stored outputs is a hit. */
  lemma RecordHits(s: Setup, memo: map<MemoKey, MemoRecord>, world: World, w: WorkItem, outs: seq<StepArtifact>)
    requires Memoisable(s, w.node) && KeyFor(s.plugins[w.node.mod].digest, w) in memo && AllStored(world, outs)
    requires memo[KeyFor(s.plugins[w.node.mod].digest, w)].outputs == PortMap(NamedOf(outs))
    ensures HasHit(s, memo, world, w)
  {
    var ports := PortMap(NamedOf(outs));
    var items := RecordOutputs(ports);
    forall i | 0 <= i < |items|
      ensures items[i].artifact.Some? && items[i].artifact.value in world.traits
    {
      var port := Listing(ports.Keys)[i];
      MappedIsOutput(NamedOf(outs), port);
      var j :| 0 <= j < |NamedOf(outs)| && NamedOf(outs)[j].artifact == Some(ports[port]);
      assert outs[j].id in world.traits;
    }
  }

  /** A hit is on a node the policy asks records of, and everything it commits is stored. */
  lemma HitsWhereAsked(s: Setup, memo: map<MemoKey, MemoRecord>, world: World, w: WorkItem)
    requires HasHit(s, memo, world, w)
    ensures Memoisable(s, w.node) && KeyFor(s.plugins[w.node.mod].digest, w) in memo
    ensures forall port :: port in memo[KeyFor(s.plugins[w.node.mod].digest, w)].outputs ==>
      memo[KeyFor(s.plugins[w.node.mod].digest, w)].outputs[port] in world.traits
  {
    var ports := memo[KeyFor(s.plugins[w.node.mod].digest, w)].outputs;
    forall port | port in ports
      ensures ports[port] in world.traits
    {
      Listed(ports.Keys, port);
      var i :| 0 <= i < |Listing(ports.Keys)| && Listing(ports.Keys)[i] == port;
      assert RecordOutputs(ports)[i] == NamedArtifact(port, Some(ports[port]));
    }
  }

  // ---------------------------------------------------------------- what a host has learned

  /** The unit of a derivation, as a host would be handed it. */
  function UnitOf(d: Derivation): WorkItem {
    WorkItem(d.work, d.node, d.inputs, d.work.unit, 0, 0)
  }

  /** Every derivation from the n-th on that gets a record is a hit by now. */
  ghost predicate HitsFrom(s: Setup, memo: map<MemoKey, MemoRecord>, world: World, ds: seq<Derivation>, n: nat) {
    forall i :: n <= i < |ds| && Memoisable(s, ds[i].node) ==> HasHit(s, memo, world, UnitOf(ds[i]))
  }

  /** Records stay, with what they hold. */
  ghost predicate RecordsKept(memo: map<MemoKey, MemoRecord>, memo': map<MemoKey, MemoRecord>) {
    forall key :: key in memo ==> key in memo' && memo'[key].outputs == memo[key].outputs
  }

  /** From one moment to a later one: a host without memo learns nothing, one with it
    * forgets nothing and learns every unit it commits. */
  ghost predicate Learned(s: Setup, memo: map<MemoKey, MemoRecord>, world: World, log: RunLog,
                          memo': map<MemoKey, MemoRecord>, world': World, log': RunLog) {
    && (!s.policy.memoEnabled ==> memo' == memo) && RecordsKept(memo, memo') && Grows(world, world')
    && log.derivations <= log'.derivations && HitsFrom(s, memo', world', log'.derivations, |log.derivations|)
  }

  lemma LearnedNone(s: Setup, memo: map<MemoKey, MemoRecord>, world: World, log: RunLog, world': World, log': RunLog)
    requires log'.derivations == log.derivations && Grows(world, world')
    ensures Learned(s, memo, world, log, memo, world', log')
  {
  }

  lemma HitStays(s: Setup, memo: map<MemoKey, MemoRecord>, world: World, memo': map<MemoKey, MemoRecord>, world': World,
                 w: WorkItem)
    requires HasHit(s, memo, world, w) && RecordsKept(memo, memo') && Grows(world, world')
    ensures HasHit(s, memo', world', w)
  {
  }

  lemma LearnedOn(s: Setup, a: map<MemoKey, MemoRecord>, u: World, x: RunLog, b: map<MemoKey, MemoRecord>, v: World,
                  y: RunLog, c: map<MemoKey, MemoRecord>, w: World, z: RunLog)
    requires Learned(s, a, u, x, b, v, y) && Learned(s, b, v, y, c, w, z)
    ensures Learned(s, a, u, x, c, w, z)
  {
    hide HasHit;
    GrowsTransitive(u, v, w);
    forall i | |x.derivations| <= i < |z.derivations| && Memoisable(s, z.derivations[i].node)
      ensures HasHit(s, c, w, UnitOf(z.derivations[i]))
    {
      if i < |y.derivations| {
        assert z.derivations[i] == y.derivations[i];
        HitStays(s, b, v, c, w, UnitOf(y.derivations[i]));
      }
    }
  }

  /** A unit is committed that is a hit now, if it gets a record at all. */
  lemma LearnedUnit(s: Setup, memo: map<MemoKey, MemoRecord>, world: World, log: RunLog,
                    memo': map<MemoKey, MemoRecord>, world': World, log': RunLog, w: WorkItem,
                    outputs: seq<NamedArtifact>)
    requires Committed(log, log', w, outputs) && RecordsKept(memo, memo') && Grows(world, world')
    requires (!s.policy.memoEnabled ==> memo' == memo) && (Memoisable(s, w.node) ==> HasHit(s, memo', world', w))
    ensures Learned(s, memo, world, log, memo', world', log')
  {
    var n := |log.derivations|;
    assert log'.derivations[n] == DerivationOf(w, outputs);
    if Memoisable(s, w.node) {
      SameHit(s, memo', world', w, UnitOf(log'.derivations[n]));
    }
  }

  lemma SameHit(s: Setup, memo: map<MemoKey, MemoRecord>, world: World, w: WorkItem, v: WorkItem)
    requires v.node == w.node && v.inputs == w.inputs
    ensures HasHit(s, memo, world, v) <==> HasHit(s, memo, world, w)
  {
  }

  /** So whoever is handed the same work later, in whatever run, has a hit. */
  lemma NextTimeHits(s: Setup, memo: map<MemoKey, MemoRecord>, world: World, log: RunLog,
                     memo': map<MemoKey, MemoRecord>, world': World, log': RunLog, i: nat, w: WorkItem)
    requires Learned(s, memo, world, log, memo', world', log')
    requires |log.derivations| <= i < |log'.derivations| && Memoisable(s, w.node)
    requires w.node == log'.derivations[i].node && w.inputs == log'.derivations[i].inputs
    ensures HasHit(s, memo', world', w)
  {
    SameHit(s, memo', world', w, UnitOf(log'.derivations[i]));
  }

  /** Both sound, so both hold what executing the unit puts out. */
  lemma SameRecord(plugins: Plugins, key: MemoKey, a: MemoRecord, b: MemoRecord)
    requires RecordSound(plugins, key, a) && RecordSound(plugins, key, b)
    ensures a.outputs == b.outputs
  {
  }

  // ---------------------------------------------------------------- when work counts as the same

  /** The ports give the same artifacts, the last on each counting. */
  ghost predicate SameOnPorts(a: seq<NamedArtifact>, b: seq<NamedArtifact>) {
    && (forall i :: 0 <= i < |a| && Fills(a[i], a[i].name) ==> exists j :: 0 <= j < |b| && Fills(b[j], a[i].name))
    && (forall j :: 0 <= j < |b| && Fills(b[j], b[j].name) ==> exists i :: 0 <= i < |a| && Fills(a[i], b[j].name))
    && (forall port, i, j :: LastFills(a, port, i) && LastFills(b, port, j) ==> a[i].artifact == b[j].artifact)
  }

  lemma LastIsMapped(items: seq<NamedArtifact>, port: string, i: int)
    requires LastFills(items, port, i)
    ensures port in PortMap(items) && items[i].artifact == Some(PortMap(items)[port])
  {
    hide PortMap;
    PortMapIff(items, port);
    var k :| LastFills(items, port, k) && PortMap(items)[port] == items[k].artifact.value;
    assert k == i;
  }

  lemma SameMap(a: seq<NamedArtifact>, b: seq<NamedArtifact>)
    requires PortMap(a) == PortMap(b)
    ensures SameOnPorts(a, b)
  {
    hide PortMap;
    forall i | 0 <= i < |a| && Fills(a[i], a[i].name)
      ensures exists j :: 0 <= j < |b| && Fills(b[j], a[i].name)
    {
      PortMapIff(a, a[i].name);
      PortMapIff(b, a[i].name);
    }
    forall j | 0 <= j < |b| && Fills(b[j], b[j].name)
      ensures exists i :: 0 <= i < |a| && Fills(a[i], b[j].name)
    {
      PortMapIff(a, b[j].name);
      PortMapIff(b, b[j].name);
    }
    forall port, i, j | LastFills(a, port, i) && LastFills(b, port, j)
      ensures a[i].artifact == b[j].artifact
    {
      LastIsMapped(a, port, i);
      LastIsMapped(b, port, j);
    }
  }

  lemma SamePort(a: seq<NamedArtifact>, b: seq<NamedArtifact>, port: string)
    requires SameOnPorts(a, b) && port in PortMap(a)
    ensures port in PortMap(b) && PortMap(a)[port] == PortMap(b)[port]
  {
    hide PortMap;
    PortMapIff(a, port);
    PortMapIff(b, port);
    var i :| LastFills(a, port, i) && PortMap(a)[port] == a[i].artifact.value;
    assert Fills(a[i], a[i].name);
    var j :| LastFills(b, port, j) && PortMap(b)[port] == b[j].artifact.value;
  }

  lemma SameMapIff(a: seq<NamedArtifact>, b: seq<NamedArtifact>)
    ensures PortMap(a) == PortMap(b) <==> SameOnPorts(a, b)
  {
    hide PortMap;
    if PortMap(a) == PortMap(b) {
      SameMap(a, b);
    }
    if SameOnPorts(a, b) {
      hide SameOnPorts;
      SameSwapped(a, b);
      forall port | port in PortMap(a)
        ensures port in PortMap(b) && PortMap(a)[port] == PortMap(b)[port]
      {
        SamePort(a, b, port);
      }
      forall port | port in PortMap(b)
        ensures port in PortMap(a)
      {
        SamePort(b, a, port);
      }
    }
  }

  lemma SameSwapped(a: seq<NamedArtifact>, b: seq<NamedArtifact>)
    requires SameOnPorts(a, b)
    ensures SameOnPorts(b, a)
  {
  }

  /** A host takes two units for the same work exactly when module, version, digest and
    * capability agree and the inputs are the same port by port. */
  lemma SameWorkIff(digest: string, w: WorkItem, digest': string, w': WorkItem)
    ensures KeyFor(digest, w) == KeyFor(digest', w')
       <==> w.node.mod == w'.node.mod && w.node.version == w'.node.version && digest == digest'
            && w.node.capability == w'.node.capability && SameOnPorts(w.inputs, w'.inputs)
  {
    SameMapIff(w.inputs, w'.inputs);
  }
}
