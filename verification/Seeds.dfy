/** Seed inputs: collecting them from a prior run, merging them over the run
  * inputs, and checking that none is missing. */
module Seeds {
  import opened Base
  import opened Types
  import opened Strings
  import opened Accounting
  import opened Cut

  // ---------------------------------------------------------------- names

  predicate NoSlash(id: string) {
    '/' !in id
  }

  /** Where node ids hold no slash, a seed name names one producer port. */
  lemma SeedNameInjective(a: string, p: string, b: string, q: string)
    requires NoSlash(a) && NoSlash(b) && SeedName(a, p) == SeedName(b, q)
    ensures a == b && p == q
  {
    var x, y := SeedName(a, p), SeedName(b, q);
    var n := |SEED_PREFIX|;
    assert x[n + |a|] == '/' && y[n + |b|] == '/';
    assert forall i :: 0 <= i < |a| ==> x[n + i] == a[i];
    assert forall i :: 0 <= i < |b| ==> y[n + i] == b[i];
    assert |a| == |b|;
    assert a == x[n..n + |a|] && b == y[n..n + |b|];
    assert p == x[n + |a| + 1..] && q == y[n + |b| + 1..];
  }

  /** The longer node id holds the shorter one, a slash and the start of its port. */
  predicate Overlaps(a: string, p: string, b: string, q: string) {
    |a| < |b| && b[..|a| + 1] == a + "/" && p == b[|a| + 1..] + "/" + q
  }

  lemma OverlapBlurs(a: string, p: string, b: string, q: string)
    requires Overlaps(a, p, b, q)
    ensures SeedName(a, p) == SeedName(b, q)
  {
    var m := b[|a| + 1..];
    assert b == a + "/" + m;
    assert a + "/" + p == a + "/" + m + "/" + q;
  }

  lemma BlurOverlaps(a: string, p: string, b: string, q: string)
    requires SeedName(a, p) == SeedName(b, q) && |a| < |b|
    ensures Overlaps(a, p, b, q)
  {
    var n, x, y := |SEED_PREFIX|, SeedName(a, p), SeedName(b, q);
    assert x[n..] == a + "/" + p && y[n..] == b + "/" + q;
    var u, v := a + "/" + p, b + "/" + q;
    assert b == v[..|b|] && a + "/" == u[..|a| + 1] && p == u[|a| + 1..];
    assert b[..|a| + 1] == v[..|a| + 1];
    assert v[|a| + 1..] == b[|a| + 1..] + "/" + q;
  }

  /** Exactly when two ports have one seed name: they are one port, or one node id
    * begins with the other and a slash, and the ports make up for the rest. */
  lemma SeedNamesAgree(a: string, p: string, b: string, q: string)
    ensures SeedName(a, p) == SeedName(b, q)
       <==> (a == b && p == q) || Overlaps(a, p, b, q) || Overlaps(b, q, a, p)
  {
    if Overlaps(a, p, b, q) {
      OverlapBlurs(a, p, b, q);
    }
    if Overlaps(b, q, a, p) {
      OverlapBlurs(b, q, a, p);
    }
    if SeedName(a, p) == SeedName(b, q) {
      if |a| < |b| {
        BlurOverlaps(a, p, b, q);
      } else if |b| < |a| {
        BlurOverlaps(b, q, a, p);
      } else {
        var n, x, y := |SEED_PREFIX|, SeedName(a, p), SeedName(b, q);
        assert a == x[n..n + |a|] && b == y[n..n + |b|];
        assert p == x[n + |a| + 1..] && q == y[n + |b| + 1..];
      }
    }
  }

  /** With slashes in node ids it may name two. */
  lemma SlashesBlurSeeds()
    ensures SeedName("a", "b/c") == SeedName("a/b", "c")
  {
    assert SeedName("a", "b/c") == "__seed/a/b/c" == SeedName("a/b", "c");
  }

  lemma SeedNamesAreSeeds(node: string, port: string)
    ensures IsSeedName(SeedName(node, port)) && SeedName(node, port) != ""
  {
    assert SeedName(node, port)[..|SEED_PREFIX|] == SEED_PREFIX;
  }

  // ---------------------------------------------------------------- seeds of a prior run

  /** Add a node's outputs, first of each name, under their seed names. */
  function AddOutputs(node: string, outputs: seq<NamedArtifact>, acc: seq<NamedArtifact>): Option<seq<NamedArtifact>>
    decreases |outputs|
  {
    if outputs == [] then Some(acc)
    else
      var name := SeedName(node, outputs[0].name);
      if outputs[0].name == "" || FirstNamed(acc, name).Some? then AddOutputs(node, outputs[1..], acc)
      else if outputs[0].artifact.None? then None
      else AddOutputs(node, outputs[1..], acc + [NamedArtifact(name, outputs[0].artifact)])
  }

  /** Node by node; none as soon as a node has no derivation. */
  function AddNodes(nodes: seq<string>, ds: seq<Derivation>, acc: seq<NamedArtifact>): Option<seq<NamedArtifact>>
    decreases |nodes|
  {
    if nodes == [] then Some(acc)
    else
      var last := LastOf(ds, nodes[0]);
      if last.None? then None
      else
        var added := AddOutputs(nodes[0], last.value.outputs, acc);
        if added.None? then None else AddNodes(nodes[1..], ds, added.value)
  }

  ghost function SeedsOf(ds: seq<Derivation>, nodes: set<string>): Option<seq<NamedArtifact>> {
    AddNodes(Listing(nodes), ds, [])
  }

  method LatestPerNode(ds: seq<Derivation>, want: set<string>) returns (latest: map<string, Derivation>)
    ensures forall n :: n in want ==> LastOf(ds, n) == if n in latest then Some(latest[n]) else None
  {
    latest := map[];
    for i := 0 to |ds|
      invariant forall n :: n in want ==> LastOf(ds[..i], n) == if n in latest then Some(latest[n]) else None
    {
      assert ds[..i + 1][..i] == ds[..i];
      if ds[i].node.id in want {
        latest := latest[ds[i].node.id := ds[i]];
      }
    }
    assert ds[..|ds|] == ds;
  }

  method CollectOutputs(node: string, outputs: seq<NamedArtifact>,
                        acc: seq<NamedArtifact>) returns (seeds: Option<seq<NamedArtifact>>)
    ensures seeds == AddOutputs(node, outputs, acc)
  {
    var list := acc;
    assert outputs[0..] == outputs;
    for i := 0 to |outputs|
      invariant AddOutputs(node, outputs, acc) == AddOutputs(node, outputs[i..], list)
    {
      var o := outputs[i];
      assert outputs[i..][0] == o && outputs[i..][1..] == outputs[i + 1..];
      if o.name == "" {
        continue;
      }
      var name := SeedName(node, o.name);
      if FirstNamed(list, name).Some? {
        continue;
      }
      if o.artifact.None? {
        return None;
      }
      list := list + [NamedArtifact(name, o.artifact)];
    }
    assert outputs[|outputs|..] == [];
    return Some(list);
  }

  /** `seeds_from_run`, given the run's derivations. */
  method SeedsFromRun(ds: seq<Derivation>, cutNodes: seq<string>) returns (seeds: Option<seq<NamedArtifact>>)
    ensures seeds == SeedsOf(ds, set n | n in cutNodes)
  {
    var want := set n | n in cutNodes;
    var latest := LatestPerNode(ds, want);
    var nodes := Keys(want);
    SortedIsListing(want, nodes);
    nodes := SortNames(nodes);
    var list := [];
    assert nodes[0..] == nodes;
    for i := 0 to |nodes|
      invariant AddNodes(nodes, ds, []) == AddNodes(nodes[i..], ds, list)
    {
      assert nodes[i] in want;
      assert nodes[i..][0] == nodes[i] && nodes[i..][1..] == nodes[i + 1..];
      if nodes[i] !in latest {
        return None;
      }
      var added := CollectOutputs(nodes[i], latest[nodes[i]].outputs, list);
      if added.None? {
        return None;
      }
      list := added.value;
    }
    assert nodes[|nodes|..] == [];
    return Some(list);
  }

  /** A list of inputs with one artifact each and no name twice. */
  ghost predicate OneEach(items: seq<NamedArtifact>) {
    && (forall i :: 0 <= i < |items| ==> items[i].artifact.Some?)
    && (forall i, j :: 0 <= i < j < |items| ==> items[i].name != items[j].name)
  }

  lemma {:induction false} NamedAppended(items: seq<NamedArtifact>, last: NamedArtifact, name: string)
    ensures FirstNamed(items + [last], name)
         == if FirstNamed(items, name).Some? then FirstNamed(items, name)
            else if last.name == name then Some(last) else None
  {
    if items != [] {
      assert (items + [last])[1..] == items[1..] + [last];
      NamedAppended(items[1..], last, name);
    }
  }

  /** Each output port, by its first output, gets under its seed name what the
    * node committed; other names are left alone. */
  lemma {:induction false} OutputsAdded(node: string, outputs: seq<NamedArtifact>, acc: seq<NamedArtifact>,
                                        name: string)
    requires OneEach(acc) && AddOutputs(node, outputs, acc).Some?
    ensures var r := AddOutputs(node, outputs, acc).value;
      && OneEach(r)
      && (FirstNamed(acc, name).Some? ==> FirstNamed(r, name) == FirstNamed(acc, name))
      && (FirstNamed(acc, name).None? && FirstNamed(r, name).Some? ==>
            exists port :: name == SeedName(node, port))
    decreases |outputs|
  {
    if outputs != [] {
      var added := SeedName(node, outputs[0].name);
      if outputs[0].name == "" || FirstNamed(acc, added).Some? {
        OutputsAdded(node, outputs[1..], acc, name);
      } else {
        NamedAppended(acc, NamedArtifact(added, outputs[0].artifact), name);
        OutputsAdded(node, outputs[1..], acc + [NamedArtifact(added, outputs[0].artifact)], name);
      }
    }
  }

  lemma {:induction false} PortAdded(node: string, outputs: seq<NamedArtifact>, acc: seq<NamedArtifact>, port: string)
    requires OneEach(acc) && NoSlash(node) && port != "" && AddOutputs(node, outputs, acc).Some?
    requires FirstNamed(acc, SeedName(node, port)).None?
    ensures ArtifactNamed(AddOutputs(node, outputs, acc).value, SeedName(node, port)) == ArtifactNamed(outputs, port)
    decreases |outputs|
  {
    if outputs != [] {
      var o, name := outputs[0], SeedName(node, port);
      var added := SeedName(node, o.name);
      if added == name {
        SeedNameInjective(node, o.name, node, port);
      }
      if o.name == "" || FirstNamed(acc, added).Some? {
        PortAdded(node, outputs[1..], acc, port);
      } else {
        var acc' := acc + [NamedArtifact(added, o.artifact)];
        NamedAppended(acc, NamedArtifact(added, o.artifact), name);
        if o.name == port {
          OutputsAdded(node, outputs[1..], acc', name);
        } else {
          PortAdded(node, outputs[1..], acc', port);
        }
      }
    }
  }

  /** Seeds carry, under the name of each port of each cut node, the artifact the
    * node last committed there. */
  lemma {:induction false} NodesAdded(nodes: seq<string>, ds: seq<Derivation>, acc: seq<NamedArtifact>, node: string,
                                      port: string)
    requires OneEach(acc) && AddNodes(nodes, ds, acc).Some? && port != ""
    requires (forall i :: 0 <= i < |nodes| ==> NoSlash(nodes[i])) && NoSlash(node)
    requires FirstNamed(acc, SeedName(node, port)).None?
    ensures OneEach(AddNodes(nodes, ds, acc).value)
    ensures var seed := ArtifactNamed(AddNodes(nodes, ds, acc).value, SeedName(node, port));
      if node in nodes then LastOf(ds, node).Some? && seed == ArtifactNamed(LastOf(ds, node).value.outputs, port)
      else seed == None
    decreases |nodes|
  {
    if nodes != [] {
      var name := SeedName(node, port);
      var outputs := LastOf(ds, nodes[0]).value.outputs;
      var acc' := AddOutputs(nodes[0], outputs, acc).value;
      OutputsAdded(nodes[0], outputs, acc, name);
      if nodes[0] == node {
        PortAdded(node, outputs, acc, port);
        NodesKeep(nodes[1..], ds, acc', name);
        if FirstNamed(acc', name).None? {
          NodesAdded(nodes[1..], ds, acc', node, port);
        }
      } else {
        if FirstNamed(acc', name).Some? {
          var p :| name == SeedName(nodes[0], p);
          SeedNameInjective(nodes[0], p, node, port);
          assert false;
        }
        NodesAdded(nodes[1..], ds, acc', node, port);
      }
    }
  }

  lemma {:induction false} NodesKeep(nodes: seq<string>, ds: seq<Derivation>, acc: seq<NamedArtifact>, name: string)
    requires OneEach(acc) && AddNodes(nodes, ds, acc).Some?
    ensures OneEach(AddNodes(nodes, ds, acc).value)
    ensures FirstNamed(acc, name).Some? ==> FirstNamed(AddNodes(nodes, ds, acc).value, name) == FirstNamed(acc, name)
    decreases |nodes|
  {
    if nodes != [] {
      var outputs := LastOf(ds, nodes[0]).value.outputs;
      OutputsAdded(nodes[0], outputs, acc, name);
      NodesKeep(nodes[1..], ds, AddOutputs(nodes[0], outputs, acc).value, name);
    }
  }

  // ---------------------------------------------------------------- merging

  /** An ordered map's `insert`: replace the item of that name or add it in order. */
  function Upsert(items: seq<NamedArtifact>, na: NamedArtifact): seq<NamedArtifact> {
    if items == [] then [na]
    else if items[0].name == na.name then [na] + items[1..]
    else if NameLe(na.name, items[0].name) then [na] + items
    else [items[0]] + Upsert(items[1..], na)
  }

  function UpsertAll(items: seq<NamedArtifact>, more: seq<NamedArtifact>): seq<NamedArtifact> {
    if more == [] then items else Upsert(UpsertAll(items, more[..|more| - 1]), more[|more| - 1])
  }

  /** Base inputs overlaid with seeds. */
  function Merged(base: seq<NamedArtifact>, seeds: seq<NamedArtifact>): seq<NamedArtifact> {
    UpsertAll(UpsertAll([], base), seeds)
  }

  /** `merge_inputs`. */
  method MergeInputs(base: seq<NamedArtifact>, seeds: seq<NamedArtifact>) returns (inputs: seq<NamedArtifact>)
    ensures inputs == Merged(base, seeds)
  {
    inputs := [];
    for i := 0 to |base|
      invariant inputs == UpsertAll([], base[..i])
    {
      assert base[..i + 1][..i] == base[..i];
      inputs := Upsert(inputs, base[i]);
    }
    assert base[..|base|] == base;
    for i := 0 to |seeds|
      invariant inputs == UpsertAll(UpsertAll([], base), seeds[..i])
    {
      assert seeds[..i + 1][..i] == seeds[..i];
      inputs := Upsert(inputs, seeds[i]);
    }
    assert seeds[..|seeds|] == seeds;
  }

  /** In strictly ascending order of name. */
  ghost predicate NamesAscend(items: seq<NamedArtifact>) {
    forall i, j :: 0 <= i < j < |items| ==> items[i].name != items[j].name && NameLe(items[i].name, items[j].name)
  }

  lemma {:induction false} UpsertAscends(items: seq<NamedArtifact>, na: NamedArtifact)
    requires NamesAscend(items)
    ensures NamesAscend(Upsert(items, na))
    ensures forall x :: x in Upsert(items, na) ==> x in items || x == na
  {
    if items != [] {
      var tail := items[1..];
      assert items == [items[0]] + tail;
      if items[0].name != na.name && !NameLe(na.name, items[0].name) {
        NameLeTotal(items[0].name, na.name);
        UpsertAscends(tail, na);
        var rest := Upsert(tail, na);
        forall j | 0 <= j < |rest|
          ensures items[0].name != rest[j].name && NameLe(items[0].name, rest[j].name)
        {
          assert rest[j] in tail || rest[j] == na;
        }
      } else if items[0].name != na.name {
        forall j | 0 <= j < |items|
          ensures na.name != items[j].name && NameLe(na.name, items[j].name)
        {
          if j > 0 {
            NameLeTransitive(na.name, items[0].name, items[j].name);
            if na.name == items[j].name {
              NameLeAntisymmetric(na.name, items[0].name);
            }
          }
        }
      }
    }
  }

  lemma {:induction false} UpsertFinds(items: seq<NamedArtifact>, na: NamedArtifact, name: string)
    requires NamesAscend(items)
    ensures FirstNamed(Upsert(items, na), name) == if name == na.name then Some(na) else FirstNamed(items, name)
  {
    if items != [] && items[0].name != na.name && !NameLe(na.name, items[0].name) {
      UpsertFinds(items[1..], na, name);
    }
  }

  /** The last item of a name. */
  function LastNamed(items: seq<NamedArtifact>, name: string): Option<NamedArtifact> {
    if items == [] then None
    else if items[|items| - 1].name == name then Some(items[|items| - 1])
    else LastNamed(items[..|items| - 1], name)
  }

  lemma {:induction false} UpsertAllFinds(items: seq<NamedArtifact>, more: seq<NamedArtifact>, name: string)
    requires NamesAscend(items)
    ensures NamesAscend(UpsertAll(items, more))
    ensures FirstNamed(UpsertAll(items, more), name)
         == if LastNamed(more, name).Some? then LastNamed(more, name) else FirstNamed(items, name)
    ensures forall x :: x in UpsertAll(items, more) ==> x in items || x in more
  {
    if more != [] {
      var front, last := more[..|more| - 1], more[|more| - 1];
      UpsertAllFinds(items, front, name);
      UpsertAscends(UpsertAll(items, front), last);
      UpsertFinds(UpsertAll(items, front), last, name);
    }
  }

  /** Seeds win over inputs of the same name; the result lists each name once, in
    * ascending order. */
  lemma MergedFinds(base: seq<NamedArtifact>, seeds: seq<NamedArtifact>, name: string)
    ensures NamesAscend(Merged(base, seeds))
    ensures FirstNamed(Merged(base, seeds), name)
         == if LastNamed(seeds, name).Some? then LastNamed(seeds, name) else LastNamed(base, name)
    ensures forall x :: x in Merged(base, seeds) ==> x in base || x in seeds
  {
    UpsertAllFinds([], base, name);
    UpsertAllFinds(UpsertAll([], base), seeds, name);
  }

  lemma {:induction false} OneEachFirstIsLast(items: seq<NamedArtifact>, name: string)
    requires forall i, j :: 0 <= i < j < |items| ==> items[i].name != items[j].name
    ensures LastNamed(items, name) == FirstNamed(items, name)
  {
    if items != [] {
      var front, last := items[..|items| - 1], items[|items| - 1];
      OneEachFirstIsLast(front, name);
      assert items == front + [last];
      NamedAppended(front, last, name);
    }
  }

  // ---------------------------------------------------------------- no seed missing

  lemma {:induction false} LastThere(items: seq<NamedArtifact>, i: nat)
    requires i < |items| && forall j :: i < j < |items| ==> items[j].name != items[i].name
    ensures LastNamed(items, items[i].name) == Some(items[i])
  {
    var n := |items| - 1;
    if i < n {
      LastThere(items[..n], i);
    }
  }

  lemma {:induction false} SomeLast(items: seq<NamedArtifact>, name: string)
    ensures LastNamed(items, name).Some? <==> exists i :: 0 <= i < |items| && items[i].name == name
  {
    if items != [] {
      var n := |items| - 1;
      SomeLast(items[..n], name);
      if i :| 0 <= i < n && items[..n][i].name == name {
        assert items[i].name == name;
      }
      if i :| 0 <= i < |items| && items[i].name == name {
        assert i < n ==> items[..n][i].name == name;
      }
    }
  }

  /** The name is given an artifact, by the last item of that name. */
  predicate SeedProvided(inputs: seq<NamedArtifact>, name: string) {
    LastNamed(inputs, name).Some? && LastNamed(inputs, name).value.artifact.Some?
  }

  predicate SeedsPresent(cut: AssemblyCut, inputs: seq<NamedArtifact>) {
    forall i :: 0 <= i < |cut.requiredSeeds| ==>
      SeedProvided(inputs, SeedName(cut.requiredSeeds[i].fromNode, cut.requiredSeeds[i].fromPort))
  }

  /** The last input under the seed's name has an artifact. */
  ghost predicate GivenLast(inputs: seq<NamedArtifact>, name: string) {
    exists i :: 0 <= i < |inputs| && inputs[i].name == name && inputs[i].artifact.Some?
                && forall j :: i < j < |inputs| ==> inputs[j].name != name
  }

  lemma {:induction false} LastPlace(items: seq<NamedArtifact>, name: string) returns (i: nat)
    requires LastNamed(items, name).Some?
    ensures i < |items| && items[i].name == name && forall j :: i < j < |items| ==> items[j].name != name
  {
    i := |items| - 1;
    if items[i].name != name {
      var n := i;
      i := LastPlace(items[..n], name);
      forall j | i < j < |items|
        ensures items[j].name != name
      {
        assert j < n ==> items[..n][j].name != name;
      }
    }
  }

  /** No seed is missing exactly when, for each port that crosses the cut, the last input
    * of its seed name has an artifact. */
  lemma SeedsPresentIff(cut: AssemblyCut, inputs: seq<NamedArtifact>)
    ensures SeedsPresent(cut, inputs) <==> forall i :: 0 <= i < |cut.requiredSeeds| ==>
      GivenLast(inputs, SeedName(cut.requiredSeeds[i].fromNode, cut.requiredSeeds[i].fromPort))
  {
    forall name
      ensures SeedProvided(inputs, name) <==> GivenLast(inputs, name)
    {
      if LastNamed(inputs, name).Some? {
        var i := LastPlace(inputs, name);
        LastThere(inputs, i);
      }
      if i :| 0 <= i < |inputs| && inputs[i].name == name && inputs[i].artifact.Some?
              && forall j :: i < j < |inputs| ==> inputs[j].name != name {
        LastThere(inputs, i);
      }
    }
  }

  /** `validate_seeds_present`: whether nothing is missing. */
  method ValidateSeedsPresent(cut: AssemblyCut, inputs: seq<NamedArtifact>) returns (ok: bool)
    ensures ok <==> SeedsPresent(cut, inputs)
  {
    if cut.requiredSeeds == [] {
      return true;
    }
    var have: map<string, NamedArtifact> := map[];
    for i := 0 to |inputs|
      invariant forall n :: LastNamed(inputs[..i], n) == if n in have then Some(have[n]) else None
    {
      assert inputs[..i + 1][..i] == inputs[..i];
      have := have[inputs[i].name := inputs[i]];
    }
    assert inputs[..|inputs|] == inputs;
    var missing := 0;
    for i := 0 to |cut.requiredSeeds|
      invariant missing == 0 <==> forall j :: 0 <= j < i ==>
        SeedProvided(inputs, SeedName(cut.requiredSeeds[j].fromNode, cut.requiredSeeds[j].fromPort))
      invariant missing >= 0
    {
      var name := SeedName(cut.requiredSeeds[i].fromNode, cut.requiredSeeds[i].fromPort);
      assert LastNamed(inputs, name) == if name in have then Some(have[name]) else None;
      if name !in have || have[name].artifact.None? {
        missing := missing + 1;
      }
    }
    return missing == 0;
  }
}
