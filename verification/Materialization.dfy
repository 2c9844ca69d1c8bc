/** Applying a node plan: the kept nodes, and the assembly that is left when the
  * crossing edges become seed inputs. */
module Materialization {
  import opened Base
  import opened Types
  import opened Strings
  import opened Cut

  // ---------------------------------------------------------------- kept nodes

  /** The nodes that `node` depends on. */
  ghost function Ancestors(bindings: seq<Binding>, node: string): (r: set<string>)
    ensures forall u :: u in r <==> Feeds(bindings, u, node)
  {
    forall u | Feeds(bindings, u, node)
      ensures u in Ends(bindings)
    {
      var w :| Flows(bindings, u, w) && LeadsTo(bindings, w, node);
      FlowEnds(bindings, u, w);
    }
    set u | u in Ends(bindings) && Feeds(bindings, u, node)
  }

  /** The node and everything that depends on it. */
  ghost function Downstream(bindings: seq<Binding>, node: string): (r: set<string>)
    ensures forall v :: v in r <==> LeadsTo(bindings, node, v)
  {
    forall v | LeadsTo(bindings, node, v)
      ensures v in Ends(bindings) + {node}
    {
      var path: seq<string> :| FlowsAlong(bindings, node, v, path);
      if |path| > 1 {
        FlowEnds(bindings, path[|path| - 2], v);
      }
    }
    set v | v in Ends(bindings) + {node} && LeadsTo(bindings, node, v)
  }

  predicate OnlyAllowed(ids: set<string>, only: seq<string>, terminal: string) {
    && only != [] && terminal in only
    && (forall i, j :: 0 <= i < j < |only| ==> only[i] != only[j])
    && (forall i :: 0 <= i < |only| ==> only[i] in ids)
  }

  /** The nodes a plan keeps; none when the plan does not fit the assembly. */
  ghost function KeptFor(assembly: Assembly, plan: NodePlan): Option<set<string>> {
    var ids := NodeIds(assembly.nodes);
    if assembly.terminal.None? || assembly.terminal.value.node !in ids then None
    else
      var terminal := assembly.terminal.value.node;
      match plan
      case PlanAll => Some(ids)
      case PlanOnly(only) => if OnlyAllowed(ids, only, terminal) then Some(set id | id in only) else None
      case PlanAfter(node) =>
        var dropped := Ancestors(assembly.bindings, node) + {node};
        if node !in ids || terminal in dropped then None else Some(ids - dropped)
      case PlanFrom(node) =>
        var reached := Downstream(assembly.bindings, node);
        if node !in ids || terminal !in reached then None else Some(reached)
  }

  method KeepOnly(ids: set<string>, only: seq<string>, terminal: string) returns (kept: Option<set<string>>)
    ensures kept == if OnlyAllowed(ids, only, terminal) then Some(set id | id in only) else None
  {
    if only == [] {
      return None;
    }
    var seen: set<string> := {};
    for i := 0 to |only|
      invariant forall id :: id in seen <==> exists j :: 0 <= j < i && only[j] == id
      invariant forall j, k :: 0 <= j < k < i ==> only[j] != only[k]
      invariant forall j :: 0 <= j < i ==> only[j] in ids
    {
      if only[i] in seen || only[i] !in ids {
        return None;
      }
      seen := seen + {only[i]};
    }
    assert seen == set id | id in only;
    return if terminal in seen then Some(seen) else None;
  }

  /** `resolve_kept_nodes`. */
  method ResolveKept(assembly: Assembly, plan: NodePlan) returns (kept: Option<set<string>>)
    ensures kept == KeptFor(assembly, plan)
  {
    var ids := NodeIds(assembly.nodes);
    if ids == {} || assembly.terminal.None? || assembly.terminal.value.node !in ids {
      return None;
    }
    var terminal := assembly.terminal.value.node;
    match plan {
      case PlanAll => return Some(ids);
      case PlanOnly(only) => kept := KeepOnly(ids, only, terminal);
      case PlanAfter(node) =>
        if node !in ids {
          return None;
        }
        var dropped := TransitivePredecessors(assembly.bindings, node);
        assert dropped == Ancestors(assembly.bindings, node);
        dropped := dropped + {node};
        if terminal in dropped {
          return None;
        }
        return Some(ids - dropped);
      case PlanFrom(node) =>
        if node !in ids {
          return None;
        }
        var reached := ReachableFrom(assembly.bindings, node);
        assert reached == Downstream(assembly.bindings, node);
        return if terminal in reached then Some(reached) else None;
    }
  }

  /** Whatever feeds a dropped node is dropped, so kept nodes feed kept nodes. */
  lemma AfterDropsPredecessors(assembly: Assembly, node: string, u: string, v: string)
    requires KeptFor(assembly, PlanAfter(node)).Some? && Flows(assembly.bindings, u, v)
    ensures u in KeptFor(assembly, PlanAfter(node)).value && v in NodeIds(assembly.nodes)
      ==> v in KeptFor(assembly, PlanAfter(node)).value
  {
    if v == node {
      LeadsToSelf(assembly.bindings, node);
    } else if Feeds(assembly.bindings, v, node) {
      var w :| Flows(assembly.bindings, v, w) && LeadsTo(assembly.bindings, w, node);
      LeadsToBefore(assembly.bindings, v, w, node);
    }
  }

  lemma FromKeepsSuccessors(assembly: Assembly, node: string, u: string, v: string)
    requires KeptFor(assembly, PlanFrom(node)).Some? && Flows(assembly.bindings, u, v)
    ensures u in KeptFor(assembly, PlanFrom(node)).value ==> v in KeptFor(assembly, PlanFrom(node)).value
  {
    if LeadsTo(assembly.bindings, node, u) {
      LeadsToAfter(assembly.bindings, node, u, v);
    }
  }

  /** A list of nodes is taken exactly when it names nodes of the assembly, the terminal's
    * among them, and as many as it has entries: none twice. */
  lemma OnlyIff(assembly: Assembly, only: seq<string>)
    ensures KeptFor(assembly, PlanOnly(only)).Some?
       <==> assembly.terminal.Some? && assembly.terminal.value.node in only
            && (forall id :: id in only ==> id in NodeIds(assembly.nodes)) && |set id | id in only| == |only|
    ensures KeptFor(assembly, PlanOnly(only)).Some? ==> KeptFor(assembly, PlanOnly(only)).value == set id | id in only
  {
    assert (forall i :: 0 <= i < |only| ==> only[i] in NodeIds(assembly.nodes))
      <==> forall id :: id in only ==> id in NodeIds(assembly.nodes);
    NoneTwiceIff(only);
  }

  lemma {:induction false} NoneTwiceIff(ids: seq<string>)
    ensures |set id | id in ids| <= |ids|
    ensures |set id | id in ids| == |ids| <==> forall i, j :: 0 <= i < j < |ids| ==> ids[i] != ids[j]
  {
    if ids != [] {
      var front, last := ids[..|ids| - 1], ids[|ids| - 1];
      NoneTwiceIff(front);
      var before := set id | id in front;
      assert ids == front + [last];
      assert (set id | id in ids) == before + {last};
      if last in before {
        var i :| 0 <= i < |front| && front[i] == last;
        assert ids[i] == ids[|ids| - 1];
        assert before + {last} == before;
      }
    }
  }

  // ---------------------------------------------------------------- the smaller assembly

  function NodesIn(nodes: seq<AssemblyNode>, kept: set<string>): (r: seq<AssemblyNode>)
    ensures forall n :: n in r <==> n in nodes && n.id in kept
  {
    if nodes == [] then []
    else (if nodes[0].id in kept then [nodes[0]] else []) + NodesIn(nodes[1..], kept)
  }

  function NodesOut(nodes: seq<AssemblyNode>, kept: set<string>): (r: seq<AssemblyNode>)
    ensures forall n :: n in r <==> n in nodes && n.id !in kept
  {
    if nodes == [] then []
    else (if nodes[0].id in kept then [] else [nodes[0]]) + NodesOut(nodes[1..], kept)
  }

  function IdsOf(nodes: seq<AssemblyNode>): seq<string> {
    seq(|nodes|, i requires 0 <= i < |nodes| => nodes[i].id)
  }

  /** From a dropped producer to a kept consumer. */
  predicate Crosses(kept: set<string>, b: Binding) {
    b.toNode in kept && b.input == "" && b.fromNode !in kept
  }

  function CutBinding(kept: set<string>, b: Binding): Binding {
    if b.input != "" || b.fromNode in kept then b
    else Binding(b.toNode, b.toPort, "", "", SeedName(b.fromNode, b.fromPort))
  }

  function CutBindings(bindings: seq<Binding>, kept: set<string>): seq<Binding> {
    if bindings == [] then []
    else
      var last := bindings[|bindings| - 1];
      CutBindings(bindings[..|bindings| - 1], kept) + if last.toNode in kept then [CutBinding(kept, last)] else []
  }

  /** A seed of the same producer port. */
  predicate SameSeed(a: SeedSpec, b: SeedSpec) {
    a.fromNode == b.fromNode && a.fromPort == b.fromPort
  }

  /** Strictly before, by node and then by port. */
  predicate SeedBefore(a: SeedSpec, b: SeedSpec) {
    !SameSeed(a, b) && if a.fromNode == b.fromNode then NameLe(a.fromPort, b.fromPort)
                       else NameLe(a.fromNode, b.fromNode)
  }

  /** An ordered map's `entry().or_insert`: the first seed of a port stays. */
  function OrInsert(seeds: seq<SeedSpec>, s: SeedSpec): seq<SeedSpec> {
    if seeds == [] then [s]
    else if SameSeed(seeds[0], s) then seeds
    else if SeedBefore(s, seeds[0]) then [s] + seeds
    else [seeds[0]] + OrInsert(seeds[1..], s)
  }

  function SeedOf(b: Binding): SeedSpec {
    SeedSpec(b.fromNode, b.fromPort, b.toNode, b.toPort)
  }

  function CutSeeds(bindings: seq<Binding>, kept: set<string>): seq<SeedSpec> {
    if bindings == [] then []
    else
      var seeds := CutSeeds(bindings[..|bindings| - 1], kept);
      var last := bindings[|bindings| - 1];
      if Crosses(kept, last) then OrInsert(seeds, SeedOf(last)) else seeds
  }

  /** A kept node's binding with no source at all. */
  predicate Sourceless(kept: set<string>, b: Binding) {
    b.toNode in kept && b.input == "" && b.fromNode == ""
  }

  function WholeCut(assembly: Assembly): AssemblyCut {
    AssemblyCut(assembly, [], [], IdsOf(assembly.nodes))
  }

  function PartialCut(assembly: Assembly, kept: set<string>): AssemblyCut {
    var nodes := NodesIn(assembly.nodes, kept);
    AssemblyCut(assembly.(nodes := nodes, bindings := CutBindings(assembly.bindings, kept)),
                NodesOut(assembly.nodes, kept), CutSeeds(assembly.bindings, kept), IdsOf(nodes))
  }

  ghost function CutFor(assembly: Assembly, plan: NodePlan): Option<AssemblyCut> {
    var kept := KeptFor(assembly, plan);
    if kept.None? then None
    else if plan.PlanAll? || |kept.value| == |assembly.nodes| then Some(WholeCut(assembly))
    else if exists i :: 0 <= i < |assembly.bindings| && Sourceless(kept.value, assembly.bindings[i]) then None
    else Some(PartialCut(assembly, kept.value))
  }

  /** A cut loses no node: each is kept or skipped, and the kept ids are those of the cut
    * assembly's nodes, in order. */
  lemma CutLosesNone(assembly: Assembly, plan: NodePlan)
    requires CutFor(assembly, plan).Some?
    ensures var cut := CutFor(assembly, plan).value;
      && multiset(cut.assembly.nodes) + multiset(cut.skipped) == multiset(assembly.nodes)
      && |cut.keptIds| == |cut.assembly.nodes|
      && forall i :: 0 <= i < |cut.keptIds| ==> cut.keptIds[i] == cut.assembly.nodes[i].id
  {
    hide KeptFor, CutSeeds, CutBindings, Sourceless;
    var kept, cut := KeptFor(assembly, plan).value, CutFor(assembly, plan).value;
    InOrOut(assembly.nodes, kept);
    assert cut == WholeCut(assembly) || cut == PartialCut(assembly, kept);
    hide CutFor;
  }

  lemma {:induction false} InOrOut(nodes: seq<AssemblyNode>, kept: set<string>)
    ensures multiset(NodesIn(nodes, kept)) + multiset(NodesOut(nodes, kept)) == multiset(nodes)
  {
    if nodes != [] {
      InOrOut(nodes[1..], kept);
      assert nodes == [nodes[0]] + nodes[1..];
    }
  }

  method RewriteBindings(bindings: seq<Binding>, kept: set<string>)
    returns (ok: bool, rewritten: seq<Binding>, seeds: seq<SeedSpec>)
    ensures ok <==> !exists i :: 0 <= i < |bindings| && Sourceless(kept, bindings[i])
    ensures ok ==> rewritten == CutBindings(bindings, kept) && seeds == CutSeeds(bindings, kept)
  {
    rewritten, seeds := [], [];
    for i := 0 to |bindings|
      invariant forall j :: 0 <= j < i ==> !Sourceless(kept, bindings[j])
      invariant rewritten == CutBindings(bindings[..i], kept) && seeds == CutSeeds(bindings[..i], kept)
    {
      var b := bindings[i];
      assert bindings[..i + 1][..i] == bindings[..i];
      if b.toNode !in kept {
        continue;
      }
      if b.input != "" {
        rewritten := rewritten + [b];
        continue;
      }
      if b.fromNode == "" {
        ok := false;
        return;
      }
      if b.fromNode in kept {
        rewritten := rewritten + [b];
        continue;
      }
      seeds := OrInsert(seeds, SeedOf(b));
      rewritten := rewritten + [Binding(b.toNode, b.toPort, "", "", SeedName(b.fromNode, b.fromPort))];
    }
    assert bindings[..|bindings|] == bindings;
    ok := true;
  }

  /** `materialize_cut`. */
  method MaterializeCut(assembly: Assembly, plan: NodePlan) returns (cut: Option<AssemblyCut>)
    ensures cut == CutFor(assembly, plan)
  {
    var kept := ResolveKept(assembly, plan);
    if kept.None? {
      return None;
    }
    if plan.PlanAll? || |kept.value| == |assembly.nodes| {
      return Some(WholeCut(assembly));
    }
    var ok, bindings, seeds := RewriteBindings(assembly.bindings, kept.value);
    if !ok {
      return None;
    }
    var nodes := NodesIn(assembly.nodes, kept.value);
    return Some(AssemblyCut(
      Assembly(assembly.id, nodes, bindings, assembly.terminal),
      NodesOut(assembly.nodes, kept.value), seeds, IdsOf(nodes)));
  }

  // ---------------------------------------------------------------- seeds are exact

  ghost predicate SeedsSorted(seeds: seq<SeedSpec>) {
    forall i, j :: 0 <= i < j < |seeds| ==> SeedBefore(seeds[i], seeds[j])
  }

  lemma SeedTotal(a: SeedSpec, b: SeedSpec)
    ensures SameSeed(a, b) || SeedBefore(a, b) || SeedBefore(b, a)
  {
    NameLeTotal(a.fromNode, b.fromNode);
    NameLeTotal(a.fromPort, b.fromPort);
  }

  lemma SeedTransitive(a: SeedSpec, b: SeedSpec, c: SeedSpec)
    requires SeedBefore(a, b) && SeedBefore(b, c)
    ensures SeedBefore(a, c)
  {
    if a.fromNode == c.fromNode {
      if a.fromNode != b.fromNode {
        NameLeAntisymmetric(a.fromNode, b.fromNode);
      } else {
        if a.fromPort == c.fromPort {
          NameLeAntisymmetric(a.fromPort, b.fromPort);
        }
        NameLeTransitive(a.fromPort, b.fromPort, c.fromPort);
      }
    } else if a.fromNode != b.fromNode && b.fromNode != c.fromNode {
      NameLeTransitive(a.fromNode, b.fromNode, c.fromNode);
    }
  }

  lemma {:induction false} OrInsertSorted(seeds: seq<SeedSpec>, s: SeedSpec)
    requires SeedsSorted(seeds)
    ensures SeedsSorted(OrInsert(seeds, s))
    ensures forall t :: t in OrInsert(seeds, s) ==> t in seeds || t == s
    ensures forall t :: t in seeds ==> t in OrInsert(seeds, s)
    ensures exists t :: t in OrInsert(seeds, s) && SameSeed(t, s)
  {
    if seeds == [] {
      assert s in [s];
    } else if SameSeed(seeds[0], s) {
      assert seeds[0] in seeds;
    } else if SeedBefore(s, seeds[0]) {
      assert s in [s] + seeds;
      forall j | 0 < j < |seeds|
        ensures SeedBefore(s, seeds[j])
      {
        SeedTransitive(s, seeds[0], seeds[j]);
      }
    } else {
      SeedTotal(seeds[0], s);
      var tail := seeds[1..];
      OrInsertSorted(tail, s);
      var rest := OrInsert(tail, s);
      forall j | 0 <= j < |rest|
        ensures SeedBefore(seeds[0], rest[j])
      {
        if rest[j] in tail {
          var k :| 0 <= k < |tail| && tail[k] == rest[j];
          assert tail[k] == seeds[k + 1];
        }
      }
      var t :| t in rest && SameSeed(t, s);
      assert t in OrInsert(seeds, s);
      assert seeds == [seeds[0]] + tail;
    }
  }

  ghost predicate FromCrossing(bindings: seq<Binding>, kept: set<string>, s: SeedSpec) {
    exists i :: 0 <= i < |bindings| && Crosses(kept, bindings[i]) && SeedOf(bindings[i]) == s
  }

  ghost predicate HasSeed(seeds: seq<SeedSpec>, node: string, port: string) {
    exists s :: s in seeds && s.fromNode == node && s.fromPort == port
  }

  /** The required seeds are exactly the producer ports of the crossing bindings,
    * in ascending order and each once. */
  lemma {:induction false} SeedsExact(bindings: seq<Binding>, kept: set<string>)
    ensures SeedsSorted(CutSeeds(bindings, kept))
    ensures forall s :: s in CutSeeds(bindings, kept) ==> FromCrossing(bindings, kept, s)
    ensures forall i :: 0 <= i < |bindings| && Crosses(kept, bindings[i]) ==>
      HasSeed(CutSeeds(bindings, kept), bindings[i].fromNode, bindings[i].fromPort)
  {
    if bindings != [] {
      var n := |bindings| - 1;
      var front := bindings[..n];
      var last, seeds := bindings[n], CutSeeds(front, kept);
      SeedsExact(front, kept);
      OrInsertSorted(seeds, SeedOf(last));
      forall s | s in CutSeeds(bindings, kept)
        ensures FromCrossing(bindings, kept, s)
      {
        if s in seeds {
          var i :| 0 <= i < n && Crosses(kept, front[i]) && SeedOf(front[i]) == s;
          assert Crosses(kept, bindings[i]) && SeedOf(bindings[i]) == s;
        } else {
          assert Crosses(kept, bindings[n]) && SeedOf(bindings[n]) == s;
        }
      }
      forall i | 0 <= i < |bindings| && Crosses(kept, bindings[i])
        ensures HasSeed(CutSeeds(bindings, kept), bindings[i].fromNode, bindings[i].fromPort)
      {
        if i < n {
          assert Crosses(kept, front[i]);
          var s :| s in seeds && s.fromNode == front[i].fromNode && s.fromPort == front[i].fromPort;
          assert s in CutSeeds(bindings, kept);
        } else {
          var t :| t in OrInsert(seeds, SeedOf(last)) && SameSeed(t, SeedOf(last));
          assert t in CutSeeds(bindings, kept);
        }
      }
    }
  }

  /** Every seed that a cut asks for comes from a named node; what has no source is refused. */
  lemma SeedsNamed(assembly: Assembly, plan: NodePlan)
    requires CutFor(assembly, plan).Some?
    ensures forall s :: s in CutFor(assembly, plan).value.requiredSeeds ==> s.fromNode != ""
  {
    hide KeptFor;
    var kept, cut := KeptFor(assembly, plan).value, CutFor(assembly, plan).value;
    if cut != WholeCut(assembly) {
      SeedsExact(assembly.bindings, kept);
      forall s | s in cut.requiredSeeds
        ensures s.fromNode != ""
      {
        var bindings := assembly.bindings;
        var i :| 0 <= i < |bindings| && Crosses(kept, bindings[i]) && SeedOf(bindings[i]) == s;
        assert !Sourceless(kept, bindings[i]);
      }
    }
  }
}
