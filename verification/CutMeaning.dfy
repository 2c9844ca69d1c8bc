/** The cut preserves meaning: seeded with what the dropped nodes compute, every
  * kept node computes in the cut what it computes in the whole assembly. */
module CutMeaning {
  import opened Base
  import opened Types
  import opened Assemblies
  import opened Evaluator
  import opened Cut
  import opened Materialization

  // ---------------------------------------------------------------- bindings of a kept node

  /** The rewritten form of a list of bindings that are all kept. */
  function Rewritten(bs: seq<Binding>, kept: set<string>): (r: seq<Binding>)
    ensures |r| == |bs| && forall i :: 0 <= i < |bs| ==> r[i] == CutBinding(kept, bs[i])
  {
    if bs == [] then [] else [CutBinding(kept, bs[0])] + Rewritten(bs[1..], kept)
  }

  lemma {:induction false} BindingsToAppended(bindings: seq<Binding>, b: Binding, node: string)
    ensures BindingsTo(bindings + [b], node)
         == if b.toNode == node then BindingsTo(bindings, node) + [b] else BindingsTo(bindings, node)
  {
    if bindings == [] {
      assert bindings + [b] == [b] && [b][1..] == [];
    } else {
      assert (bindings + [b])[1..] == bindings[1..] + [b];
      BindingsToAppended(bindings[1..], b, node);
    }
  }

  lemma RewrittenAppended(bs: seq<Binding>, b: Binding, kept: set<string>)
    ensures Rewritten(bs + [b], kept) == Rewritten(bs, kept) + [CutBinding(kept, b)]
  {
  }

  lemma CutAppended(front: seq<Binding>, last: Binding, kept: set<string>, node: string)
    requires node in kept
    ensures BindingsTo(CutBindings(front + [last], kept), node)
         == if last.toNode == node then BindingsTo(CutBindings(front, kept), node) + [CutBinding(kept, last)]
            else BindingsTo(CutBindings(front, kept), node)
  {
    assert (front + [last])[..|front|] == front;
    var cut := CutBindings(front, kept);
    if last.toNode in kept {
      BindingsToAppended(cut, CutBinding(kept, last), node);
    } else {
      assert cut + [] == cut;
    }
  }

  ghost predicate KeepsBindings(bindings: seq<Binding>, kept: set<string>, node: string) {
    BindingsTo(CutBindings(bindings, kept), node) == Rewritten(BindingsTo(bindings, node), kept)
  }

  lemma OneMoreBinding(front: seq<Binding>, last: Binding, kept: set<string>, node: string)
    requires node in kept && KeepsBindings(front, kept, node)
    ensures KeepsBindings(front + [last], kept, node)
  {
    BindingsToAppended(front, last, node);
    CutAppended(front, last, kept, node);
    if last.toNode == node {
      RewrittenAppended(BindingsTo(front, node), last, kept);
    }
  }

  /** A kept node keeps all its bindings, in order, each rewritten. */
  lemma {:induction false} BindingsOfKept(bindings: seq<Binding>, kept: set<string>, node: string)
    requires node in kept
    ensures KeepsBindings(bindings, kept, node)
  {
    if bindings != [] {
      var front, last := bindings[..|bindings| - 1], bindings[|bindings| - 1];
      BindingsOfKept(front, kept, node);
      OneMoreBinding(front, last, kept, node);
      assert bindings == front + [last];
    }
  }

  lemma {:induction false} CutFrom(bindings: seq<Binding>, kept: set<string>, c: Binding)
    requires c in CutBindings(bindings, kept)
    ensures exists b :: b in bindings && b.toNode in kept && c == CutBinding(kept, b)
  {
    var front, last := bindings[..|bindings| - 1], bindings[|bindings| - 1];
    if c in CutBindings(front, kept) {
      CutFrom(front, kept, c);
      var b :| b in front && b.toNode in kept && c == CutBinding(kept, b);
      assert b in bindings;
    } else {
      assert last in bindings && c == CutBinding(kept, last);
    }
  }

  lemma {:induction false} FindKept(nodes: seq<AssemblyNode>, kept: set<string>, id: string)
    ensures FindNode(NodesIn(nodes, kept), id) == if id in kept then FindNode(nodes, id) else None
  {
    if nodes != [] {
      FindKept(nodes[1..], kept, id);
      var rest := NodesIn(nodes[1..], kept);
      if nodes[0].id in kept {
        assert NodesIn(nodes, kept)[1..] == rest;
      } else {
        assert NodesIn(nodes, kept) == rest;
      }
    }
  }

  // ---------------------------------------------------------------- meaning

  /** The program of the cut assembly. */
  ghost function CutProgram(p: Program, kept: set<string>, inputs: seq<NamedArtifact>): Program {
    p.(assembly := PartialCut(p.assembly, kept).assembly, inputs := inputs)
  }

  lemma CutRanked(bindings: seq<Binding>, kept: set<string>, rank: map<string, nat>)
    requires IsRank(bindings, rank)
    ensures IsRank(CutBindings(bindings, kept), rank)
  {
    var cut := CutBindings(bindings, kept);
    forall i | 0 <= i < |cut| && cut[i].input == ""
      ensures Lookup(rank, cut[i].fromNode, 0) < Lookup(rank, cut[i].toNode, 0)
    {
      CutFrom(bindings, kept, cut[i]);
      var b :| b in bindings && b.toNode in kept && cut[i] == CutBinding(kept, b);
      assert SeedName(b.fromNode, b.fromPort) != "";
      var j :| 0 <= j < |bindings| && bindings[j] == b;
    }
  }

  /** The cut's inputs agree with the program: run inputs of kept nodes are
    * unchanged, and each seed is what its dropped port computes. */
  ghost predicate InputsAgree(p: Program, kept: set<string>, inputs: seq<NamedArtifact>)
    requires Ranked(p)
  {
    forall b :: b in p.assembly.bindings && b.toNode in kept ==> SourceAgrees(p, kept, inputs, b)
  }

  ghost predicate SourceAgrees(p: Program, kept: set<string>, inputs: seq<NamedArtifact>, b: Binding)
    requires Ranked(p) && b in p.assembly.bindings
  {
    && (b.input != "" ==> ArtifactNamed(inputs, b.input) == ArtifactNamed(p.inputs, b.input))
    && (b.input == "" && b.fromNode !in kept ==>
          ArtifactNamed(inputs, SeedName(b.fromNode, b.fromPort)) == EvalBinding(p, b))
  }

  lemma {:induction false} KeptInputs(p: Program, kept: set<string>, inputs: seq<NamedArtifact>, node: string,
                                      bs: seq<Binding>)
    requires Ranked(p) && InputsAgree(p, kept, inputs) && node in kept
    requires forall b :: b in bs ==> b in p.assembly.bindings && b.toNode == node
    requires var q := CutProgram(p, kept, inputs);
      Ranked(q) && forall b :: b in Rewritten(bs, kept) ==> b in q.assembly.bindings && b.toNode == node
    ensures EvalAll(CutProgram(p, kept, inputs), node, Rewritten(bs, kept)) == EvalAll(p, node, bs)
    decreases RankOf(p, node), 1, |bs|
  {
    if bs != [] {
      var q := CutProgram(p, kept, inputs);
      assert bs[0] in bs && Rewritten(bs, kept)[0] in Rewritten(bs, kept);
      assert Rewritten(bs, kept)[1..] == Rewritten(bs[1..], kept);
      KeptBinding(p, kept, inputs, bs[0]);
      KeptInputs(p, kept, inputs, node, bs[1..]);
    }
  }

  lemma {:induction false} KeptBinding(p: Program, kept: set<string>, inputs: seq<NamedArtifact>, b: Binding)
    requires Ranked(p) && InputsAgree(p, kept, inputs) && b in p.assembly.bindings && b.toNode in kept
    requires var q := CutProgram(p, kept, inputs); Ranked(q) && CutBinding(kept, b) in q.assembly.bindings
    ensures EvalBinding(CutProgram(p, kept, inputs), CutBinding(kept, b)) == EvalBinding(p, b)
    decreases RankOf(p, b.toNode), 0, 0
  {
    assert SourceAgrees(p, kept, inputs, b);
    if b.input == "" && b.fromNode in kept {
      FindKept(p.assembly.nodes, kept, b.fromNode);
      var from := FindNode(p.assembly.nodes, b.fromNode);
      if from.Some? {
        var i :| 0 <= i < |p.assembly.bindings| && p.assembly.bindings[i] == b;
        KeptNode(p, kept, inputs, from.value);
      }
    }
  }

  /** A kept node computes the same in the cut. */
  lemma {:induction false} KeptNode(p: Program, kept: set<string>, inputs: seq<NamedArtifact>, node: AssemblyNode)
    requires Ranked(p) && Ranked(CutProgram(p, kept, inputs)) && InputsAgree(p, kept, inputs) && node.id in kept
    ensures EvalInputs(CutProgram(p, kept, inputs), node) == EvalInputs(p, node)
    ensures EvalNode(CutProgram(p, kept, inputs), node) == EvalNode(p, node)
    decreases RankOf(p, node.id), 2, 0
  {
    BindingsOfKept(p.assembly.bindings, kept, node.id);
    KeptInputs(p, kept, inputs, node.id, BindingsTo(p.assembly.bindings, node.id));
  }

  /** Bindings join nodes of the assembly. */
  predicate EndsKnown(assembly: Assembly) {
    forall i :: 0 <= i < |assembly.bindings| ==>
      assembly.bindings[i].toNode in NodeIds(assembly.nodes)
      && (assembly.bindings[i].input == "" ==> assembly.bindings[i].fromNode in NodeIds(assembly.nodes))
  }

  lemma {:induction false} KeepAllNodes(nodes: seq<AssemblyNode>, kept: set<string>)
    requires forall i :: 0 <= i < |nodes| ==> nodes[i].id in kept
    ensures NodesIn(nodes, kept) == nodes
  {
    if nodes != [] {
      KeepAllNodes(nodes[1..], kept);
    }
  }

  lemma {:induction false} KeepAllBindings(bindings: seq<Binding>, kept: set<string>)
    requires forall i :: 0 <= i < |bindings| ==>
      bindings[i].toNode in kept && (bindings[i].input == "" ==> bindings[i].fromNode in kept)
    ensures CutBindings(bindings, kept) == bindings
  {
    if bindings != [] {
      KeepAllBindings(bindings[..|bindings| - 1], kept);
    }
  }

  lemma {:induction false} PathKnown(assembly: Assembly, path: seq<string>, i: nat)
    requires EndsKnown(assembly) && IsFlow(assembly.bindings, path) && i < |path| && path[0] in NodeIds(assembly.nodes)
    ensures path[i] in NodeIds(assembly.nodes)
  {
    if i > 0 {
      assert Flows(assembly.bindings, path[i - 1], path[i]);
    }
  }

  lemma KeptKnown(assembly: Assembly, plan: NodePlan)
    requires EndsKnown(assembly) && KeptFor(assembly, plan).Some?
    ensures KeptFor(assembly, plan).value <= NodeIds(assembly.nodes)
  {
    if plan.PlanFrom? {
      forall v | v in Downstream(assembly.bindings, plan.node)
        ensures v in NodeIds(assembly.nodes)
      {
        var path: seq<string> :| FlowsAlong(assembly.bindings, plan.node, v, path);
        PathKnown(assembly, path, |path| - 1);
      }
    }
  }

  lemma IdsCounted(nodes: seq<AssemblyNode>)
    requires DistinctNodeIds(nodes)
    ensures |NodeIds(nodes)| == |nodes|
  {
    var ids := IdsOf(nodes);
    DistinctCardinality(ids);
    assert NodeIds(nodes) == set id | id in ids by {
      forall id | id in NodeIds(nodes)
        ensures id in ids
      {
        var i :| 0 <= i < |nodes| && nodes[i].id == id;
        assert ids[i] == id;
      }
    }
  }

  /** Taking the whole assembly is cutting with every node kept. */
  lemma CutIsPartial(assembly: Assembly, plan: NodePlan)
    requires EndsKnown(assembly) && DistinctNodeIds(assembly.nodes) && CutFor(assembly, plan).Some?
    ensures CutFor(assembly, plan).value.assembly == PartialCut(assembly, KeptFor(assembly, plan).value).assembly
  {
    var kept, ids := KeptFor(assembly, plan).value, NodeIds(assembly.nodes);
    KeptKnown(assembly, plan);
    IdsCounted(assembly.nodes);
    if plan.PlanAll? || |kept| == |assembly.nodes| {
      SubsetCardinality(kept, ids);
      KeepAllNodes(assembly.nodes, kept);
      KeepAllBindings(assembly.bindings, kept);
    }
  }

  lemma TerminalKept(assembly: Assembly, plan: NodePlan)
    requires KeptFor(assembly, plan).Some?
    ensures assembly.terminal.Some? && assembly.terminal.value.node in KeptFor(assembly, plan).value
  {
  }

  /** The cut preserves meaning, for every accepted plan: kept nodes compute the
    * same, and so the answer is the same. */
  lemma CutPreservesMeaning(p: Program, plan: NodePlan, inputs: seq<NamedArtifact>)
    requires Ranked(p) && EndsKnown(p.assembly) && DistinctNodeIds(p.assembly.nodes)
    requires CutFor(p.assembly, plan).Some? && InputsAgree(p, KeptFor(p.assembly, plan).value, inputs)
    ensures var q := p.(assembly := CutFor(p.assembly, plan).value.assembly, inputs := inputs);
      && Ranked(q)
      && (forall node :: node in q.assembly.nodes ==>
            EvalInputs(q, node) == EvalInputs(p, node) && EvalNode(q, node) == EvalNode(p, node))
      && Answer(q) == Answer(p)
  {
    var kept := KeptFor(p.assembly, plan).value;
    CutIsPartial(p.assembly, plan);
    TerminalKept(p.assembly, plan);
    var q := CutProgram(p, kept, inputs);
    CutRanked(p.assembly.bindings, kept, p.rank);
    forall node: AssemblyNode | node.id in kept
      ensures EvalInputs(q, node) == EvalInputs(p, node) && EvalNode(q, node) == EvalNode(p, node)
    {
      KeptNode(p, kept, inputs, node);
    }
    FindKept(p.assembly.nodes, kept, p.assembly.terminal.value.node);
  }
}
