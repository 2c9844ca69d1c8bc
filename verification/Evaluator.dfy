/** The meaning of an assembly: what every node computes when each node is a
  * fixed function of its resolved inputs. No scheduler, no state. */
module Evaluator {
  import opened Base
  import opened Types
  import opened Assemblies

  /** The outputs a node commits for given inputs. */
  type Behaviour = (AssemblyNode, seq<NamedArtifact>) -> seq<NamedArtifact>

  datatype Program = Program(assembly: Assembly, inputs: seq<NamedArtifact>, f: Behaviour, rank: map<string, nat>)

  ghost predicate Ranked(p: Program) {
    IsRank(p.assembly.bindings, p.rank)
  }

  ghost function RankOf(p: Program, node: string): nat {
    Lookup(p.rank, node, 0)
  }

  ghost function EvalBinding(p: Program, b: Binding): Option<string>
    requires Ranked(p) && b in p.assembly.bindings
    decreases RankOf(p, b.toNode), 0, 0
  {
    if b.input != "" then ArtifactNamed(p.inputs, b.input)
    else
      var from := FindNode(p.assembly.nodes, b.fromNode);
      if from.None? then None
      else
        var outputs := EvalNode(p, from.value);
        if outputs.None? then None else ArtifactNamed(outputs.value, b.fromPort)
  }

  ghost function EvalAll(p: Program, node: string, bs: seq<Binding>): (r: Option<seq<NamedArtifact>>)
    requires Ranked(p) && forall b :: b in bs ==> b in p.assembly.bindings && b.toNode == node
    decreases RankOf(p, node), 1, |bs|
  {
    if bs == [] then Some([])
    else
      assert bs[0] in bs;
      var first := EvalBinding(p, bs[0]);
      var rest := EvalAll(p, node, bs[1..]);
      if first.None? || rest.None? then None
      else Some([NamedArtifact(bs[0].toPort, first)] + rest.value)
  }

  ghost function EvalInputs(p: Program, node: AssemblyNode): Option<seq<NamedArtifact>>
    requires Ranked(p)
    decreases RankOf(p, node.id), 2, 0
  {
    EvalAll(p, node.id, BindingsTo(p.assembly.bindings, node.id))
  }

  /** What the node commits; none when some input never arrives. */
  ghost function EvalNode(p: Program, node: AssemblyNode): Option<seq<NamedArtifact>>
    requires Ranked(p)
    decreases RankOf(p, node.id), 3, 0
  {
    var inputs := EvalInputs(p, node);
    if inputs.None? then None else Some(p.f(node, inputs.value))
  }

  /** What the program answers: the terminal port of the terminal node. */
  ghost function Answer(p: Program): Option<string>
    requires Ranked(p)
  {
    if p.assembly.terminal.None? then None
    else
      var node := FindNode(p.assembly.nodes, p.assembly.terminal.value.node);
      if node.None? then None
      else
        var outputs := EvalNode(p, node.value);
        if outputs.None? then None else ArtifactNamed(outputs.value, p.assembly.terminal.value.port)
  }
}
