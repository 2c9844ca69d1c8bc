/** `validate_assembly`: the checks a run must pass before it starts, with their
  * loops and the depth-first search for cycles, proved to refuse exactly the
  * assemblies that module `Assemblies` calls invalid. */
module Validation {
  import opened Base
  import opened Types
  import opened Scheduler
  import opened Assemblies

  // ---------------------------------------------------------------- nodes and ports

  method PortsAreTyped(ports: seq<Port>) returns (ok: bool)
    ensures ok <==> PortsTyped(ports)
  {
    var names: set<string> := {};
    for i := 0 to |ports|
      invariant PortsTyped(ports[..i])
      invariant forall n :: n in names <==> exists j :: 0 <= j < i && ports[j].name == n
    {
      var p := ports[i];
      if p.name == "" || p.traits == [] || p.name in names {
        return false;
      }
      if "" in p.traits {
        return false;
      }
      names := names + {p.name};
      assert ports[..i + 1] == ports[..i] + [p];
    }
    assert ports[..|ports|] == ports;
    return true;
  }

  /** The nodes checked so far, by id. */
  ghost predicate Indexed(nodes: seq<AssemblyNode>, index: map<string, AssemblyNode>) {
    forall id :: FindNode(nodes, id) == if id in index then Some(index[id]) else None
  }

  lemma {:induction false} FindAppended(nodes: seq<AssemblyNode>, n: AssemblyNode, id: string)
    ensures FindNode(nodes + [n], id)
         == if FindNode(nodes, id).Some? then FindNode(nodes, id) else if n.id == id then Some(n) else None
  {
    if nodes != [] {
      assert (nodes + [n])[1..] == nodes[1..] + [n];
      FindAppended(nodes[1..], n, id);
    }
  }

  lemma IndexNext(nodes: seq<AssemblyNode>, index: map<string, AssemblyNode>, n: AssemblyNode)
    requires Indexed(nodes, index) && n.id !in index
    ensures Indexed(nodes + [n], index[n.id := n])
  {
    forall id
      ensures FindNode(nodes + [n], id) == if id in index[n.id := n] then Some(index[n.id := n][id]) else None
    {
      FindAppended(nodes, n, id);
    }
  }

  predicate NodesValid(modules: seq<ModuleSlot>, nodes: seq<AssemblyNode>) {
    (forall i :: 0 <= i < |nodes| ==> NodeValid(modules, nodes[i])) && DistinctNodeIds(nodes)
  }

  method NodeIsValid(modules: seq<ModuleSlot>, node: AssemblyNode) returns (ok: bool)
    ensures ok <==> NodeValid(modules, node)
  {
    if node.id == "" {
      return false;
    }
    var cap := CapabilityFor(modules, node);
    if cap.None? {
      return false;
    }
    ok := PortsAreTyped(cap.value.inputs);
    if ok {
      ok := PortsAreTyped(cap.value.outputs);
    }
  }

  lemma NodesNext(modules: seq<ModuleSlot>, nodes: seq<AssemblyNode>, index: map<string, AssemblyNode>, i: nat)
    requires i < |nodes| && Indexed(nodes[..i], index) && NodesValid(modules, nodes[..i])
    ensures nodes[i].id !in index && NodeValid(modules, nodes[i]) ==> NodesValid(modules, nodes[..i + 1])
    ensures nodes[i].id in index || !NodeValid(modules, nodes[i]) ==> !NodesValid(modules, nodes)
  {
    hide NodeValid;
    var n := nodes[i];
    assert nodes[..i + 1] == nodes[..i] + [n];
    if n.id !in index {
      assert FindNode(nodes[..i], n.id).None?;
      forall j | 0 <= j < i ensures nodes[j].id != n.id { assert nodes[..i][j] == nodes[j]; }
    } else {
      assert FindNode(nodes[..i], n.id) == Some(index[n.id]);
      var j :| 0 <= j < i && nodes[..i][j].id == n.id;
      assert nodes[j].id == nodes[i].id;
    }
  }

  method IndexNodes(modules: seq<ModuleSlot>,
                    nodes: seq<AssemblyNode>) returns (index: Option<map<string, AssemblyNode>>)
    ensures index.Some? <==> NodesValid(modules, nodes)
    ensures index.Some? ==> Indexed(nodes, index.value)
  {
    var seen: map<string, AssemblyNode> := map[];
    for i := 0 to |nodes|
      invariant Indexed(nodes[..i], seen) && NodesValid(modules, nodes[..i])
    {
      NodesNext(modules, nodes, seen, i);
      if nodes[i].id in seen {
        return None;
      }
      var valid := NodeIsValid(modules, nodes[i]);
      if !valid {
        return None;
      }
      IndexNext(nodes[..i], seen, nodes[i]);
      assert nodes[..i + 1] == nodes[..i] + [nodes[i]];
      seen := seen[nodes[i].id := nodes[i]];
    }
    assert nodes[..|nodes|] == nodes;
    return Some(seen);
  }

  function InputPortOf(modules: seq<ModuleSlot>, index: map<string, AssemblyNode>, node: string,
                       port: string): Option<Port> {
    if node !in index then None
    else
      var cap := CapabilityFor(modules, index[node]);
      if cap.None? then None else FindPort(cap.value.inputs, port)
  }

  function OutputPortOf(modules: seq<ModuleSlot>, index: map<string, AssemblyNode>, node: string,
                        port: string): Option<Port> {
    if node !in index then None
    else
      var cap := CapabilityFor(modules, index[node]);
      if cap.None? then None else FindPort(cap.value.outputs, port)
  }

  lemma PortsByIndex(modules: seq<ModuleSlot>, nodes: seq<AssemblyNode>, index: map<string, AssemblyNode>,
                     node: string, port: string)
    requires Indexed(nodes, index)
    ensures InputPortOf(modules, index, node, port) == InputPort(modules, nodes, node, port)
    ensures OutputPortOf(modules, index, node, port) == OutputPort(modules, nodes, node, port)
  {
    assert FindNode(nodes, node) == if node in index then Some(index[node]) else None;
  }

  method GraphIsValid(modules: seq<ModuleSlot>, assembly: Assembly) returns (index: Option<map<string, AssemblyNode>>)
    ensures index.Some? <==> GraphValid(modules, assembly)
    ensures index.Some? ==> Indexed(assembly.nodes, index.value)
  {
    if assembly.id == "" || assembly.nodes == [] || assembly.terminal.None? {
      return None;
    }
    index := IndexNodes(modules, assembly.nodes);
    if index.Some? {
      var terminal := assembly.terminal.value;
      PortsByIndex(modules, assembly.nodes, index.value, terminal.node, terminal.port);
      var port := OutputPortOf(modules, index.value, terminal.node, terminal.port);
      if port.None? || port.value.multiple {
        return None;
      }
    }
  }

  // ---------------------------------------------------------------- run inputs

  method IndexInputs(traits: map<string, set<string>>, inputs: seq<NamedArtifact>) returns (fault: Option<KernelError>)
    ensures fault == InputFault(traits, inputs, 0)
  {
    var names: set<string> := {};
    for i := 0 to |inputs|
      invariant InputFault(traits, inputs, 0) == InputFault(traits, inputs, i)
      invariant forall n :: n in names <==> exists j :: 0 <= j < i && inputs[j].name == n
    {
      var input := inputs[i];
      if input.name == "" || input.name in names {
        return Some(Invalid);
      }
      names := names + {input.name};
      if input.artifact.None? {
        return Some(Invalid);
      }
      if input.artifact.value !in traits {
        return Some(NotFound);
      }
    }
    return None;
  }

  // ---------------------------------------------------------------- bindings

  type Edges = map<string, seq<string>>

  function Targets(edges: Edges, node: string): seq<string> {
    Lookup(edges, node, [])
  }

  /** The edges are the upstream bindings. */
  ghost predicate EdgesOf(bindings: seq<Binding>, edges: Edges) {
    && (forall i :: 0 <= i < |bindings| && bindings[i].input == "" ==>
          bindings[i].toNode in Targets(edges, bindings[i].fromNode))
    && (forall u, v :: v in Targets(edges, u) ==>
          exists i :: 0 <= i < |bindings| && bindings[i].input == ""
            && bindings[i].fromNode == u && bindings[i].toNode == v)
  }

  type PortCounts = map<(string, string), nat>

  ghost predicate CountsOf(bindings: seq<Binding>, counts: PortCounts) {
    forall node, port :: Lookup(counts, (node, port), 0) == BindingCount(bindings, node, port)
  }

  lemma {:induction false} CountAppended(bindings: seq<Binding>, b: Binding, node: string, port: string)
    ensures BindingCount(bindings + [b], node, port)
         == BindingCount(bindings, node, port) + if b.toNode == node && b.toPort == port then 1 else 0
  {
    if bindings == [] {
      assert bindings + [b] == [b] && [b][1..] == [];
    } else {
      assert (bindings + [b])[1..] == bindings[1..] + [b];
      CountAppended(bindings[1..], b, node, port);
    }
  }

  function WithCount(counts: PortCounts, b: Binding): PortCounts {
    counts[(b.toNode, b.toPort) := Lookup(counts, (b.toNode, b.toPort), 0) + 1]
  }

  lemma CountsNext(bindings: seq<Binding>, counts: PortCounts, b: Binding)
    requires CountsOf(bindings, counts)
    ensures CountsOf(bindings + [b], WithCount(counts, b))
  {
    var counts' := WithCount(counts, b);
    forall node, port
      ensures Lookup(counts', (node, port), 0) == BindingCount(bindings + [b], node, port)
    {
      CountAppended(bindings, b, node, port);
      assert Lookup(counts, (node, port), 0) == BindingCount(bindings, node, port);
    }
  }

  function WithEdge(edges: Edges, b: Binding): Edges {
    if b.input != "" then edges else edges[b.fromNode := Targets(edges, b.fromNode) + [b.toNode]]
  }

  lemma EdgesNext(bindings: seq<Binding>, edges: Edges, b: Binding)
    requires EdgesOf(bindings, edges)
    ensures EdgesOf(bindings + [b], WithEdge(edges, b))
  {
    var bs, edges' := bindings + [b], WithEdge(edges, b);
    forall u, v | v in Targets(edges', u)
      ensures exists i :: 0 <= i < |bs| && bs[i].input == "" && bs[i].fromNode == u && bs[i].toNode == v
    {
      if v in Targets(edges, u) {
        var i :| 0 <= i < |bindings| && bindings[i].input == "" && bindings[i].fromNode == u && bindings[i].toNode == v;
        assert bs[i] == bindings[i];
      } else {
        assert bs[|bindings|] == b;
      }
    }
  }

  /** One binding, looked up in the indexes. */
  predicate BindingPasses(world: World, index: map<string, AssemblyNode>, inputs: seq<NamedArtifact>, b: Binding) {
    var target := InputPortOf(world.modules, index, b.toNode, b.toPort);
    && target.Some? && IsUpstream(b) == (b.input == "")
    && if b.input != "" then
         var a := ArtifactNamed(inputs, b.input);
         a.Some? && Carries(world.traits, a.value, target.value.traits)
       else
         var source := OutputPortOf(world.modules, index, b.fromNode, b.fromPort);
         source.Some? && Covers(source.value.traits, target.value.traits)
  }

  lemma PassesIsValid(world: World, nodes: seq<AssemblyNode>, index: map<string, AssemblyNode>,
                      inputs: seq<NamedArtifact>, b: Binding)
    requires Indexed(nodes, index)
    ensures BindingPasses(world, index, inputs, b) <==> BindingValid(world, nodes, inputs, b)
  {
    PortsByIndex(world.modules, nodes, index, b.toNode, b.toPort);
    PortsByIndex(world.modules, nodes, index, b.fromNode, b.fromPort);
  }

  method BindingIsValid(world: World, ghost nodes: seq<AssemblyNode>, index: map<string, AssemblyNode>,
                        inputs: seq<NamedArtifact>, b: Binding) returns (ok: bool)
    requires Indexed(nodes, index)
    ensures ok <==> BindingValid(world, nodes, inputs, b)
  {
    PassesIsValid(world, nodes, index, inputs, b);
    ok := BindingPasses(world, index, inputs, b);
  }

  ghost predicate ValidUpTo(world: World, nodes: seq<AssemblyNode>, inputs: seq<NamedArtifact>,
                            bindings: seq<Binding>, n: nat)
    requires n <= |bindings|
  {
    forall i :: 0 <= i < n ==> BindingValid(world, nodes, inputs, bindings[i])
  }

  lemma ReadNext(bindings: seq<Binding>, i: nat, edges: Edges, counts: PortCounts)
    requires i < |bindings| && EdgesOf(bindings[..i], edges) && CountsOf(bindings[..i], counts)
    ensures EdgesOf(bindings[..i + 1], WithEdge(edges, bindings[i]))
    ensures CountsOf(bindings[..i + 1], WithCount(counts, bindings[i]))
  {
    assert bindings[..i + 1] == bindings[..i] + [bindings[i]];
    CountsNext(bindings[..i], counts, bindings[i]);
    EdgesNext(bindings[..i], edges, bindings[i]);
  }

  method ReadBindings(world: World, ghost nodes: seq<AssemblyNode>, index: map<string, AssemblyNode>,
                      inputs: seq<NamedArtifact>, bindings: seq<Binding>)
    returns (ok: bool, edges: Edges, counts: PortCounts)
    requires Indexed(nodes, index)
    ensures ok <==> ValidUpTo(world, nodes, inputs, bindings, |bindings|)
    ensures ok ==> EdgesOf(bindings, edges) && CountsOf(bindings, counts)
  {
    edges, counts := map[], map[];
    for i := 0 to |bindings|
      invariant ValidUpTo(world, nodes, inputs, bindings, i)
      invariant EdgesOf(bindings[..i], edges) && CountsOf(bindings[..i], counts)
    {
      ok := BindingIsValid(world, nodes, index, inputs, bindings[i]);
      if !ok {
        return;
      }
      ReadNext(bindings, i, edges, counts);
      counts := WithCount(counts, bindings[i]);
      edges := WithEdge(edges, bindings[i]);
    }
    assert bindings[..|bindings|] == bindings;
    ok := true;
  }

  predicate PortArity(counts: PortCounts, node: string, port: Port) {
    var n := Lookup(counts, (node, port.name), 0);
    (n == 0 ==> port.optional) && (n > 1 ==> port.multiple)
  }

  method ArityIsValid(modules: seq<ModuleSlot>, bindings: seq<Binding>, counts: PortCounts,
                      node: AssemblyNode) returns (ok: bool)
    requires CountsOf(bindings, counts)
    ensures ok <==> ArityValid(modules, bindings, node)
  {
    var cap := CapabilityFor(modules, node);
    if cap.None? {
      return false;
    }
    var ports := cap.value.inputs;
    for i := 0 to |ports|
      invariant forall j :: 0 <= j < i ==> PortArity(counts, node.id, ports[j])
    {
      if !PortArity(counts, node.id, ports[i]) {
        assert Lookup(counts, (node.id, ports[i].name), 0) == BindingCount(bindings, node.id, ports[i].name);
        return false;
      }
    }
    forall i | 0 <= i < |ports|
      ensures Lookup(counts, (node.id, ports[i].name), 0) == BindingCount(bindings, node.id, ports[i].name)
    {
    }
    return true;
  }

  method AritiesAreValid(modules: seq<ModuleSlot>, bindings: seq<Binding>, counts: PortCounts,
                         nodes: seq<AssemblyNode>) returns (ok: bool)
    requires CountsOf(bindings, counts)
    ensures ok <==> forall i :: 0 <= i < |nodes| ==> ArityValid(modules, bindings, nodes[i])
  {
    for i := 0 to |nodes|
      invariant forall j :: 0 <= j < i ==> ArityValid(modules, bindings, nodes[j])
    {
      ok := ArityIsValid(modules, bindings, counts, nodes[i]);
      if !ok {
        return;
      }
    }
    ok := true;
  }

  // ---------------------------------------------------------------- the search for cycles

  /** Consecutive nodes of the path are joined by edges. */
  ghost predicate IsPath(edges: Edges, path: seq<string>) {
    forall i :: 0 < i < |path| ==> path[i] in Targets(edges, path[i - 1])
  }

  ghost predicate HasCycle(edges: Edges) {
    exists path: seq<string> :: |path| > 1 && IsPath(edges, path) && path[0] == path[|path| - 1]
  }

  /** `order` lists the finished nodes; each one's targets finished before it. */
  ghost predicate Finished(edges: Edges, done: set<string>, order: seq<string>) {
    && (forall u :: u in done <==> u in order)
    && (forall i, v :: 0 <= i < |order| && v in Targets(edges, order[i]) ==> v in order[..i])
  }

  ghost predicate OnStack(edges: Edges, path: seq<string>, visiting: set<string>, node: string) {
    && (forall u :: u in visiting <==> u in path)
    && IsPath(edges, path) && (path != [] ==> node in Targets(edges, path[|path| - 1]))
  }

  ghost predicate Closed(edges: Edges, universe: set<string>) {
    forall u, v :: v in Targets(edges, u) ==> v in universe
  }

  /** Meeting a node that is on the stack closes a cycle. */
  lemma StackCycle(edges: Edges, path: seq<string>, visiting: set<string>, node: string)
    requires OnStack(edges, path, visiting, node) && node in visiting
    ensures HasCycle(edges)
  {
    var k :| 0 <= k < |path| && path[k] == node;
    var cycle := path[k..] + [node];
    assert IsPath(edges, cycle);
    assert cycle[0] == cycle[|cycle| - 1];
  }

  lemma PushPath(edges: Edges, path: seq<string>, visiting: set<string>, node: string, next: string)
    requires OnStack(edges, path, visiting, node) && next in Targets(edges, node)
    ensures OnStack(edges, path + [node], visiting + {node}, next)
  {
  }

  lemma FinishNode(edges: Edges, done: set<string>, order: seq<string>, node: string)
    requires Finished(edges, done, order) && forall v :: v in Targets(edges, node) ==> v in done
    ensures Finished(edges, done + {node}, order + [node])
  {
    var order' := order + [node];
    forall i, v | 0 <= i < |order'| && v in Targets(edges, order'[i])
      ensures v in order'[..i]
    {
      if i < |order| {
        assert order'[..i] == order[..i];
      } else {
        assert order'[..i] == order;
      }
    }
  }

  /** `visit`: depth-first, with the nodes on the stack and the finished ones. */
  method Visit(node: string, edges: Edges, ghost universe: set<string>, ghost path: seq<string>,
               visiting: set<string>, done: set<string>, ghost order: seq<string>)
    returns (ok: bool, visiting': set<string>, done': set<string>, ghost order': seq<string>)
    requires Closed(edges, universe) && visiting <= universe && node in universe
    requires OnStack(edges, path, visiting, node) && Finished(edges, done, order) && visiting !! done
    ensures ok ==> visiting' == visiting && Finished(edges, done', order') && visiting !! done'
    ensures ok ==> done + {node} <= done'
    ensures !ok ==> HasCycle(edges)
    decreases |universe - visiting|
  {
    visiting', done', order' := visiting, done, order;
    if node in done {
      return true, visiting', done', order';
    }
    if node in visiting {
      StackCycle(edges, path, visiting, node);
      return false, visiting', done', order';
    }
    visiting' := visiting' + {node};
    Shrinks(universe, visiting, node);
    var targets := Targets(edges, node);
    for i := 0 to |targets|
      invariant visiting' == visiting + {node} && visiting' !! done'
      invariant Finished(edges, done', order') && done <= done'
      invariant forall j :: 0 <= j < i ==> targets[j] in done'
    {
      PushPath(edges, path, visiting, node, targets[i]);
      ok, visiting', done', order' :=
        Visit(targets[i], edges, universe, path + [node], visiting', done', order');
      if !ok {
        return;
      }
    }
    FinishNode(edges, done', order', node);
    visiting' := visiting' - {node};
    done' := done' + {node};
    order' := order' + [node];
    ok := true;
  }

  lemma Shrinks(universe: set<string>, visiting: set<string>, node: string)
    requires node in universe && node !in visiting
    ensures |universe - (visiting + {node})| < |universe - visiting|
  {
    assert universe - (visiting + {node}) == universe - visiting - {node};
  }

  method FindCycle(nodes: set<string>, edges: Edges) returns (ok: bool, ghost order: seq<string>)
    requires Closed(edges, nodes)
    ensures ok ==> Finished(edges, (set u | u in order), order) && forall u :: u in nodes ==> u in order
    ensures !ok ==> HasCycle(edges)
  {
    var visiting, done: set<string>, remaining := {}, {}, nodes;
    order := [];
    while remaining != {}
      invariant visiting == {} && Finished(edges, done, order)
      invariant remaining <= nodes && nodes - remaining <= done
      decreases |remaining|
    {
      var node :| node in remaining;
      remaining := remaining - {node};
      ok, visiting, done, order := Visit(node, edges, nodes, [], visiting, done, order);
      if !ok {
        return;
      }
    }
    assert done == set u | u in order;
    ok := true;
  }

  // ---------------------------------------------------------------- cycles and ranks

  function Position(order: seq<string>, u: string): (p: nat)
    ensures u in order ==> p < |order| && order[p] == u
    ensures forall i :: 0 <= i < |order| && order[i] == u ==> p <= i
  {
    if order == [] || order[0] == u then 0 else Position(order[1..], u) + 1
  }

  /** A finishing order is a rank, read backwards. */
  lemma OrderIsRank(bindings: seq<Binding>, edges: Edges, order: seq<string>)
    requires EdgesOf(bindings, edges) && Finished(edges, (set u | u in order), order)
    requires forall i :: 0 <= i < |bindings| && bindings[i].input == "" ==> bindings[i].fromNode in order
    ensures Acyclic(bindings)
  {
    var rank: map<string, nat> := map u | u in order :: |order| - Position(order, u);
    forall i | 0 <= i < |bindings| && bindings[i].input == ""
      ensures Lookup(rank, bindings[i].fromNode, 0) < Lookup(rank, bindings[i].toNode, 0)
    {
      var from, to := bindings[i].fromNode, bindings[i].toNode;
      var p := Position(order, from);
      assert to in Targets(edges, order[p]);
      assert to in order[..p];
      var q :| 0 <= q < p && order[q] == to;
    }
    assert IsRank(bindings, rank);
  }

  lemma {:induction false} RankClimbs(bindings: seq<Binding>, edges: Edges, rank: map<string, nat>, path: seq<string>)
    requires EdgesOf(bindings, edges) && IsRank(bindings, rank) && IsPath(edges, path) && |path| > 1
    ensures Lookup(rank, path[0], 0) < Lookup(rank, path[|path| - 1], 0)
  {
    var n := |path| - 1;
    assert path[n] in Targets(edges, path[n - 1]);
    var i :| 0 <= i < |bindings| && bindings[i].input == "" && bindings[i].fromNode == path[n - 1]
             && bindings[i].toNode == path[n];
    if n > 1 {
      RankClimbs(bindings, edges, rank, path[..n]);
    }
  }

  lemma CycleHasNoRank(bindings: seq<Binding>, edges: Edges)
    requires EdgesOf(bindings, edges) && HasCycle(edges)
    ensures !Acyclic(bindings)
  {
    var path: seq<string> :| |path| > 1 && IsPath(edges, path) && path[0] == path[|path| - 1];
    forall rank: map<string, nat>
      ensures !IsRank(bindings, rank)
    {
      if IsRank(bindings, rank) {
        RankClimbs(bindings, edges, rank, path);
      }
    }
  }

  /** The cycle check is exact: it passes if and only if there is a rank. */
  method IsAcyclic(nodes: set<string>, bindings: seq<Binding>, edges: Edges) returns (ok: bool)
    requires EdgesOf(bindings, edges)
    requires forall i :: 0 <= i < |bindings| && bindings[i].input == "" ==>
      bindings[i].fromNode in nodes && bindings[i].toNode in nodes
    ensures ok <==> Acyclic(bindings)
  {
    ghost var order;
    ok, order := FindCycle(nodes, edges);
    if ok {
      OrderIsRank(bindings, edges, order);
    } else {
      CycleHasNoRank(bindings, edges);
    }
  }

  // ---------------------------------------------------------------- the whole check

  lemma EndsFound(world: World, nodes: seq<AssemblyNode>, index: map<string, AssemblyNode>,
                  inputs: seq<NamedArtifact>, b: Binding)
    requires Indexed(nodes, index) && BindingValid(world, nodes, inputs, b) && b.input == ""
    ensures b.fromNode in index && b.toNode in index
  {
    assert FindNode(nodes, b.fromNode) == if b.fromNode in index then Some(index[b.fromNode]) else None;
    assert FindNode(nodes, b.toNode) == if b.toNode in index then Some(index[b.toNode]) else None;
  }

  /** Bindings, arities and cycles, once nodes and inputs are known to be good. */
  method WiringIsValid(world: World, assembly: Assembly, inputs: seq<NamedArtifact>,
                       index: map<string, AssemblyNode>) returns (ok: bool)
    requires GraphValid(world.modules, assembly) && Indexed(assembly.nodes, index) && InputsValid(world.traits, inputs)
    ensures ok <==> ValidAssembly(world, assembly, inputs)
  {
    var edges, counts;
    ok, edges, counts := ReadBindings(world, assembly.nodes, index, inputs, assembly.bindings);
    if !ok {
      return;
    }
    ok := AritiesAreValid(world.modules, assembly.bindings, counts, assembly.nodes);
    if !ok {
      return;
    }
    forall i | 0 <= i < |assembly.bindings| && assembly.bindings[i].input == ""
      ensures assembly.bindings[i].fromNode in index && assembly.bindings[i].toNode in index
    {
      EndsFound(world, assembly.nodes, index, inputs, assembly.bindings[i]);
    }
    ok := IsAcyclic(index.Keys, assembly.bindings, edges);
  }

  /** `validate_assembly`. */
  method ValidateAssembly(world: World, assembly: Assembly,
                          inputs: seq<NamedArtifact>) returns (fault: Option<KernelError>)
    ensures fault == AssemblyFault(world, assembly, inputs)
    ensures fault.None? <==> ValidAssembly(world, assembly, inputs)
  {
    var index := GraphIsValid(world.modules, assembly);
    if index.None? {
      return Some(Invalid);
    }
    fault := IndexInputs(world.traits, inputs);
    if fault.Some? {
      return;
    }
    NoInputFault(world.traits, inputs, 0);
    var ok := WiringIsValid(world, assembly, inputs, index.value);
    return if ok then None else Some(Invalid);
  }
}
