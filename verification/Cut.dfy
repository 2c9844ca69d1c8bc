/** Starting a pipeline part-way: which nodes a plan keeps, and the smaller
  * assembly whose crossing edges are fed from seed inputs. */
module Cut {
  import opened Base
  import opened Types

  datatype NodePlan = PlanAll | PlanOnly(ids: seq<string>) | PlanAfter(node: string) | PlanFrom(node: string)

  const SEED_PREFIX := "__seed/"

  function SeedName(node: string, port: string): string {
    SEED_PREFIX + node + ("/" + port)
  }

  predicate IsSeedName(name: string) {
    SEED_PREFIX <= name
  }

  /** A binding whose producer is dropped, under the name of its run input. */
  datatype SeedSpec = SeedSpec(fromNode: string, fromPort: string, toNode: string, toPort: string)

  datatype AssemblyCut = AssemblyCut(
    assembly: Assembly, skipped: seq<AssemblyNode>, requiredSeeds: seq<SeedSpec>, keptIds: seq<string>)

  // ---------------------------------------------------------------- data flow

  /** Some binding carries data from `u` to `v`. */
  predicate Flows(bindings: seq<Binding>, u: string, v: string) {
    u != "" && v != "" && exists i :: 0 <= i < |bindings| && bindings[i].fromNode == u && bindings[i].toNode == v
  }

  ghost predicate IsFlow(bindings: seq<Binding>, path: seq<string>) {
    forall i :: 0 < i < |path| ==> Flows(bindings, path[i - 1], path[i])
  }

  ghost predicate FlowsAlong(bindings: seq<Binding>, u: string, v: string, path: seq<string>) {
    path != [] && path[0] == u && path[|path| - 1] == v && IsFlow(bindings, path)
  }

  /** Data can get from `u` to `v` in no, one or many steps. */
  ghost predicate LeadsTo(bindings: seq<Binding>, u: string, v: string) {
    exists path: seq<string> :: FlowsAlong(bindings, u, v, path)
  }

  /** Data can get from `u` to `v` in one or more steps. */
  ghost predicate Feeds(bindings: seq<Binding>, u: string, v: string) {
    exists w :: Flows(bindings, u, w) && LeadsTo(bindings, w, v)
  }

  lemma LeadsToSelf(bindings: seq<Binding>, u: string)
    ensures LeadsTo(bindings, u, u)
  {
    assert FlowsAlong(bindings, u, u, [u]);
  }

  lemma LeadsToBefore(bindings: seq<Binding>, u: string, w: string, v: string)
    requires Flows(bindings, u, w) && LeadsTo(bindings, w, v)
    ensures LeadsTo(bindings, u, v)
  {
    var path: seq<string> :| FlowsAlong(bindings, w, v, path);
    assert FlowsAlong(bindings, u, v, [u] + path);
  }

  lemma LeadsToAfter(bindings: seq<Binding>, u: string, w: string, v: string)
    requires LeadsTo(bindings, u, w) && Flows(bindings, w, v)
    ensures LeadsTo(bindings, u, v)
  {
    var path: seq<string> :| FlowsAlong(bindings, u, w, path);
    assert FlowsAlong(bindings, u, v, path + [v]);
  }

  /** A set that holds the start of a path and everything its members flow to
    * holds the whole path. */
  lemma {:induction false} PathStays(bindings: seq<Binding>, path: seq<string>, held: set<string>, i: nat)
    requires IsFlow(bindings, path) && i < |path| && path[0] in held
    requires forall u, v :: u in held && Flows(bindings, u, v) ==> v in held
    ensures path[i] in held
  {
    if i > 0 {
      PathStays(bindings, path, held, i - 1);
    }
  }

  /** The same, backwards along the flow. */
  lemma {:induction false} PathCame(bindings: seq<Binding>, path: seq<string>, held: set<string>, i: nat)
    requires IsFlow(bindings, path) && i < |path| && path[|path| - 1] in held
    requires forall u, v :: v in held && Flows(bindings, u, v) ==> u in held
    ensures path[i] in held
    decreases |path| - i
  {
    if i < |path| - 1 {
      PathCame(bindings, path, held, i + 1);
    }
  }

  // ---------------------------------------------------------------- the two searches

  function Ends(bindings: seq<Binding>): set<string> {
    (set i | 0 <= i < |bindings| :: bindings[i].fromNode) + (set i | 0 <= i < |bindings| :: bindings[i].toNode)
  }

  type Neighbours = map<string, seq<string>>

  function Adjacent(edges: Neighbours, u: string): seq<string> {
    Lookup(edges, u, [])
  }

  ghost predicate Outgoing(bindings: seq<Binding>, edges: Neighbours) {
    forall u, v :: v in Adjacent(edges, u) <==> Flows(bindings, u, v)
  }

  ghost predicate Incoming(bindings: seq<Binding>, edges: Neighbours) {
    forall u, v :: u in Adjacent(edges, v) <==> Flows(bindings, u, v)
  }

  lemma FlowsNext(bindings: seq<Binding>, b: Binding, u: string, v: string)
    ensures Flows(bindings + [b], u, v)
       <==> Flows(bindings, u, v) || (u != "" && v != "" && b.fromNode == u && b.toNode == v)
  {
    var bs := bindings + [b];
    if Flows(bindings, u, v) {
      var i :| 0 <= i < |bindings| && bindings[i].fromNode == u && bindings[i].toNode == v;
      assert bs[i] == bindings[i];
    }
    if u != "" && v != "" && b.fromNode == u && b.toNode == v {
      assert bs[|bindings|] == b;
    }
  }

  /** Record `v` among the neighbours of `u`, unless an end is unnamed. */
  function Joined(edges: Neighbours, u: string, v: string): Neighbours {
    if u == "" || v == "" then edges else edges[u := Adjacent(edges, u) + [v]]
  }

  lemma OutgoingNext(bindings: seq<Binding>, edges: Neighbours, b: Binding)
    requires Outgoing(bindings, edges)
    ensures Outgoing(bindings + [b], Joined(edges, b.fromNode, b.toNode))
  {
    forall u, v
      ensures v in Adjacent(Joined(edges, b.fromNode, b.toNode), u) <==> Flows(bindings + [b], u, v)
    {
      FlowsNext(bindings, b, u, v);
      assert v in Adjacent(edges, u) <==> Flows(bindings, u, v);
    }
  }

  lemma IncomingNext(bindings: seq<Binding>, edges: Neighbours, b: Binding)
    requires Incoming(bindings, edges)
    ensures Incoming(bindings + [b], Joined(edges, b.toNode, b.fromNode))
  {
    forall u, v
      ensures u in Adjacent(Joined(edges, b.toNode, b.fromNode), v) <==> Flows(bindings + [b], u, v)
    {
      FlowsNext(bindings, b, u, v);
      assert u in Adjacent(edges, v) <==> Flows(bindings, u, v);
    }
  }

  method OutgoingEdges(bindings: seq<Binding>) returns (edges: Neighbours)
    ensures Outgoing(bindings, edges)
  {
    edges := map[];
    for i := 0 to |bindings|
      invariant Outgoing(bindings[..i], edges)
    {
      OutgoingNext(bindings[..i], edges, bindings[i]);
      assert bindings[..i + 1] == bindings[..i] + [bindings[i]];
      edges := Joined(edges, bindings[i].fromNode, bindings[i].toNode);
    }
    assert bindings[..|bindings|] == bindings;
  }

  method IncomingEdges(bindings: seq<Binding>) returns (edges: Neighbours)
    ensures Incoming(bindings, edges)
  {
    edges := map[];
    for i := 0 to |bindings|
      invariant Incoming(bindings[..i], edges)
    {
      IncomingNext(bindings[..i], edges, bindings[i]);
      assert bindings[..i + 1] == bindings[..i] + [bindings[i]];
      edges := Joined(edges, bindings[i].toNode, bindings[i].fromNode);
    }
    assert bindings[..|bindings|] == bindings;
  }

  lemma FlowEnds(bindings: seq<Binding>, u: string, v: string)
    requires Flows(bindings, u, v)
    ensures u in Ends(bindings) && v in Ends(bindings)
  {
  }

  /** All members but those still queued have their neighbours collected. */
  ghost predicate Explored(edges: Neighbours, members: set<string>, queue: seq<string>, held: set<string>) {
    && (forall u :: u in queue ==> u in members)
    && (forall u, v :: u in members && u !in queue && v in Adjacent(edges, u) ==> v in held)
  }

  /** The same, while the neighbours of `cur` are being walked. */
  ghost predicate Exploring(edges: Neighbours, members: set<string>, queue: seq<string>, held: set<string>,
                            cur: string, i: nat)
    requires i <= |Adjacent(edges, cur)|
  {
    && (forall u :: u in queue ==> u in members)
    && (forall u, v :: u in members && u !in queue && u != cur && v in Adjacent(edges, u) ==> v in held)
    && (forall j :: 0 <= j < i ==> Adjacent(edges, cur)[j] in held)
  }

  lemma StartWalk(edges: Neighbours, members: set<string>, queue: seq<string>, held: set<string>)
    requires queue != [] && Explored(edges, members, queue, held)
    ensures Exploring(edges, members, queue[1..], held, queue[0], 0)
  {
    assert queue == [queue[0]] + queue[1..];
  }

  lemma WalkNext(edges: Neighbours, members: set<string>, queue: seq<string>, held: set<string>, cur: string, i: nat)
    requires i < |Adjacent(edges, cur)| && Exploring(edges, members, queue, held, cur, i)
    ensures var n := Adjacent(edges, cur)[i];
      Exploring(edges, members + {n}, if n in members then queue else queue + [n], held + {n}, cur, i + 1)
  {
  }

  lemma EndWalk(edges: Neighbours, members: set<string>, queue: seq<string>, held: set<string>, cur: string)
    requires Exploring(edges, members, queue, held, cur, |Adjacent(edges, cur)|)
    ensures Explored(edges, members, queue, held)
  {
  }

  ghost predicate AllReached(bindings: seq<Binding>, node: string, out: set<string>) {
    forall v :: v in out ==> LeadsTo(bindings, node, v)
  }

  ghost predicate AllFeed(bindings: seq<Binding>, out: set<string>, node: string) {
    forall u :: u in out ==> Feeds(bindings, u, node)
  }

  lemma ReachedNext(bindings: seq<Binding>, edges: Neighbours, node: string, out: set<string>, cur: string, n: string)
    requires Outgoing(bindings, edges) && AllReached(bindings, node, out) && cur in out && n in Adjacent(edges, cur)
    ensures AllReached(bindings, node, out + {n}) && n in Ends(bindings)
  {
    LeadsToAfter(bindings, node, cur, n);
    FlowEnds(bindings, cur, n);
  }

  lemma FeedNext(bindings: seq<Binding>, edges: Neighbours, node: string, out: set<string>, cur: string, p: string)
    requires Incoming(bindings, edges) && AllFeed(bindings, out, node) && cur in out + {node}
    requires p in Adjacent(edges, cur)
    ensures AllFeed(bindings, out + {p}, node) && p in Ends(bindings)
  {
    FlowEnds(bindings, p, cur);
    if cur == node {
      LeadsToSelf(bindings, node);
    } else {
      var w :| Flows(bindings, cur, w) && LeadsTo(bindings, w, node);
      LeadsToBefore(bindings, cur, w, node);
    }
  }

  /** One node of the forward search: queue the neighbours not met before. */
  method WalkForward(ghost bindings: seq<Binding>, edges: Neighbours, ghost node: string, cur: string,
                     queue: seq<string>, out: set<string>)
    returns (queue': seq<string>, out': set<string>)
    requires Outgoing(bindings, edges) && AllReached(bindings, node, out) && cur in out
    requires Exploring(edges, out, queue, out, cur, 0)
    ensures Explored(edges, out', queue', out') && AllReached(bindings, node, out')
    ensures out <= out' <= out + Ends(bindings) && (out' == out ==> queue' == queue)
  {
    queue', out' := queue, out;
    for i := 0 to |Adjacent(edges, cur)|
      invariant out <= out' <= out + Ends(bindings) && (out' == out ==> queue' == queue)
      invariant Exploring(edges, out', queue', out', cur, i) && AllReached(bindings, node, out')
    {
      var n := Adjacent(edges, cur)[i];
      WalkNext(edges, out', queue', out', cur, i);
      ReachedNext(bindings, edges, node, out', cur, n);
      if n !in out' {
        queue' := queue' + [n];
      }
      out' := out' + {n};
    }
    EndWalk(edges, out', queue', out', cur);
  }

  /** `reachable_from`: breadth first along the flow. */
  method ReachableFrom(bindings: seq<Binding>, node: string) returns (out: set<string>)
    ensures forall v :: v in out <==> LeadsTo(bindings, node, v)
  {
    var edges := OutgoingEdges(bindings);
    ghost var universe := Ends(bindings) + {node};
    var queue := [node];
    out := {node};
    LeadsToSelf(bindings, node);
    while queue != []
      invariant node in out && out <= universe
      invariant Explored(edges, out, queue, out) && AllReached(bindings, node, out)
      decreases |universe - out|, |queue|
    {
      StartWalk(edges, out, queue, out);
      ghost var before := out;
      queue, out := WalkForward(bindings, edges, node, queue[0], queue[1..], out);
      FewerLeft(universe, before, out);
    }
    ForwardComplete(bindings, edges, node, out);
  }

  lemma FewerLeft(universe: set<string>, before: set<string>, after: set<string>)
    requires before <= after <= universe
    ensures after == before || |universe - after| < |universe - before|
  {
    if after != before {
      var x :| x in after && x !in before;
      SubsetCardinality(universe - after, universe - before - {x});
    }
  }

  lemma ForwardComplete(bindings: seq<Binding>, edges: Neighbours, node: string, out: set<string>)
    requires Outgoing(bindings, edges) && node in out && Explored(edges, out, [], out)
    ensures forall v :: LeadsTo(bindings, node, v) ==> v in out
  {
    forall v | LeadsTo(bindings, node, v)
      ensures v in out
    {
      var path: seq<string> :| FlowsAlong(bindings, node, v, path);
      PathStays(bindings, path, out, |path| - 1);
    }
  }

  /** One node of the backward search. `visited` keeps the start from being
    * walked twice should it lie on a cycle. */
  method WalkBackward(ghost bindings: seq<Binding>, edges: Neighbours, ghost node: string, cur: string,
                      queue: seq<string>, visited: set<string>, out: set<string>)
    returns (queue': seq<string>, visited': set<string>, out': set<string>)
    requires Incoming(bindings, edges) && AllFeed(bindings, out, node) && cur in visited && visited == out + {node}
    requires Exploring(edges, visited, queue, out, cur, 0)
    ensures Explored(edges, visited', queue', out') && AllFeed(bindings, out', node) && visited' == out' + {node}
    ensures visited <= visited' <= visited + Ends(bindings) && (visited' == visited ==> queue' == queue)
  {
    queue', visited', out' := queue, visited, out;
    for i := 0 to |Adjacent(edges, cur)|
      invariant visited' == out' + {node}
      invariant visited <= visited' <= visited + Ends(bindings) && (visited' == visited ==> queue' == queue)
      invariant Exploring(edges, visited', queue', out', cur, i) && AllFeed(bindings, out', node)
    {
      var p := Adjacent(edges, cur)[i];
      WalkNext(edges, visited', queue', out', cur, i);
      FeedNext(bindings, edges, node, out', cur, p);
      if p !in out' {
        out' := out' + {p};
        if p !in visited' {
          queue' := queue' + [p];
          visited' := visited' + {p};
        }
      }
      assert out' + {p} == out' && visited' + {p} == visited';
    }
    EndWalk(edges, visited', queue', out', cur);
  }

  /** `transitive_predecessors`: breadth first against the flow. */
  method TransitivePredecessors(bindings: seq<Binding>, node: string) returns (out: set<string>)
    ensures forall u :: u in out <==> Feeds(bindings, u, node)
  {
    var edges := IncomingEdges(bindings);
    ghost var universe := Ends(bindings) + {node};
    var queue, visited := [node], {node};
    out := {};
    while queue != []
      invariant visited == out + {node} && visited <= universe
      invariant Explored(edges, visited, queue, out) && AllFeed(bindings, out, node)
      decreases |universe - visited|, |queue|
    {
      StartWalk(edges, visited, queue, out);
      ghost var before := visited;
      queue, visited, out := WalkBackward(bindings, edges, node, queue[0], queue[1..], visited, out);
      FewerLeft(universe, before, visited);
    }
    BackwardComplete(bindings, edges, node, out);
  }

  lemma BackwardComplete(bindings: seq<Binding>, edges: Neighbours, node: string, out: set<string>)
    requires Incoming(bindings, edges) && Explored(edges, out + {node}, [], out)
    ensures forall u :: Feeds(bindings, u, node) ==> u in out
  {
    forall u | Feeds(bindings, u, node)
      ensures u in out
    {
      var w :| Flows(bindings, u, w) && LeadsTo(bindings, w, node);
      var path: seq<string> :| FlowsAlong(bindings, w, node, path);
      PathCame(bindings, path, out + {node}, 0);
    }
  }
}
