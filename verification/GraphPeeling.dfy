/** Kahn's algorithm step by step: its maps, and the order in which it takes nodes. */
module GraphPeeling {
  import opened Wrappers
  import opened SortedText

  datatype GraphNode = GraphNode(runId: Text, hash: Text)
  datatype GraphEdge = GraphEdge(from: Text, to: Text)

  function Known(nodes: seq<GraphNode>): set<Text> {
    set n | n in nodes :: n.runId
  }

  // ---- what acyclic means -------------------------------------------------------------------------

  ghost predicate Walk(edges: seq<GraphEdge>, p: seq<Text>) {
    forall i :: 0 <= i < |p| - 1 ==> GraphEdge(p[i], p[i + 1]) in edges
  }

  ghost predicate Cycle(edges: seq<GraphEdge>, p: seq<Text>) {
    |p| >= 2 && p[0] == p[|p| - 1] && Walk(edges, p)
  }

  ghost predicate Acyclic(edges: seq<GraphEdge>) {
    forall p :: !Cycle(edges, p)
  }

  ghost predicate DistinctIds(nodes: seq<GraphNode>) {
    forall i, j :: 0 <= i < j < |nodes| ==> nodes[i].runId != nodes[j].runId
  }

  ghost predicate KnownEndpoints(nodes: seq<GraphNode>, edges: seq<GraphEdge>) {
    forall e :: e in edges ==> e.from in Known(nodes) && e.to in Known(nodes)
  }

  // ---- edges into a node ----------------------------------------------------------------------------

  function InCount(edges: seq<GraphEdge>, v: Text): nat {
    if edges == [] then 0
    else InCount(edges[..|edges| - 1], v) + (if edges[|edges| - 1].to == v then 1 else 0)
  }

  function Preds(known: set<Text>, edges: seq<GraphEdge>, v: Text): set<Text> {
    set e | e in edges && e.to == v && e.from in known :: e.from
  }

  /** Every edge into the node comes from a known node and is given once. */
  ghost predicate Clean(known: set<Text>, edges: seq<GraphEdge>, v: Text) {
    forall e :: 0 <= e < |edges| && edges[e].to == v ==>
      edges[e].from in known && forall f :: 0 <= f < |edges| && f != e ==> edges[f] != edges[e]
  }

  lemma CleanGrows(known: set<Text>, edges: seq<GraphEdge>, last: GraphEdge, v: Text)
    ensures Clean(known, edges + [last], v) <==>
      Clean(known, edges, v) && (last.to == v ==> last.from in known && last !in edges)
  {
    var grown := edges + [last];
    assert forall i :: 0 <= i < |edges| ==> grown[i] == edges[i];
    if Clean(known, grown, v) {
      forall e | 0 <= e < |edges| && edges[e].to == v
        ensures edges[e].from in known && forall f :: 0 <= f < |edges| && f != e ==> edges[f] != edges[e]
      {
        assert grown[e] == edges[e];
      }
      if last.to == v {
        assert grown[|edges|] == last;
      }
    }
  }

  lemma PredsGrow(known: set<Text>, edges: seq<GraphEdge>, last: GraphEdge, v: Text)
    ensures Preds(known, edges + [last], v) ==
      Preds(known, edges, v) + (if last.to == v && last.from in known then {last.from} else {})
    ensures last.to == v && last.from in known ==> (last.from in Preds(known, edges, v) <==> last in edges)
  {
    if last.to == v && last.from in Preds(known, edges, v) {
      var e :| e in edges && e.to == v && e.from == last.from;
      assert e == last;
    }
  }

  /** The edges into a node outnumber its predecessors unless the node is clean. */
  lemma {:induction false} CountAgainstPreds(known: set<Text>, edges: seq<GraphEdge>, v: Text)
    ensures |Preds(known, edges, v)| <= InCount(edges, v)
    ensures |Preds(known, edges, v)| == InCount(edges, v) <==> Clean(known, edges, v)
  {
    hide Preds;
    if edges == [] {
      assert Preds(known, edges, v) == {} by { NoPreds(known, v); }
    } else {
      hide Clean;
      var init, last := edges[..|edges| - 1], edges[|edges| - 1];
      assert edges == init + [last];
      CountAgainstPreds(known, init, v);
      CleanGrows(known, init, last, v);
      PredsGrow(known, init, last, v);
    }
  }

  lemma NoPreds(known: set<Text>, v: Text)
    ensures Preds(known, [], v) == {}
  {
  }

  // ---- the order in which nodes are taken ----------------------------------------------------------------

  function Ids(nodes: seq<GraphNode>, edges: seq<GraphEdge>): set<Text> {
    Known(nodes) + set e | e in edges :: e.to
  }

  /** A node can be taken once it is clean and all its predecessors have been. */
  ghost predicate Ready(known: set<Text>, edges: seq<GraphEdge>, taken: set<Text>, v: Text) {
    Clean(known, edges, v) && Preds(known, edges, v) <= taken
  }

  function Elements(s: seq<Text>): set<Text> {
    set x | x in s
  }

  ghost predicate Peels(known: set<Text>, edges: seq<GraphEdge>, order: seq<Text>) {
    Distinct(order) && forall i :: 0 <= i < |order| ==> Ready(known, edges, Elements(order[..i]), order[i])
  }

  /** The order takes a node only when it is ready, and stops only when no other node is. */
  ghost predicate Peeled(nodes: seq<GraphNode>, edges: seq<GraphEdge>, order: seq<Text>) {
    && Peels(Known(nodes), edges, order)
    && Elements(order) <= Ids(nodes, edges)
    && forall v :: v in Ids(nodes, edges) && v !in order ==> !Ready(Known(nodes), edges, Elements(order), v)
  }

  // ---- the algorithm's state --------------------------------------------------------------------------------

  /** In-degrees count what is still to be released; what has reached zero has been queued once, in a good order. */
  ghost predicate Working(nodes: seq<GraphNode>, edges: seq<GraphEdge>, inDegree: map<Text, int>, done: seq<Text>,
                          queue: seq<Text>) {
    && inDegree.Keys == Ids(nodes, edges)
    && Peels(Known(nodes), edges, done + queue) && Elements(done + queue) <= inDegree.Keys
    && Degrees(Known(nodes), edges, inDegree, done)
    && (forall v :: v in inDegree ==> (v in done + queue <==> inDegree[v] == 0))
  }

  ghost predicate Degrees(known: set<Text>, edges: seq<GraphEdge>, inDegree: map<Text, int>, done: seq<Text>) {
    forall v :: v in inDegree ==> inDegree[v] == InCount(edges, v) - |Preds(known, edges, v) * Elements(done)|
  }

  ghost predicate Successors(nodes: seq<GraphNode>, edges: seq<GraphEdge>, u: Text, neighbors: seq<Text>) {
    && Distinct(neighbors)
    && forall v :: v in neighbors <==> (u in Known(nodes) && GraphEdge(u, v) in edges)
  }

  /** The neighbors that have reached zero, in order. */
  function Freed(neighbors: seq<Text>, inDegree: map<Text, int>): (r: seq<Text>)
    ensures forall v :: v in r <==> v in neighbors && v in inDegree && inDegree[v] == 0
  {
    if neighbors == [] then []
    else
      var init, last := neighbors[..|neighbors| - 1], neighbors[|neighbors| - 1];
      Freed(init, inDegree) + (if last in inDegree && inDegree[last] == 0 then [last] else [])
  }

  lemma {:induction false} FreedDistinct(neighbors: seq<Text>, inDegree: map<Text, int>)
    requires Distinct(neighbors)
    ensures Distinct(Freed(neighbors, inDegree))
  {
    if neighbors != [] { FreedDistinct(neighbors[..|neighbors| - 1], inDegree); }
  }

  /** Nothing left to release means every edge in comes from a taken predecessor, and only once. */
  lemma ZeroIsReady(known: set<Text>, edges: seq<GraphEdge>, taken: set<Text>, v: Text)
    ensures InCount(edges, v) == |Preds(known, edges, v) * taken| <==> Ready(known, edges, taken, v)
  {
    hide InCount, Clean, Preds;
    var preds := Preds(known, edges, v);
    CountAgainstPreds(known, edges, v);
    assert preds == preds * taken + (preds - taken);
    assert |preds| == |preds * taken| + |preds - taken|;
    if preds <= taken { assert preds * taken == preds; }
  }

  lemma DistinctJoin(a: seq<Text>, b: seq<Text>)
    requires Distinct(a) && Distinct(b) && forall v :: v in b ==> v !in a
    ensures Distinct(a + b)
  {
    forall i, j | 0 <= i < j < |a + b|
      ensures (a + b)[i] != (a + b)[j]
    {
      if j >= |a| > i { assert b[j - |a|] in b && a[i] in a; }
    }
  }

  lemma PeelsOn(known: set<Text>, edges: seq<GraphEdge>, order: seq<Text>, taken: set<Text>, more: seq<Text>)
    requires Peels(known, edges, order) && taken <= Elements(order)
    requires Distinct(more) && forall v :: v in more ==> v !in order && Ready(known, edges, taken, v)
    ensures Peels(known, edges, order + more)
  {
    hide Clean, Preds;
    var all := order + more;
    DistinctJoin(order, more);
    forall i | 0 <= i < |all|
      ensures Ready(known, edges, Elements(all[..i]), all[i])
    {
      if i < |order| {
        assert all[..i] == order[..i];
      } else {
        assert all[i] == more[i - |order|] && all[i] in more;
        assert forall k :: 0 <= k < |order| ==> all[..i][k] == order[k];
        assert Elements(order) <= Elements(all[..i]);
      }
    }
  }

  lemma TakenGrows(known: set<Text>, edges: seq<GraphEdge>, done: seq<Text>, u: Text, v: Text)
    requires u !in done
    ensures |Preds(known, edges, v) * Elements(done + [u])|
         == |Preds(known, edges, v) * Elements(done)| + (if u in known && GraphEdge(u, v) in edges then 1 else 0)
  {
    var preds := Preds(known, edges, v);
    assert Elements(done + [u]) == Elements(done) + {u};
    if u in known && GraphEdge(u, v) in edges {
      assert u in preds;
      assert preds * Elements(done + [u]) == preds * Elements(done) + {u};
    } else {
      assert u !in preds;
      assert preds * Elements(done + [u]) == preds * Elements(done);
    }
  }

  /** Taking the head of the queue and releasing its neighbors keeps the state sound. */
  lemma TakeKeepsWorking(nodes: seq<GraphNode>, edges: seq<GraphEdge>, inDegree: map<Text, int>, done: seq<Text>,
                         u: Text, rest: seq<Text>,
                         neighbors: seq<Text>, released: map<Text, int>)
    requires Working(nodes, edges, inDegree, done, [u] + rest) && Successors(nodes, edges, u, neighbors)
    requires released.Keys == inDegree.Keys
    requires forall v :: v in released ==> released[v] == inDegree[v] - (if v in neighbors then 1 else 0)
    ensures Working(nodes, edges, released, done + [u], rest + Freed(neighbors, released))
  {
    hide Peels, Ready, Freed, Known, Ids, Degrees;
    var known := Known(nodes);
    var order := done + ([u] + rest);
    var freed := Freed(neighbors, released);
    OnceInOrder(known, edges, done, u, rest);
    DegreesGoDown(nodes, edges, inDegree, done, u, neighbors, released);
    FreedIsReady(nodes, edges, inDegree, order, done + [u], neighbors, released);
    assert Elements(done + [u]) <= Elements(order);
    PeelsOn(known, edges, order, Elements(done + [u]), freed);
    assert (done + [u]) + (rest + freed) == order + freed;
    assert Elements(order + freed) == Elements(order) + Elements(freed);
    FreedAreTheZeros(nodes, edges, inDegree, released, done, u, rest, neighbors);
  }

  lemma DegreesGoDown(nodes: seq<GraphNode>, edges: seq<GraphEdge>, inDegree: map<Text, int>, done: seq<Text>, u: Text,
                      neighbors: seq<Text>, released: map<Text, int>)
    requires Degrees(Known(nodes), edges, inDegree, done) && Successors(nodes, edges, u, neighbors) && u !in done
    requires released.Keys == inDegree.Keys
    requires forall v :: v in released ==> released[v] == inDegree[v] - (if v in neighbors then 1 else 0)
    ensures Degrees(Known(nodes), edges, released, done + [u])
  {
    hide Preds, InCount, Elements, Known;
    var known := Known(nodes);
    forall v | v in released
      ensures released[v] == InCount(edges, v) - |Preds(known, edges, v) * Elements(done + [u])|
    {
      TakenGrows(known, edges, done, u, v);
    }
  }

  lemma FreedAreTheZeros(nodes: seq<GraphNode>, edges: seq<GraphEdge>, inDegree: map<Text, int>, released: map<Text, int>,
                         done: seq<Text>, u: Text, rest: seq<Text>, neighbors: seq<Text>)
    requires released.Keys == inDegree.Keys && Degrees(Known(nodes), edges, released, done + [u])
    requires forall v :: v in released ==> released[v] == inDegree[v] - (if v in neighbors then 1 else 0)
    requires forall v :: v in inDegree ==> (v in done + ([u] + rest) <==> inDegree[v] == 0)
    ensures forall v :: v in released ==> (v in done + ([u] + rest) + Freed(neighbors, released) <==> released[v] == 0)
  {
    hide Preds, InCount, Elements, Known;
    forall v | v in released && v in done + ([u] + rest)
      ensures released[v] == 0
    {
      StaysZero(Known(nodes), edges, inDegree, released, done, u, v);
    }
  }

  lemma FreedIsReady(nodes: seq<GraphNode>, edges: seq<GraphEdge>, inDegree: map<Text, int>, order: seq<Text>, taken: seq<Text>,
                     neighbors: seq<Text>, released: map<Text, int>)
    requires Distinct(neighbors) && released.Keys == inDegree.Keys
    requires forall v :: v in inDegree ==> (v in order <==> inDegree[v] == 0)
    requires forall v :: v in released ==> released[v] == inDegree[v] - (if v in neighbors then 1 else 0)
    requires Degrees(Known(nodes), edges, released, taken)
    ensures Distinct(Freed(neighbors, released))
    ensures forall v :: v in Freed(neighbors, released) ==> v !in order && Ready(Known(nodes), edges, Elements(taken), v)
  {
    hide Clean, Preds, InCount, Ready;
    FreedDistinct(neighbors, released);
    forall v | v in Freed(neighbors, released)
      ensures v !in order && Ready(Known(nodes), edges, Elements(taken), v)
    {
      ZeroIsReady(Known(nodes), edges, Elements(taken), v);
    }
  }

  lemma OnceInOrder(known: set<Text>, edges: seq<GraphEdge>, done: seq<Text>, u: Text, rest: seq<Text>)
    requires Peels(known, edges, done + ([u] + rest))
    ensures u !in done
  {
    var order := done + ([u] + rest);
    assert order[|done|] == u;
    assert forall i :: 0 <= i < |done| ==> order[i] == done[i];
  }

  /** A count that is zero stays zero: it cannot go below, and it only goes down. */
  lemma StaysZero(known: set<Text>, edges: seq<GraphEdge>, inDegree: map<Text, int>, released: map<Text, int>,
                  done: seq<Text>, u: Text, v: Text)
    requires v in inDegree && v in released && inDegree[v] == 0 && released[v] <= 0
    requires released[v] == InCount(edges, v) - |Preds(known, edges, v) * Elements(done + [u])|
    ensures released[v] == 0
  {
    hide Clean, Preds, InCount;
    CountAgainstPreds(known, edges, v);
    var preds := Preds(known, edges, v);
    assert preds == preds * Elements(done + [u]) + (preds - Elements(done + [u]));
    assert |preds| == |preds * Elements(done + [u])| + |preds - Elements(done + [u])|;
  }

  lemma StartsWorking(nodes: seq<GraphNode>, edges: seq<GraphEdge>, inDegree: map<Text, int>, queue: seq<Text>)
    requires inDegree.Keys == Ids(nodes, edges) && forall v :: v in inDegree ==> inDegree[v] == InCount(edges, v)
    requires Distinct(queue) && forall v :: v in queue <==> v in inDegree && inDegree[v] == 0
    ensures Working(nodes, edges, inDegree, [], queue)
  {
    hide Clean, Preds, InCount;
    var known := Known(nodes);
    forall v | v in inDegree
      ensures Preds(known, edges, v) * Elements([]) == {}
    {
    }
    forall v | v in queue
      ensures Ready(known, edges, Elements([]), v)
    {
      ZeroIsReady(known, edges, Elements([]), v);
    }
    PeelsOn(known, edges, [], {}, queue);
    assert [] + queue == queue;
  }

  lemma EndsPeeled(nodes: seq<GraphNode>, edges: seq<GraphEdge>, inDegree: map<Text, int>, done: seq<Text>)
    requires Working(nodes, edges, inDegree, done, [])
    ensures Peeled(nodes, edges, done) && |done| <= |Ids(nodes, edges)|
  {
    hide Clean, Preds, InCount;
    assert done + [] == done;
    forall v | v in Ids(nodes, edges) && v !in done
      ensures !Ready(Known(nodes), edges, Elements(done), v)
    {
      ZeroIsReady(Known(nodes), edges, Elements(done), v);
    }
    DistinctCount(done);
    SubsetCount(Elements(done), Ids(nodes, edges));
  }

  lemma {:induction false} DistinctCount(s: seq<Text>)
    requires Distinct(s)
    ensures |Elements(s)| == |s|
  {
    if s != [] {
      DistinctCount(s[1..]);
      assert Elements(s) == {s[0]} + Elements(s[1..]);
    }
  }

  lemma SubsetCount(a: set<Text>, b: set<Text>)
    requires a <= b
    ensures |a| <= |b| && (|a| == |b| ==> a == b)
  {
    assert b == a + (b - a);
    assert |b| == |a| + |b - a|;
  }

  // ---- the algorithm --------------------------------------------------------------------------------------

  /** The two maps after some of the edges; `ids` lists the in-degree map's keys in the order they were set. */
  ghost predicate Built(nodes: seq<GraphNode>, edges: seq<GraphEdge>, adjacency: map<Text, seq<Text>>,
                        inDegree: map<Text, int>, ids: seq<Text>) {
    && adjacency.Keys == Known(nodes)
    && (forall u :: u in adjacency ==> Successors(nodes, edges, u, adjacency[u]))
    && inDegree.Keys == Ids(nodes, edges) == Elements(ids) && Distinct(ids)
    && (forall v :: v in inDegree ==> inDegree[v] == InCount(edges, v))
  }

  method AddNodes(nodes: seq<GraphNode>) returns (adjacency: map<Text, seq<Text>>, inDegree: map<Text, int>, ids: seq<Text>)
    ensures Built(nodes, [], adjacency, inDegree, ids)
  {
    adjacency, inDegree, ids := map[], map[], [];
    var i := 0;
    while i < |nodes|
      invariant 0 <= i <= |nodes|
      invariant adjacency.Keys == inDegree.Keys == Elements(ids) == Known(nodes[..i]) && Distinct(ids)
      invariant forall u :: u in adjacency ==> adjacency[u] == [] && inDegree[u] == 0
    {
      var id := nodes[i].runId;
      assert nodes[..i + 1] == nodes[..i] + [nodes[i]];
      assert Known(nodes[..i + 1]) == Known(nodes[..i]) + {id};
      adjacency := adjacency[id := []];
      if id !in inDegree {
        assert Elements(ids + [id]) == Elements(ids) + {id};
        ids := ids + [id];
      }
      inDegree := inDegree[id := 0];
      i := i + 1;
    }
    assert nodes[..i] == nodes;
    assert Ids(nodes, []) == Known(nodes);
  }

  method AddEdge(nodes: seq<GraphNode>, ghost edges: seq<GraphEdge>, edge: GraphEdge,
                 adjacency0: map<Text, seq<Text>>, inDegree0: map<Text, int>, ids0: seq<Text>)
    returns (adjacency: map<Text, seq<Text>>, inDegree: map<Text, int>, ids: seq<Text>)
    requires Built(nodes, edges, adjacency0, inDegree0, ids0)
    ensures Built(nodes, edges + [edge], adjacency, inDegree, ids)
  {
    hide Successors, InCount, Known, Ids, Elements, Distinct;
    adjacency, inDegree, ids := adjacency0, inDegree0, ids0;
    AnotherCount(nodes, edges, edge);
    forall u | u in adjacency
      ensures Successors(nodes, edges + [edge], u,
                         if u == edge.from && u in Known(nodes) && edge.to !in adjacency[u] then adjacency[u] + [edge.to] else adjacency[u])
    {
      AnotherSuccessor(nodes, edges, edge, u, adjacency[u]);
    }
    if edge.from in adjacency && edge.to !in adjacency[edge.from] {
      adjacency := adjacency[edge.from := adjacency[edge.from] + [edge.to]];
    }
    AnotherId(ids, edge.to);
    if edge.to !in inDegree { ids := ids + [edge.to]; }
    inDegree := inDegree[edge.to := (if edge.to in inDegree then inDegree[edge.to] else 0) + 1];
  }

  lemma AnotherId(ids: seq<Text>, id: Text)
    ensures Elements(ids + [id]) == Elements(ids) + {id}
    ensures Distinct(ids) && id !in Elements(ids) ==> Distinct(ids + [id])
  {
  }

  method BuildMaps(nodes: seq<GraphNode>, edges: seq<GraphEdge>)
    returns (adjacency: map<Text, seq<Text>>, inDegree: map<Text, int>, ids: seq<Text>)
    ensures Built(nodes, edges, adjacency, inDegree, ids)
  {
    hide Built;
    adjacency, inDegree, ids := AddNodes(nodes);
    var k := 0;
    while k < |edges|
      invariant 0 <= k <= |edges|
      invariant Built(nodes, edges[..k], adjacency, inDegree, ids)
    {
      adjacency, inDegree, ids := AddEdge(nodes, edges[..k], edges[k], adjacency, inDegree, ids);
      assert edges[..k] + [edges[k]] == edges[..k + 1];
      k := k + 1;
    }
    assert edges[..k] == edges;
  }

  lemma {:induction false} NoneIn(edges: seq<GraphEdge>, v: Text)
    requires forall e :: e in edges ==> e.to != v
    ensures InCount(edges, v) == 0
  {
    if edges != [] { NoneIn(edges[..|edges| - 1], v); }
  }

  lemma AnotherCount(nodes: seq<GraphNode>, edges: seq<GraphEdge>, edge: GraphEdge)
    ensures var grown := edges + [edge];
            && (forall v :: InCount(grown, v) == InCount(edges, v) + (if edge.to == v then 1 else 0))
            && Ids(nodes, grown) == Ids(nodes, edges) + {edge.to}
            && (edge.to !in Ids(nodes, edges) ==> InCount(edges, edge.to) == 0)
  {
    var grown := edges + [edge];
    assert grown[..|edges|] == edges;
    if edge.to !in Ids(nodes, edges) { NoneIn(edges, edge.to); }
    assert forall e :: e in grown <==> e in edges || e == edge;
  }

  lemma AnotherSuccessor(nodes: seq<GraphNode>, edges: seq<GraphEdge>, edge: GraphEdge, u: Text, at: seq<Text>)
    requires Successors(nodes, edges, u, at)
    ensures Successors(nodes, edges + [edge], u, if u == edge.from && u in Known(nodes) && edge.to !in at then at + [edge.to] else at)
  {
    assert forall e :: e in edges + [edge] <==> e in edges || e == edge;
  }

  /** One neighbor after another loses an incoming edge; those that have none left join the queue. */
  method ReleaseNeighbors(neighbors: seq<Text>, inDegree: map<Text, int>, queue: seq<Text>)
    returns (released: map<Text, int>, grown: seq<Text>)
    requires Distinct(neighbors) && forall v :: v in neighbors ==> v in inDegree
    ensures released.Keys == inDegree.Keys
    ensures forall v :: v in released ==> released[v] == inDegree[v] - (if v in neighbors then 1 else 0)
    ensures grown == queue + Freed(neighbors, released)
  {
    hide Freed, Distinct;
    released, grown := inDegree, queue;
    FreedNone(inDegree);
    var j := 0;
    while j < |neighbors|
      invariant 0 <= j <= |neighbors|
      invariant released.Keys == inDegree.Keys
      invariant forall v :: v in released ==> released[v] == inDegree[v] - (if v in neighbors[..j] then 1 else 0)
      invariant grown == queue + Freed(neighbors[..j], released)
    {
      var neighbor := neighbors[j];
      var newDegree := released[neighbor] - 1;
      FreedNext(neighbors, j, released, newDegree);
      released := released[neighbor := newDegree];
      if newDegree == 0 { grown := grown + [neighbor]; }
      j := j + 1;
    }
    assert neighbors[..j] == neighbors;
  }

  lemma FreedNone(inDegree: map<Text, int>)
    ensures Freed([], inDegree) == []
  {
  }

  lemma FreedNext(neighbors: seq<Text>, j: nat, inDegree: map<Text, int>, degree: int)
    requires Distinct(neighbors) && j < |neighbors| && neighbors[j] in inDegree
    ensures neighbors[j] !in neighbors[..j] && neighbors[..j + 1] == neighbors[..j] + [neighbors[j]]
    ensures Freed(neighbors[..j + 1], inDegree[neighbors[j] := degree]) ==
      Freed(neighbors[..j], inDegree) + (if degree == 0 then [neighbors[j]] else [])
  {
    FreedUnaffected(neighbors[..j], inDegree, neighbors[j], degree);
    assert neighbors[..j + 1][..j] == neighbors[..j];
  }

  lemma {:induction false} FreedUnaffected(neighbors: seq<Text>, inDegree: map<Text, int>, other: Text, degree: int)
    requires other !in neighbors
    ensures Freed(neighbors, inDegree[other := degree]) == Freed(neighbors, inDegree)
  {
    if neighbors != [] { FreedUnaffected(neighbors[..|neighbors| - 1], inDegree, other, degree); }
  }

  lemma NeighborsAreKeys(nodes: seq<GraphNode>, edges: seq<GraphEdge>, u: Text, neighbors: seq<Text>)
    requires Successors(nodes, edges, u, neighbors) || (u !in Known(nodes) && neighbors == [])
    ensures Successors(nodes, edges, u, neighbors) && Distinct(neighbors)
    ensures forall v :: v in neighbors ==> v in Ids(nodes, edges)
  {
  }

  lemma TakesOneMore(nodes: seq<GraphNode>, edges: seq<GraphEdge>, inDegree: map<Text, int>, done: seq<Text>, u: Text,
                     rest: seq<Text>)
    requires Working(nodes, edges, inDegree, done, [u] + rest)
    ensures |done| < |Ids(nodes, edges)|
  {
    var order := done + ([u] + rest);
    DistinctCount(order);
    SubsetCount(Elements(order), Ids(nodes, edges));
  }
}
