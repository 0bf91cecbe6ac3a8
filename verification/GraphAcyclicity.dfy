/** The acyclicity check and which graphs it accepts: the order it takes is topological, and what it leaves behind holds a cycle. */
module GraphAcyclicity {
  import opened SortedText
  import opened GraphPeeling

  ghost predicate NoRepeatedEdge(edges: seq<GraphEdge>) {
    Distinct(edges)
  }

  // ---- accepted: the order is topological -------------------------------------------------------------

  function Position(order: seq<Text>, v: Text): (i: nat)
    requires v in order
    ensures i < |order| && order[i] == v
  {
    if order[0] == v then 0 else 1 + Position(order[1..], v)
  }

  lemma EdgeGoesForward(known: set<Text>, edges: seq<GraphEdge>, order: seq<Text>, e: GraphEdge)
    requires Peels(known, edges, order) && e in edges && e.to in order
    ensures e.from in order && Position(order, e.from) < Position(order, e.to)
  {
    var i := Position(order, e.to);
    assert Ready(known, edges, Elements(order[..i]), order[i]);
    assert e.from in known by {
      var k :| 0 <= k < |edges| && edges[k] == e;
    }
    assert e.from in Preds(known, edges, e.to);
    var j :| 0 <= j < i && order[..i][j] == e.from;
    assert order[j] == e.from;
  }

  lemma {:induction false} WalkGoesForward(known: set<Text>, edges: seq<GraphEdge>, order: seq<Text>, p: seq<Text>)
    requires Peels(known, edges, order) && |p| >= 2 && Walk(edges, p) && p[|p| - 1] in order
    ensures p[0] in order && Position(order, p[0]) < Position(order, p[|p| - 1])
  {
    hide Peels, Position;
    var k := |p| - 2;
    assert GraphEdge(p[k], p[k + 1]) in edges;
    EdgeGoesForward(known, edges, order, GraphEdge(p[k], p[k + 1]));
    if k > 0 {
      assert Walk(edges, p[..k + 1]);
      WalkGoesForward(known, edges, order, p[..k + 1]);
    }
  }

  lemma CoveredIsAcyclic(nodes: seq<GraphNode>, edges: seq<GraphEdge>, order: seq<Text>)
    requires Peels(Known(nodes), edges, order) && forall e :: e in edges ==> e.to in order
    ensures Acyclic(edges) && NoRepeatedEdge(edges)
  {
    forall p
      ensures !Cycle(edges, p)
    {
      if Cycle(edges, p) {
        assert GraphEdge(p[|p| - 2], p[|p| - 2 + 1]) in edges;
        WalkGoesForward(Known(nodes), edges, order, p);
      }
    }
    forall i, j | 0 <= i < j < |edges|
      ensures edges[i] != edges[j]
    {
      var k := Position(order, edges[i].to);
      assert Ready(Known(nodes), edges, Elements(order[..k]), order[k]);
    }
  }

  // ---- rejected: what is left holds a cycle --------------------------------------------------------------

  /** Walking backwards through nodes that were never ready. */
  ghost predicate StuckWalk(edges: seq<GraphEdge>, ids: set<Text>, order: seq<Text>, p: seq<Text>) {
    p != [] && Walk(edges, p) && forall i :: 0 <= i < |p| ==> p[i] in ids && p[i] !in order
  }

  lemma StuckHasStuckPredecessor(nodes: seq<GraphNode>, edges: seq<GraphEdge>, order: seq<Text>, v: Text) returns (u: Text)
    requires Peeled(nodes, edges, order) && KnownEndpoints(nodes, edges) && NoRepeatedEdge(edges)
    requires v in Ids(nodes, edges) && v !in order
    ensures GraphEdge(u, v) in edges && u in Ids(nodes, edges) && u !in order
  {
    assert Clean(Known(nodes), edges, v);
    assert !(Preds(Known(nodes), edges, v) <= Elements(order));
    u :| u in Preds(Known(nodes), edges, v) && u !in Elements(order);
  }

  lemma {:induction false} StuckWalkOfLength(nodes: seq<GraphNode>, edges: seq<GraphEdge>, order: seq<Text>, v: Text,
                                             n: nat) returns (p: seq<Text>)
    requires Peeled(nodes, edges, order) && KnownEndpoints(nodes, edges) && NoRepeatedEdge(edges)
    requires v in Ids(nodes, edges) && v !in order
    ensures StuckWalk(edges, Ids(nodes, edges), order, p) && |p| == n + 1
  {
    hide Peeled, KnownEndpoints, NoRepeatedEdge, Ids;
    if n == 0 {
      p := [v];
    } else {
      var q := StuckWalkOfLength(nodes, edges, order, v, n - 1);
      var u := StuckHasStuckPredecessor(nodes, edges, order, q[0]);
      p := [u] + q;
      forall i | 0 <= i < |p| - 1
        ensures GraphEdge(p[i], p[i + 1]) in edges
      {
        if i > 0 { assert GraphEdge(q[i - 1], q[i]) in edges; }
      }
    }
  }

  /** A list longer than the set it draws from repeats itself. */
  lemma Pigeonhole(s: seq<Text>, pool: set<Text>) returns (i: nat, j: nat)
    requires (forall k :: 0 <= k < |s| ==> s[k] in pool) && |s| > |pool|
    ensures i < j < |s| && s[i] == s[j]
  {
    if Distinct(s) {
      DistinctCount(s);
      SubsetCount(Elements(s), pool);
    }
    i, j :| 0 <= i < j < |s| && s[i] == s[j];
  }

  lemma StuckHasCycle(nodes: seq<GraphNode>, edges: seq<GraphEdge>, order: seq<Text>, v: Text) returns (p: seq<Text>)
    requires Peeled(nodes, edges, order) && KnownEndpoints(nodes, edges) && NoRepeatedEdge(edges)
    requires v in Ids(nodes, edges) && v !in order
    ensures Cycle(edges, p) && forall i :: 0 <= i < |p| ==> p[i] !in order
  {
    hide Peeled, KnownEndpoints, NoRepeatedEdge, Ids;
    var q := StuckWalkOfLength(nodes, edges, order, v, |Ids(nodes, edges)|);
    var i, j := Pigeonhole(q, Ids(nodes, edges));
    p := q[i..j + 1];
    forall k | 0 <= k < |p| - 1
      ensures GraphEdge(p[k], p[k + 1]) in edges
    {
      assert GraphEdge(q[i + k], q[i + k + 1]) in edges;
    }
  }

  // ---- the exact condition ---------------------------------------------------------------------------------

  lemma DistinctStep(s: seq<Text>)
    requires s != []
    ensures Distinct(s) <==> Distinct(s[1..]) && s[0] !in s[1..]
  {
    if Distinct(s[1..]) && s[0] !in s[1..] {
      forall i, j | 0 <= i < j < |s|
        ensures s[i] != s[j]
      {
        assert s[j] == s[1..][j - 1];
      }
    }
  }

  lemma {:induction false} ElementsCount(s: seq<Text>)
    ensures |Elements(s)| <= |s| && (|Elements(s)| == |s| <==> Distinct(s))
  {
    if s != [] {
      ElementsCount(s[1..]);
      DistinctStep(s);
      assert Elements(s) == {s[0]} + Elements(s[1..]);
    }
  }

  lemma KnownCount(nodes: seq<GraphNode>)
    ensures |Known(nodes)| <= |nodes| && (|Known(nodes)| == |nodes| <==> DistinctIds(nodes))
  {
    var ids := seq(|nodes|, i requires 0 <= i < |nodes| => nodes[i].runId);
    assert Known(nodes) == Elements(ids) by {
      assert forall i :: 0 <= i < |nodes| ==> ids[i] == nodes[i].runId;
      forall v | v in Known(nodes)
        ensures v in ids
      {
        var k :| 0 <= k < |nodes| && nodes[k].runId == v;
        assert ids[k] == v;
      }
    }
    ElementsCount(ids);
    if !DistinctIds(nodes) {
      var i, j :| 0 <= i < j < |nodes| && nodes[i].runId == nodes[j].runId;
      assert ids[i] == ids[j];
    }
  }

  /** With both endpoints of every edge among the nodes, the check accepts exactly the lists with distinct node ids, distinct
    * edges and no cycle; the order it takes is then a topological order of all of them. */
  lemma AcceptedExactlyWhenAcyclic(nodes: seq<GraphNode>, edges: seq<GraphEdge>, order: seq<Text>)
    requires Peeled(nodes, edges, order) && KnownEndpoints(nodes, edges)
    ensures |order| == |nodes| <==> DistinctIds(nodes) && NoRepeatedEdge(edges) && Acyclic(edges)
    ensures |order| == |nodes| ==> Elements(order) == Known(nodes) && forall e :: e in edges ==>
      e.from in order && e.to in order && Position(order, e.from) < Position(order, e.to)
  {
    hide Acyclic, Peeled, KnownEndpoints, NoRepeatedEdge, DistinctIds, Position, Known, Ids;
    KnownCount(nodes);
    PeeledFacts(nodes, edges, order);
    if |order| == |nodes| {
      CoveredFacts(nodes, edges, order);
    } else if DistinctIds(nodes) && NoRepeatedEdge(edges) {
      assert Elements(order) != Known(nodes);
      var v :| v in Known(nodes) && v !in Elements(order);
      var p := StuckHasCycle(nodes, edges, order, v);
      HasCycle(edges, p);
    }
  }

  lemma PeeledFacts(nodes: seq<GraphNode>, edges: seq<GraphEdge>, order: seq<Text>)
    requires Peeled(nodes, edges, order) && KnownEndpoints(nodes, edges)
    ensures Ids(nodes, edges) == Known(nodes)
    ensures |order| == |Elements(order)| <= |Known(nodes)| && Elements(order) <= Known(nodes)
    ensures |order| == |Known(nodes)| ==> Elements(order) == Known(nodes)
  {
    hide Ready;
    assert Ids(nodes, edges) == Known(nodes);
    DistinctCount(order);
    SubsetCount(Elements(order), Known(nodes));
  }

  lemma CoveredFacts(nodes: seq<GraphNode>, edges: seq<GraphEdge>, order: seq<Text>)
    requires Peeled(nodes, edges, order) && KnownEndpoints(nodes, edges) && Elements(order) == Known(nodes)
    ensures NoRepeatedEdge(edges) && Acyclic(edges)
    ensures forall e :: e in edges ==>
      e.from in order && e.to in order && Position(order, e.from) < Position(order, e.to)
  {
    hide Acyclic, Position, Peels, Known;
    assert forall e :: e in edges ==> e.to in Elements(order);
    CoveredIsAcyclic(nodes, edges, order);
    forall e | e in edges
      ensures e.from in order && e.to in order && Position(order, e.from) < Position(order, e.to)
    {
      EdgeGoesForward(Known(nodes), edges, order, e);
    }
  }

  lemma HasCycle(edges: seq<GraphEdge>, p: seq<Text>)
    requires Cycle(edges, p)
    ensures !Acyclic(edges)
  {
  }

  // ---- what can be taken does not depend on the order ----------------------------------------------------------

  lemma {:induction false} TakenInEveryOrder(nodes: seq<GraphNode>, edges: seq<GraphEdge>, a: seq<Text>, b: seq<Text>, n: nat)
    requires Peeled(nodes, edges, a) && Peeled(nodes, edges, b) && n <= |a|
    ensures Elements(a[..n]) <= Elements(b)
  {
    hide Clean, Preds, Known, Ids;
    if n > 0 {
      TakenInEveryOrder(nodes, edges, a, b, n - 1);
      assert a[n - 1] in Elements(a);
      assert Ready(Known(nodes), edges, Elements(a[..n - 1]), a[n - 1]);
      assert Ready(Known(nodes), edges, Elements(b), a[n - 1]);
      assert forall x :: x in a[..n] ==> x in a[..n - 1] || x == a[n - 1];
    }
  }

  /** Whichever ready node is taken first each time, in the end the same ids have been taken. */
  lemma EveryOrderTakesTheSame(nodes: seq<GraphNode>, edges: seq<GraphEdge>, a: seq<Text>, b: seq<Text>)
    requires Peeled(nodes, edges, a) && Peeled(nodes, edges, b)
    ensures Elements(a) == Elements(b) && |a| == |b|
  {
    TakenInEveryOrder(nodes, edges, a, b, |a|);
    TakenInEveryOrder(nodes, edges, b, a, |b|);
    assert a[..|a|] == a && b[..|b|] == b;
    assert Distinct(a) && Distinct(b);
    hide Peeled;
    DistinctCount(a);
    DistinctCount(b);
  }

  // ---- the check ---------------------------------------------------------------------------------------------

  /** With both endpoints of every edge among the nodes, it accepts exactly distinct nodes, distinct edges and no cycle. For lists of
    * any form, it compares the number of nodes given with the number of ids that can be taken one after another. */
  method ValidateGraphAcyclic(nodes: seq<GraphNode>, edges: seq<GraphEdge>) returns (r: bool)
    ensures KnownEndpoints(nodes, edges) ==> (r <==> DistinctIds(nodes) && NoRepeatedEdge(edges) && Acyclic(edges))
    ensures exists order :: Peeled(nodes, edges, order)
    ensures forall order :: Peeled(nodes, edges, order) ==> r == (|order| == |nodes|)
  {
    hide Working, Successors, Peeled, Ids, InCount, Known, Acyclic, KnownEndpoints, NoRepeatedEdge, DistinctIds;
    var adjacency, inDegree, ids := BuildMaps(nodes, edges);
    var queue: seq<Text> := [];
    var i := 0;
    while i < |ids|
      invariant 0 <= i <= |ids| && Distinct(queue)
      invariant forall v :: v in queue <==> v in ids[..i] && v in inDegree && inDegree[v] == 0
    {
      if ids[i] in inDegree && inDegree[ids[i]] == 0 { queue := queue + [ids[i]]; }
      i := i + 1;
    }
    assert ids[..i] == ids;
    StartsWorking(nodes, edges, inDegree, queue);
    var processed := 0;
    ghost var order: seq<Text> := [];
    while |queue| > 0
      invariant Working(nodes, edges, inDegree, order, queue) && processed == |order|
      invariant inDegree.Keys == Ids(nodes, edges)
      decreases |Ids(nodes, edges)| - |order|
    {
      var current, rest := queue[0], queue[1..];
      assert queue == [current] + rest;
      processed := processed + 1;
      var neighbors := if current in adjacency then adjacency[current] else [];
      NeighborsAreKeys(nodes, edges, current, neighbors);
      TakesOneMore(nodes, edges, inDegree, order, current, rest);
      var released, grown := ReleaseNeighbors(neighbors, inDegree, rest);
      TakeKeepsWorking(nodes, edges, inDegree, order, current, rest, neighbors, released);
      order := order + [current];
      inDegree, queue := released, grown;
    }
    EndsPeeled(nodes, edges, inDegree, order);
    if KnownEndpoints(nodes, edges) { AcceptedExactlyWhenAcyclic(nodes, edges, order); }
    forall other | Peeled(nodes, edges, other)
      ensures |other| == |order|
    {
      EveryOrderTakesTheSame(nodes, edges, other, order);
    }
    r := processed == |nodes|;
  }

  // ---- where it differs from acyclicity ------------------------------------------------------------------------

  const TWO_NODES := [GraphNode([97], [1]), GraphNode([98], [2])]
  const DOUBLED := [GraphEdge([97], [98]), GraphEdge([97], [98])]
  const STRAY := [GraphEdge([97], [120]), GraphEdge([98], [98])]

  /** An edge given twice is refused although the graph has no cycle. */
  method RefuseRepeatedEdge() returns (r: bool)
    ensures KnownEndpoints(TWO_NODES, DOUBLED) && DistinctIds(TWO_NODES) && Acyclic(DOUBLED)
    ensures !r
  {
    RepeatedEdgeHasNoCycle();
    hide KnownEndpoints, NoRepeatedEdge, DistinctIds, Acyclic, Peeled;
    r := ValidateGraphAcyclic(TWO_NODES, DOUBLED);
  }

  lemma RepeatedEdgeHasNoCycle()
    ensures KnownEndpoints(TWO_NODES, DOUBLED) && DistinctIds(TWO_NODES) && Acyclic(DOUBLED) && !NoRepeatedEdge(DOUBLED)
  {
    assert DOUBLED[0] == DOUBLED[1];
    forall p
      ensures !Cycle(DOUBLED, p)
    {
      if Cycle(DOUBLED, p) { OneEdgeEnds(DOUBLED, DOUBLED[0], p); }
    }
  }

  lemma OneEdgeEnds(edges: seq<GraphEdge>, e: GraphEdge, p: seq<Text>)
    requires Walk(edges, p) && |p| >= 2 && forall f :: f in edges ==> f == e
    ensures p[0] == e.from && p[|p| - 1] == e.to
  {
    assert GraphEdge(p[0], p[0 + 1]) in edges;
    assert GraphEdge(p[|p| - 2], p[|p| - 2 + 1]) in edges;
  }

  /** With an endpoint that is no node, the counts can agree by accident: a cycle at one node is made up for by the stray id. */
  method AcceptUnknownEndpoint() returns (r: bool)
    ensures DistinctIds(TWO_NODES) && NoRepeatedEdge(STRAY) && !Acyclic(STRAY)
    ensures r
  {
    StrayIsPeeled();
    hide KnownEndpoints, NoRepeatedEdge, DistinctIds, Acyclic, Peeled;
    r := ValidateGraphAcyclic(TWO_NODES, STRAY);
  }

  lemma StrayIds()
    ensures Known(TWO_NODES) == {[97], [98]} && Ids(TWO_NODES, STRAY) == {[97], [98], [120]}
  {
    assert TWO_NODES[0].runId == [97] && TWO_NODES[1].runId == [98];
    assert Known(TWO_NODES) == {[97], [98]};
    hide Known;
    assert STRAY[0].to == [120];
  }

  lemma StrayIsPeeled()
    ensures DistinctIds(TWO_NODES) && NoRepeatedEdge(STRAY) && !Acyclic(STRAY)
    ensures Peeled(TWO_NODES, STRAY, [[97], [120]]) && |[[97], [120]]| == |TWO_NODES|
  {
    var order: seq<Text> := [[97], [120]];
    SelfLoopIsCycle(STRAY, [98]);
    StrayIds();
    assert order[..0] == [] && order[..1] == [[97]];
    hide Known, Ids, Acyclic;
    assert Ready({[97], [98]}, STRAY, Elements(order[..0]), [97]);
    assert Ready({[97], [98]}, STRAY, Elements(order[..1]), [120]) by { assert order[..1][0] == [97]; }
    assert !Ready({[97], [98]}, STRAY, Elements(order), [98]) by { assert [98] in Preds({[97], [98]}, STRAY, [98]); }
    hide Ready;
  }

  lemma SelfLoopIsCycle(edges: seq<GraphEdge>, v: Text)
    requires |edges| == 2 && edges[1] == GraphEdge(v, v)
    ensures !Acyclic(edges)
  {
    assert edges[1] in edges;
    assert Cycle(edges, [v, v]);
  }
}
