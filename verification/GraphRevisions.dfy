/** The canonical form of a graph, and the checks a new graph goes through. */
module GraphRevisions {
  import opened Wrappers
  import opened SortedText
  import opened GraphPeeling
  import opened GraphAcyclicity

  // ---- canonical lists --------------------------------------------------------------------------------

  datatype HashEdge = HashEdge(from: Text, to: Text)

  predicate PairLessEq(a: HashEdge, b: HashEdge) {
    if a.from == b.from then LessEq(a.to, b.to) else LessEq(a.from, b.from)
  }

  lemma TextOrderIsTotal()
    ensures TotalPreorder(LessEq)
  {
    forall a: Text, b: Text ensures LessEq(a, b) || LessEq(b, a) { LessEqTotal(a, b); }
    forall a: Text, b: Text, c: Text | LessEq(a, b) && LessEq(b, c) ensures LessEq(a, c) { LessEqTransitive(a, b, c); }
  }

  lemma TextOrderSeparates(s: seq<Text>)
    ensures Separates(LessEq, s)
  {
    forall a: Text, b: Text | LessEq(a, b) && LessEq(b, a) ensures a == b { LessEqTotal(a, b); }
  }

  lemma PairsTransitive(a: HashEdge, b: HashEdge, c: HashEdge)
    requires PairLessEq(a, b) && PairLessEq(b, c)
    ensures PairLessEq(a, c)
  {
    if a.from == b.from == c.from {
      LessEqTransitive(a.to, b.to, c.to);
    } else if a.from != b.from && b.from != c.from {
      LessEqTransitive(a.from, b.from, c.from);
      LessEqTotal(a.from, b.from);
    }
  }

  lemma PairOrderIsTotal()
    ensures TotalPreorder(PairLessEq)
  {
    forall a: HashEdge, b: HashEdge ensures PairLessEq(a, b) || PairLessEq(b, a) {
      LessEqTotal(a.from, b.from);
      LessEqTotal(a.to, b.to);
    }
    forall a: HashEdge, b: HashEdge, c: HashEdge | PairLessEq(a, b) && PairLessEq(b, c) ensures PairLessEq(a, c) {
      PairsTransitive(a, b, c);
    }
  }

  lemma PairOrderSeparates(s: seq<HashEdge>)
    ensures Separates(PairLessEq, s)
  {
    forall a: HashEdge, b: HashEdge | PairLessEq(a, b) && PairLessEq(b, a) ensures a == b {
      LessEqTotal(a.from, b.from);
      LessEqTotal(a.to, b.to);
    }
  }

  function Hashes(nodes: seq<GraphNode>): (r: seq<Text>)
    ensures |r| == |nodes| && forall i :: 0 <= i < |nodes| ==> r[i] == nodes[i].hash
  {
    seq(|nodes|, i requires 0 <= i < |nodes| => nodes[i].hash)
  }

  function CanonicalizeNodes(nodes: seq<GraphNode>): seq<Text> {
    Sort(LessEq, Hashes(nodes))
  }

  /** A Map built from the nodes keeps the last one of each run id. */
  function HashOf(nodes: seq<GraphNode>, id: Text): Option<Text> {
    if nodes == [] then None
    else if nodes[|nodes| - 1].runId == id then Some(nodes[|nodes| - 1].hash)
    else HashOf(nodes[..|nodes| - 1], id)
  }

  /** An edge by the hashes of its ends; an unknown end, or an empty hash, is the error of an unknown node. */
  function HashedEdge(nodes: seq<GraphNode>, e: GraphEdge): Option<HashEdge> {
    match (HashOf(nodes, e.from), HashOf(nodes, e.to))
    case (Some(f), Some(t)) => if f == [] || t == [] then None else Some(HashEdge(f, t))
    case _ => None
  }

  function HashedEdges(nodes: seq<GraphNode>, edges: seq<GraphEdge>): (r: Option<seq<HashEdge>>)
    ensures r.Some? ==> |r.value| == |edges| && forall i :: 0 <= i < |edges| ==> HashedEdge(nodes, edges[i]) == Some(r.value[i])
    ensures r.None? ==> exists i :: 0 <= i < |edges| && HashedEdge(nodes, edges[i]).None?
  {
    if edges == [] then Some([])
    else match (HashedEdges(nodes, edges[..|edges| - 1]), HashedEdge(nodes, edges[|edges| - 1]))
      case (Some(before), Some(last)) => Some(before + [last])
      case _ => None
  }

  function CanonicalizeEdges(nodes: seq<GraphNode>, edges: seq<GraphEdge>): Option<seq<HashEdge>> {
    match HashedEdges(nodes, edges)
    case None => None
    case Some(hashed) => Some(Sort(PairLessEq, hashed))
  }

  // ---- the canonical lists forget presentation ------------------------------------------------------------

  lemma {:induction false} HashOfMeans(nodes: seq<GraphNode>, n: GraphNode)
    requires DistinctIds(nodes) && n in nodes
    ensures HashOf(nodes, n.runId) == Some(n.hash)
  {
    var last := nodes[|nodes| - 1];
    if last != n {
      assert nodes == nodes[..|nodes| - 1] + [last];
      assert n in nodes[..|nodes| - 1];
      HashOfMeans(nodes[..|nodes| - 1], n);
    }
  }

  lemma {:induction false} HashOfUnknown(nodes: seq<GraphNode>, id: Text)
    ensures HashOf(nodes, id).Some? <==> id in Known(nodes)
  {
    if nodes != [] {
      HashOfUnknown(nodes[..|nodes| - 1], id);
      assert nodes == nodes[..|nodes| - 1] + [nodes[|nodes| - 1]];
    }
  }

  lemma SameNodesSameHashes(nodes: seq<GraphNode>, others: seq<GraphNode>, id: Text)
    requires DistinctIds(nodes) && DistinctIds(others) && multiset(nodes) == multiset(others)
    ensures HashOf(nodes, id) == HashOf(others, id)
  {
    HashOfUnknown(nodes, id);
    HashOfUnknown(others, id);
    assert forall n :: n in nodes <==> n in multiset(nodes);
    assert forall n :: n in others <==> n in multiset(others);
    if n :| n in nodes && n.runId == id {
      HashOfMeans(nodes, n);
      HashOfMeans(others, n);
    }
  }

  lemma HashedEdgesExist(nodes: seq<GraphNode>, edges: seq<GraphEdge>)
    ensures HashedEdges(nodes, edges).Some? <==> forall e :: e in edges ==> HashedEdge(nodes, e).Some?
  {
  }

  /** Listing the nodes or the edges in another order gives the same canonical lists. */
  lemma CanonicalForgetsOrder(nodes: seq<GraphNode>, edges: seq<GraphEdge>, otherNodes: seq<GraphNode>,
                              otherEdges: seq<GraphEdge>)
    requires DistinctIds(nodes) && DistinctIds(otherNodes)
    requires multiset(nodes) == multiset(otherNodes) && multiset(edges) == multiset(otherEdges)
    ensures CanonicalizeNodes(nodes) == CanonicalizeNodes(otherNodes)
    ensures CanonicalizeEdges(nodes, edges) == CanonicalizeEdges(otherNodes, otherEdges)
  {
    hide HashOf, HashedEdges, DistinctIds, HashedEdge;
    PermutedImages(nodes, otherNodes, Hashes(nodes), Hashes(otherNodes));
    TextOrderIsTotal();
    TextOrderSeparates(Hashes(nodes));
    SortForgetsOrder(LessEq, Hashes(nodes), Hashes(otherNodes));
    EdgesForgetOrder(nodes, edges, otherNodes, otherEdges);
  }

  lemma EdgesForgetOrder(nodes: seq<GraphNode>, edges: seq<GraphEdge>, otherNodes: seq<GraphNode>, otherEdges: seq<GraphEdge>)
    requires DistinctIds(nodes) && DistinctIds(otherNodes)
    requires multiset(nodes) == multiset(otherNodes) && multiset(edges) == multiset(otherEdges)
    ensures CanonicalizeEdges(nodes, edges) == CanonicalizeEdges(otherNodes, otherEdges)
  {
    hide HashOf, HashedEdges, DistinctIds, LessEq, Sort;
    forall e: GraphEdge
      ensures HashedEdge(nodes, e) == HashedEdge(otherNodes, e)
    {
      SameNodesSameHashes(nodes, otherNodes, e.from);
      SameNodesSameHashes(nodes, otherNodes, e.to);
    }
    hide HashedEdge;
    HashedEdgesExist(nodes, edges);
    HashedEdgesExist(otherNodes, otherEdges);
    assert forall e :: e in edges <==> e in multiset(edges);
    assert forall e :: e in otherEdges <==> e in multiset(otherEdges);
    if HashedEdges(nodes, edges).Some? && HashedEdges(otherNodes, otherEdges).Some? {
      var a, b := HashedEdges(nodes, edges).value, HashedEdges(otherNodes, otherEdges).value;
      PermutedImages(edges, otherEdges, a, b);
      PairOrderIsTotal();
      PairOrderSeparates(a);
      SortForgetsOrder(PairLessEq, a, b);
    }
  }

  // ---- renaming the runs ----------------------------------------------------------------------------------

  /** The same graph under other run ids: nodes and edges correspond one by one through an injective renaming. */
  ghost predicate Renamed(nodes: seq<GraphNode>, edges: seq<GraphEdge>, otherNodes: seq<GraphNode>,
                          otherEdges: seq<GraphEdge>, f: Text -> Text) {
    && (forall a, b :: f(a) == f(b) ==> a == b)
    && |otherNodes| == |nodes| && |otherEdges| == |edges|
    && (forall i :: 0 <= i < |nodes| ==> otherNodes[i] == GraphNode(f(nodes[i].runId), nodes[i].hash))
    && (forall i :: 0 <= i < |edges| ==> otherEdges[i] == GraphEdge(f(edges[i].from), f(edges[i].to)))
  }

  lemma {:induction false} RenamedHash(nodes: seq<GraphNode>, otherNodes: seq<GraphNode>, f: Text -> Text, id: Text)
    requires forall a, b :: f(a) == f(b) ==> a == b
    requires |otherNodes| == |nodes| && forall i :: 0 <= i < |nodes| ==> otherNodes[i] == GraphNode(f(nodes[i].runId), nodes[i].hash)
    ensures HashOf(otherNodes, f(id)) == HashOf(nodes, id)
  {
    if nodes != [] {
      var k := |nodes| - 1;
      assert otherNodes[k] == GraphNode(f(nodes[k].runId), nodes[k].hash);
      RenamedHash(nodes[..k], otherNodes[..k], f, id);
    }
  }

  lemma {:induction false} RenamedEdges(nodes: seq<GraphNode>, edges: seq<GraphEdge>, otherNodes: seq<GraphNode>,
                                        otherEdges: seq<GraphEdge>, f: Text -> Text)
    requires Renamed(nodes, edges, otherNodes, otherEdges, f)
    ensures HashedEdges(otherNodes, otherEdges) == HashedEdges(nodes, edges)
  {
    hide HashOf;
    if edges != [] {
      var k := |edges| - 1;
      RenamedHash(nodes, otherNodes, f, edges[k].from);
      RenamedHash(nodes, otherNodes, f, edges[k].to);
      assert otherEdges[k] == GraphEdge(f(edges[k].from), f(edges[k].to));
      RenamedEdges(nodes, edges[..k], otherNodes, otherEdges[..k], f);
    }
  }

  /** Renaming the runs consistently gives the same canonical lists. */
  lemma CanonicalForgetsRunIds(nodes: seq<GraphNode>, edges: seq<GraphEdge>, otherNodes: seq<GraphNode>,
                               otherEdges: seq<GraphEdge>, f: Text -> Text)
    requires Renamed(nodes, edges, otherNodes, otherEdges, f)
    ensures CanonicalizeNodes(otherNodes) == CanonicalizeNodes(nodes)
    ensures CanonicalizeEdges(otherNodes, otherEdges) == CanonicalizeEdges(nodes, edges)
  {
    hide HashedEdges, Sort;
    RenamedEdges(nodes, edges, otherNodes, otherEdges, f);
    assert Hashes(otherNodes) == Hashes(nodes);
  }

  // ---- creating a graph -------------------------------------------------------------------------------------

  datatype GraphError = GraphContainsCycles | EdgeReferencesUnknownNode

  datatype Canonical = Canonical(nodes: seq<Text>, edges: seq<HashEdge>)

  lemma HashedMeansKnown(nodes: seq<GraphNode>, edges: seq<GraphEdge>)
    requires forall n :: n in nodes ==> n.hash != []
    ensures HashedEdges(nodes, edges).Some? <==> KnownEndpoints(nodes, edges)
  {
    hide HashedEdges, Known;
    HashedEdgesExist(nodes, edges);
    forall e: GraphEdge
      ensures HashedEdge(nodes, e).Some? <==> e.from in Known(nodes) && e.to in Known(nodes)
    {
      HashOfUnknown(nodes, e.from);
      HashOfUnknown(nodes, e.to);
      SomeHash(nodes, e.from);
      SomeHash(nodes, e.to);
    }
  }

  lemma {:induction false} SomeHash(nodes: seq<GraphNode>, id: Text)
    requires forall n :: n in nodes ==> n.hash != []
    ensures HashOf(nodes, id).Some? ==> HashOf(nodes, id).value != []
  {
    if nodes != [] { SomeHash(nodes[..|nodes| - 1], id); }
  }

  /** The two checks a new graph goes through before it is stored: together they accept exactly the acyclic graphs with distinct nodes,
    * distinct edges and known endpoints, whatever lists are given. */
  method CreateExecutionGraph(nodes: seq<GraphNode>, edges: seq<GraphEdge>) returns (r: Result<Canonical, GraphError>)
    requires forall n :: n in nodes ==> n.hash != []
    ensures r.Ok? <==> DistinctIds(nodes) && KnownEndpoints(nodes, edges) && NoRepeatedEdge(edges) && Acyclic(edges)
    ensures r.Ok? ==> Some(r.value.edges) == CanonicalizeEdges(nodes, edges) && r.value.nodes == CanonicalizeNodes(nodes)
  {
    hide DistinctIds, KnownEndpoints, NoRepeatedEdge, Acyclic, HashedEdges, Sort, Peeled;
    var acyclic := ValidateGraphAcyclic(nodes, edges);
    HashedMeansKnown(nodes, edges);
    if !acyclic { return Err(GraphContainsCycles); }
    var canonical := CanonicalizeEdges(nodes, edges);
    if canonical.None? { return Err(EdgeReferencesUnknownNode); }
    r := Ok(Canonical(CanonicalizeNodes(nodes), canonical.value));
  }
}
