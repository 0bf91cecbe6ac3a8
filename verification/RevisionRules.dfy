/** What stands in the canonical lists and in a diff, and in which order, on the code units of the hashes. */
module RevisionRules {
  import opened Wrappers
  import opened SortedText
  import opened KeyOrder
  import opened GraphPeeling
  import opened GraphAcyclicity
  import opened GraphRevisions
  import opened GraphRevisionDiff

  ghost predicate Ascending(list: seq<Text>) {
    forall i, j :: 0 <= i < j < |list| ==> list[i] == list[j] || Precedes(list[i], list[j])
  }

  /** Pairs ascend by their first hash, and those that share it by their second. */
  ghost predicate PairsAscend(list: seq<HashEdge>) {
    forall i, j :: 0 <= i < j < |list| ==>
      || list[i] == list[j]
      || Precedes(list[i].from, list[j].from)
      || (list[i].from == list[j].from && Precedes(list[i].to, list[j].to))
  }

  lemma SortedTextsAscend(s: seq<Text>)
    ensures Ascending(Sort(LessEq, s)) && multiset(Sort(LessEq, s)) == multiset(s)
  {
    hide Precedes, LessEq;
    TextOrderIsTotal();
    SortSorts(LessEq, s);
    var list := Sort(LessEq, s);
    forall i, j | 0 <= i < j < |list|
      ensures list[i] == list[j] || Precedes(list[i], list[j])
    {
      LessEqExactlyWhen(list[i], list[j]);
    }
  }

  lemma SortedPairsAscend(s: seq<HashEdge>)
    ensures PairsAscend(Sort(PairLessEq, s)) && multiset(Sort(PairLessEq, s)) == multiset(s)
  {
    hide Precedes, LessEq;
    PairOrderIsTotal();
    SortSorts(PairLessEq, s);
    var list := Sort(PairLessEq, s);
    forall i, j | 0 <= i < j < |list|
      ensures || list[i] == list[j]
              || Precedes(list[i].from, list[j].from)
              || (list[i].from == list[j].from && Precedes(list[i].to, list[j].to))
    {
      assert PairLessEq(list[i], list[j]);
      LessEqExactlyWhen(list[i].from, list[j].from);
      LessEqExactlyWhen(list[i].to, list[j].to);
    }
  }

  /** The canonical nodes are the hashes of all nodes in ascending order, each as often as it occurs. */
  lemma CanonicalNodesAscend(nodes: seq<GraphNode>)
    ensures var list := CanonicalizeNodes(nodes);
            Ascending(list) && multiset(list) == multiset(Hashes(nodes))
  {
    SortedTextsAscend(Hashes(nodes));
  }

  /** The canonical edges are, one for one and in ascending order, the edges by the hashes of the nodes at their ends. */
  lemma CanonicalEdgesAscend(nodes: seq<GraphNode>, edges: seq<GraphEdge>) returns (hashed: seq<HashEdge>)
    requires DistinctIds(nodes) && CanonicalizeEdges(nodes, edges).Some?
    ensures var list := CanonicalizeEdges(nodes, edges).value;
            PairsAscend(list) && multiset(list) == multiset(hashed)
    ensures |hashed| == |edges|
    ensures forall i, n, m :: 0 <= i < |edges| && n in nodes && m in nodes && edges[i].from == n.runId && edges[i].to == m.runId ==>
              hashed[i] == HashEdge(n.hash, m.hash)
  {
    hide PairsAscend, DistinctIds, HashOf;
    hashed := HashedEdges(nodes, edges).value;
    SortedPairsAscend(hashed);
    hide Sort;
    forall i, n, m | 0 <= i < |edges| && n in nodes && m in nodes && edges[i].from == n.runId && edges[i].to == m.runId
      ensures hashed[i] == HashEdge(n.hash, m.hash)
    {
      HashOfMeans(nodes, n);
      HashOfMeans(nodes, m);
      assert HashedEdge(nodes, edges[i]) == Some(hashed[i]);
    }
  }

  /** The four lists of a diff ascend. */
  lemma DiffsAscend(nodes: seq<GraphNode>, others: seq<GraphNode>, keys: seq<Text>, otherKeys: seq<Text>)
    ensures Ascending(NodeDiff(nodes, others)) && PairsAscend(EdgeDiff(keys, otherKeys))
  {
    SortedTextsAscend(Missing(Hashes(nodes), Hashes(others)));
    SortedPairsAscend(SplitKeys(Missing(Unique(keys), Unique(otherKeys))));
    hide Sort, Ascending, PairsAscend;
  }

  /** An edge is known by the hashes of the nodes at its ends; an end that is no node, or a node without a hash, is an error. */
  lemma HashedExactlyWhen(nodes: seq<GraphNode>, e: GraphEdge)
    requires DistinctIds(nodes)
    ensures HashedEdge(nodes, e).Some? <==>
              && (exists n :: n in nodes && n.runId == e.from && n.hash != [])
              && (exists m :: m in nodes && m.runId == e.to && m.hash != [])
    ensures forall n, m :: HashedEdge(nodes, e).Some? && n in nodes && m in nodes && n.runId == e.from && m.runId == e.to ==>
              HashedEdge(nodes, e) == Some(HashEdge(n.hash, m.hash))
  {
    hide DistinctIds, HashOf;
    HashOfUnknown(nodes, e.from);
    HashOfUnknown(nodes, e.to);
    forall n | n in nodes && (n.runId == e.from || n.runId == e.to)
      ensures HashOf(nodes, n.runId) == Some(n.hash)
    {
      HashOfMeans(nodes, n);
    }
  }

  /** Of two nodes with one run id the canonical edges take the last and a diff takes the first, and a diff shows an unknown end as
    * `undefined`. */
  lemma RepeatedIdsReadDifferently(id: Text, other: Text, first: Text, second: Text)
    requires id != other
    ensures var nodes := [GraphNode(id, first), GraphNode(id, second)];
            && HashOf(nodes, id) == Some(second) && FindHash(nodes, id) == Some(first)
            && EdgeKey(nodes, GraphEdge(id, other)) == first + [58] + [117, 110, 100, 101, 102, 105, 110, 101, 100]
  {
    var nodes := [GraphNode(id, first), GraphNode(id, second)];
    assert nodes[1..] == [GraphNode(id, second)] && nodes[1..][1..] == [];
    assert FindHash(nodes[1..], other) == None;
  }
}
