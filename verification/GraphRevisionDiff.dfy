/** The diff between two revisions of a graph, and how it agrees with the canonical form the identity hash is made from. */
module GraphRevisionDiff {
  import opened Wrappers
  import opened SortedText
  import opened GraphPeeling
  import opened GraphRevisions

  /** What a template string shows for an unknown hash. */
  const UNDEFINED: Text := [117, 110, 100, 101, 102, 105, 110, 101, 100]

  /** Array.find keeps the first node of a run id. */
  function FindHash(nodes: seq<GraphNode>, id: Text): Option<Text> {
    if nodes == [] then None
    else if nodes[0].runId == id then Some(nodes[0].hash)
    else FindHash(nodes[1..], id)
  }

  function Shown(hash: Option<Text>): Text {
    match hash case None => UNDEFINED case Some(h) => h
  }

  function EdgeKey(nodes: seq<GraphNode>, e: GraphEdge): Text {
    Shown(FindHash(nodes, e.from)) + [COLON] + Shown(FindHash(nodes, e.to))
  }

  function EdgeKeys(nodes: seq<GraphNode>, edges: seq<GraphEdge>): (r: seq<Text>)
    ensures |r| == |edges| && forall i :: 0 <= i < |edges| ==> r[i] == EdgeKey(nodes, edges[i])
  {
    seq(|edges|, i requires 0 <= i < |edges| => EdgeKey(nodes, edges[i]))
  }

  function UpToColon(s: Text): (n: nat)
    ensures n <= |s|
  {
    if s == [] || s[0] == COLON then 0 else 1 + UpToColon(s[1..])
  }

  /** The first two parts of a key split at its colons. */
  function SplitKey(key: Text): HashEdge {
    var n := UpToColon(key);
    var rest := if n < |key| then key[n + 1..] else [];
    HashEdge(key[..n], rest[..UpToColon(rest)])
  }

  /** The elements of one list that the other does not have. */
  function Missing<T(==)>(s: seq<T>, other: seq<T>): seq<T> {
    if s == [] then [] else Missing(s[..|s| - 1], other) + (if s[|s| - 1] in other then [] else [s[|s| - 1]])
  }

  function SplitKeys(keys: seq<Text>): (r: seq<HashEdge>)
    ensures |r| == |keys| && forall i :: 0 <= i < |keys| ==> r[i] == SplitKey(keys[i])
  {
    seq(|keys|, i requires 0 <= i < |keys| => SplitKey(keys[i]))
  }

  function NodeDiff(nodes: seq<GraphNode>, others: seq<GraphNode>): seq<Text> {
    Sort(LessEq, Missing(Hashes(nodes), Hashes(others)))
  }

  function EdgeDiff(keys: seq<Text>, others: seq<Text>): seq<HashEdge> {
    Sort(PairLessEq, SplitKeys(Missing(Unique(keys), Unique(others))))
  }

  datatype Revision = Revision(graphId: Text, policy: Text, identityHash: Identity)

  /** What the identity hash is made from, the hash being injective. */
  datatype Identity = Identity(policy: Text, nodes: seq<Text>, edges: Option<seq<HashEdge>>)

  datatype Diff = Diff(nodesAdded: seq<Text>, nodesRemoved: seq<Text>, edgesAdded: seq<HashEdge>, edgesRemoved: seq<HashEdge>,
                       policyChanged: bool, identityChanged: bool)

  /** The loop over a set of keys that pushes each key the other set does not have, and the sort after it. */
  method EdgesNotIn(keys: seq<Text>, others: seq<Text>) returns (list: seq<HashEdge>)
    ensures list == Sort(PairLessEq, SplitKeys(Missing(keys, others)))
  {
    list := [];
    var i := 0;
    while i < |keys|
      invariant 0 <= i <= |keys|
      invariant list == SplitKeys(Missing(keys[..i], others))
    {
      assert keys[..i + 1][..i] == keys[..i];
      if keys[i] !in others { list := list + [SplitKey(keys[i])]; }
      i := i + 1;
    }
    assert keys[..i] == keys;
    list := Sort(PairLessEq, list);
  }

  /** None is the error of revisions of different graphs. */
  method BuildGraphRevisionDiff(fromRevision: Revision, toRevision: Revision, fromNodes: seq<GraphNode>,
                                toNodes: seq<GraphNode>,
                                fromEdges: seq<GraphEdge>, toEdges: seq<GraphEdge>) returns (r: Option<Diff>)
    ensures r.None? <==> fromRevision.graphId != toRevision.graphId
    ensures r.Some? ==> r.value == Diff(
      NodeDiff(toNodes, fromNodes), NodeDiff(fromNodes, toNodes),
      EdgeDiff(EdgeKeys(toNodes, toEdges), EdgeKeys(fromNodes, fromEdges)),
      EdgeDiff(EdgeKeys(fromNodes, fromEdges), EdgeKeys(toNodes, toEdges)),
      fromRevision.policy != toRevision.policy, fromRevision.identityHash != toRevision.identityHash)
  {
    if fromRevision.graphId != toRevision.graphId { return None; }
    var nodesAdded := Sort(LessEq, Missing(Hashes(toNodes), Hashes(fromNodes)));
    var nodesRemoved := Sort(LessEq, Missing(Hashes(fromNodes), Hashes(toNodes)));
    var fromEdgeSet := Unique(EdgeKeys(fromNodes, fromEdges));
    var toEdgeSet := Unique(EdgeKeys(toNodes, toEdges));
    var edgesAdded := EdgesNotIn(toEdgeSet, fromEdgeSet);
    var edgesRemoved := EdgesNotIn(fromEdgeSet, toEdgeSet);
    r := Some(Diff(nodesAdded, nodesRemoved, edgesAdded, edgesRemoved,
                   fromRevision.policy != toRevision.policy, fromRevision.identityHash != toRevision.identityHash));
  }

  // ---- what the lists hold ------------------------------------------------------------------------------

  lemma {:induction false} MissingMeans<T>(s: seq<T>, other: seq<T>)
    ensures forall x :: x in Missing(s, other) <==> x in s && x !in other
  {
    if s != [] {
      MissingMeans(s[..|s| - 1], other);
      assert s == s[..|s| - 1] + [s[|s| - 1]];
    }
  }

  lemma {:induction false} MissingIsDistinct<T(!new)>(s: seq<T>, other: seq<T>)
    requires Distinct(s)
    ensures Distinct(Missing(s, other))
  {
    if s != [] {
      var init := s[..|s| - 1];
      MissingIsDistinct(init, other);
      MissingMeans(init, other);
    }
  }

  lemma NodeDiffHolds(nodes: seq<GraphNode>, others: seq<GraphNode>)
    ensures forall h :: h in NodeDiff(nodes, others) <==> h in Hashes(nodes) && h !in Hashes(others)
  {
    TextOrderIsTotal();
    SortKeepsElements(LessEq, Missing(Hashes(nodes), Hashes(others)));
    MissingMeans(Hashes(nodes), Hashes(others));
  }

  /** A revision as the store keeps it: distinct runs, edges between known runs, hashes without colons. */
  ghost predicate Sound(nodes: seq<GraphNode>, edges: seq<GraphEdge>) {
    && DistinctIds(nodes) && HashedEdges(nodes, edges).Some?
    && forall n :: n in nodes ==> COLON !in n.hash
  }

  lemma {:induction false} FindIsHashOf(nodes: seq<GraphNode>, id: Text)
    requires DistinctIds(nodes)
    ensures FindHash(nodes, id) == HashOf(nodes, id)
    ensures FindHash(nodes, id).Some? ==> exists n :: n in nodes && n.hash == FindHash(nodes, id).value
  {
    HashOfUnknown(nodes, id);
    if nodes != [] && nodes[0].runId == id {
      HashOfMeans(nodes, nodes[0]);
    } else if nodes != [] {
      FindIsHashOf(nodes[1..], id);
      HashOfUnknown(nodes[1..], id);
      assert nodes == [nodes[0]] + nodes[1..];
      if n :| n in nodes[1..] && n.runId == id {
        HashOfMeans(nodes, n);
        HashOfMeans(nodes[1..], n);
      }
    }
  }

  function KeyOf(p: HashEdge): Text {
    p.from + [COLON] + p.to
  }

  lemma {:induction false} StopsAtColon(s: Text, rest: Text)
    requires COLON !in s && (rest == [] || rest[0] == COLON)
    ensures UpToColon(s + rest) == |s|
  {
    if s == [] {
      assert s + rest == rest;
    } else {
      assert (s + rest)[1..] == s[1..] + rest;
      StopsAtColon(s[1..], rest);
    }
  }

  /** Splitting a key gives its pair back. */
  lemma KeySplits(p: HashEdge)
    requires COLON !in p.from && COLON !in p.to
    ensures SplitKey(KeyOf(p)) == p
  {
    var key := KeyOf(p);
    assert key == p.from + ([COLON] + p.to);
    StopsAtColon(p.from, [COLON] + p.to);
    assert key[|p.from| + 1..] == p.to;
    assert p.to + [] == p.to;
    StopsAtColon(p.to, []);
  }

  lemma KeysArePairs(nodes: seq<GraphNode>, edges: seq<GraphEdge>)
    requires Sound(nodes, edges)
    ensures var pairs := HashedEdges(nodes, edges).value;
            forall i :: 0 <= i < |edges| ==>
              EdgeKeys(nodes, edges)[i] == KeyOf(pairs[i]) && SplitKey(KeyOf(pairs[i])) == pairs[i]
  {
    hide HashOf, FindHash, SplitKey, HashedEdges, DistinctIds;
    var pairs := HashedEdges(nodes, edges).value;
    forall i | 0 <= i < |edges|
      ensures EdgeKeys(nodes, edges)[i] == KeyOf(pairs[i]) && SplitKey(KeyOf(pairs[i])) == pairs[i]
    {
      FindIsHashOf(nodes, edges[i].from);
      FindIsHashOf(nodes, edges[i].to);
      assert HashedEdge(nodes, edges[i]) == Some(pairs[i]);
      KeySplits(pairs[i]);
    }
  }

  /** The edge list of a diff holds the hashed edges of one revision that the other does not have. */
  lemma EdgeDiffHolds(nodes: seq<GraphNode>, edges: seq<GraphEdge>, otherNodes: seq<GraphNode>, otherEdges: seq<GraphEdge>)
    requires Sound(nodes, edges) && Sound(otherNodes, otherEdges)
    ensures var diff := EdgeDiff(EdgeKeys(nodes, edges), EdgeKeys(otherNodes, otherEdges));
            var pairs, others := HashedEdges(nodes, edges).value, HashedEdges(otherNodes, otherEdges).value;
            && Distinct(diff) && forall p :: p in diff <==> p in pairs && p !in others
  {
    hide HashedEdges, DistinctIds, SplitKey, KeyOf, EdgeKey, Missing, Unique, PairLessEq, Sort;
    var keys, otherKeys := EdgeKeys(nodes, edges), EdgeKeys(otherNodes, otherEdges);
    var pairs, others := HashedEdges(nodes, edges).value, HashedEdges(otherNodes, otherEdges).value;
    KeysArePairs(nodes, edges);
    KeysArePairs(otherNodes, otherEdges);
    KeysDiffer(keys, pairs, otherKeys, others);
  }

  ghost predicate Keyed(keys: seq<Text>, pairs: seq<HashEdge>) {
    |keys| == |pairs| && forall i :: 0 <= i < |keys| ==> keys[i] == KeyOf(pairs[i]) && SplitKey(keys[i]) == pairs[i]
  }

  lemma KeyedBoth(keys: seq<Text>, pairs: seq<HashEdge>, p: HashEdge)
    requires Keyed(keys, pairs)
    ensures p in pairs ==> KeyOf(p) in keys && SplitKey(KeyOf(p)) == p
    ensures KeyOf(p) in keys && SplitKey(KeyOf(p)) == p ==> p in pairs
  {
    hide KeyOf, SplitKey;
    if p in pairs {
      var i :| 0 <= i < |pairs| && pairs[i] == p;
      assert keys[i] == KeyOf(p);
    }
  }

  lemma KeysDiffer(keys: seq<Text>, pairs: seq<HashEdge>, otherKeys: seq<Text>, others: seq<HashEdge>)
    requires Keyed(keys, pairs) && Keyed(otherKeys, others)
    ensures Distinct(EdgeDiff(keys, otherKeys)) && forall p :: p in EdgeDiff(keys, otherKeys) <==> p in pairs && p !in others
  {
    hide KeyOf, SplitKey, PairLessEq, Sort, Unique, Missing;
    var missing := Missing(Unique(keys), Unique(otherKeys));
    var split := SplitKeys(missing);
    UniqueKeepsElements(keys);
    UniqueKeepsElements(otherKeys);
    MissingMeans(Unique(keys), Unique(otherKeys));
    MissingIsDistinct(Unique(keys), Unique(otherKeys));
    forall i | 0 <= i < |missing|
      ensures split[i] in pairs && split[i] !in others && KeyOf(split[i]) == missing[i]
    {
      assert missing[i] in missing;
      var k :| 0 <= k < |keys| && keys[k] == missing[i];
      assert split[i] == pairs[k];
      KeyedBoth(otherKeys, others, split[i]);
    }
    forall p | p in pairs && p !in others
      ensures p in split
    {
      KeyedBoth(keys, pairs, p);
      KeyedBoth(otherKeys, others, p);
      var i :| 0 <= i < |missing| && missing[i] == KeyOf(p);
      assert split[i] == p;
    }
    PairOrderIsTotal();
    SortKeepsElements(PairLessEq, split);
    SortSorts(PairLessEq, split);
    assert Distinct(split);
    DistinctByMultiset(split, Sort(PairLessEq, split));
  }

  // ---- the diff and the canonical form agree --------------------------------------------------------------

  ghost predicate SameElements<T(!new)>(s: seq<T>, t: seq<T>) {
    forall x :: x in s <==> x in t
  }

  /** The four lists are empty exactly when the two revisions have the same set of hashes and the same set of hashed edges. */
  lemma EmptyExactlyWhenSameSets(fromNodes: seq<GraphNode>, fromEdges: seq<GraphEdge>, toNodes: seq<GraphNode>,
                                 toEdges: seq<GraphEdge>)
    requires Sound(fromNodes, fromEdges) && Sound(toNodes, toEdges)
    ensures var fromKeys, toKeys := EdgeKeys(fromNodes, fromEdges), EdgeKeys(toNodes, toEdges);
            && NodeDiff(toNodes, fromNodes) == [] && NodeDiff(fromNodes, toNodes) == []
            && EdgeDiff(toKeys, fromKeys) == [] && EdgeDiff(fromKeys, toKeys) == []
            <==>
            && SameElements(Hashes(fromNodes), Hashes(toNodes))
            && SameElements(HashedEdges(fromNodes, fromEdges).value, HashedEdges(toNodes, toEdges).value)
  {
    hide EdgeDiff, NodeDiff, EdgeKeys, HashedEdges, DistinctIds;
    NodeDiffHolds(toNodes, fromNodes);
    NodeDiffHolds(fromNodes, toNodes);
    EdgeDiffHolds(toNodes, toEdges, fromNodes, fromEdges);
    EdgeDiffHolds(fromNodes, fromEdges, toNodes, toEdges);
    NoneOrSome(NodeDiff(toNodes, fromNodes));
    NoneOrSome(NodeDiff(fromNodes, toNodes));
    NoneOrSome(EdgeDiff(EdgeKeys(toNodes, toEdges), EdgeKeys(fromNodes, fromEdges)));
    NoneOrSome(EdgeDiff(EdgeKeys(fromNodes, fromEdges), EdgeKeys(toNodes, toEdges)));
  }

  lemma NoneOrSome<T(!new)>(s: seq<T>)
    ensures s == [] <==> forall x :: x !in s
  {
    if s != [] { assert s[0] in s; }
  }

  /** Sorted lists are equal exactly when what was sorted is a permutation. */
  lemma SortedEqual<T(!new)>(le: (T, T) -> bool, s: seq<T>, t: seq<T>)
    requires TotalPreorder(le) && Separates(le, s)
    ensures Sort(le, s) == Sort(le, t) <==> multiset(s) == multiset(t)
  {
    hide TotalPreorder, Sort, Separates;
    SortSorts(le, s);
    SortSorts(le, t);
    if multiset(s) == multiset(t) { SortForgetsOrder(le, s, t); }
  }

  lemma PermutationsShareElements<T(!new)>(s: seq<T>, t: seq<T>)
    requires Distinct(s) && Distinct(t)
    ensures multiset(s) == multiset(t) <==> SameElements(s, t)
  {
    if SameElements(s, t) {
      SameElementsSameMultiset(s, t);
    } else if multiset(s) == multiset(t) {
      assert forall x :: x in s <==> x in multiset(s);
      assert forall x :: x in t <==> x in multiset(t);
    }
  }

  /** Without repeated hashes or edges, the diff is empty exactly when the canonical lists are the same. */
  lemma EmptyExactlyWhenCanonicalEqual(fromNodes: seq<GraphNode>, fromEdges: seq<GraphEdge>, toNodes: seq<GraphNode>,
                                       toEdges: seq<GraphEdge>)
    requires Sound(fromNodes, fromEdges) && Sound(toNodes, toEdges)
    requires Distinct(Hashes(fromNodes)) && Distinct(Hashes(toNodes))
    requires Distinct(HashedEdges(fromNodes, fromEdges).value) && Distinct(HashedEdges(toNodes, toEdges).value)
    ensures var fromKeys, toKeys := EdgeKeys(fromNodes, fromEdges), EdgeKeys(toNodes, toEdges);
            && NodeDiff(toNodes, fromNodes) == [] && NodeDiff(fromNodes, toNodes) == []
            && EdgeDiff(toKeys, fromKeys) == [] && EdgeDiff(fromKeys, toKeys) == []
            <==>
            && CanonicalizeNodes(fromNodes) == CanonicalizeNodes(toNodes)
            && CanonicalizeEdges(fromNodes, fromEdges) == CanonicalizeEdges(toNodes, toEdges)
  {
    hide EdgeDiff, NodeDiff, EdgeKeys, HashedEdges, DistinctIds, Sort, SameElements, Distinct, LessEq, PairLessEq, Hashes;
    var a, b := Hashes(fromNodes), Hashes(toNodes);
    var p, q := HashedEdges(fromNodes, fromEdges).value, HashedEdges(toNodes, toEdges).value;
    EmptyExactlyWhenSameSets(fromNodes, fromEdges, toNodes, toEdges);
    PermutationsShareElements(a, b);
    PermutationsShareElements(p, q);
    TextOrderIsTotal();
    TextOrderSeparates(a);
    SortedEqual(LessEq, a, b);
    PairOrderIsTotal();
    PairOrderSeparates(p);
    SortedEqual(PairLessEq, p, q);
  }

  /** What both lists hold, they hold equally often. */
  ghost predicate CommonAgree<T(!new)>(s: seq<T>, t: seq<T>) {
    forall x :: x in s && x in t ==> multiset(s)[x] == multiset(t)[x]
  }

  /** What only the first list holds, it holds once. */
  ghost predicate OnceOutside<T(!new)>(s: seq<T>, t: seq<T>) {
    forall x :: x in s && x !in t ==> multiset(s)[x] == 1
  }

  lemma {:induction false} MissingCounts<T(!new)>(s: seq<T>, other: seq<T>)
    ensures forall x :: multiset(Missing(s, other))[x] == if x in other then 0 else multiset(s)[x]
  {
    if s != [] {
      MissingCounts(s[..|s| - 1], other);
      assert s == s[..|s| - 1] + [s[|s| - 1]];
    }
  }

  /** A patch of every missing copy turns one list into the other exactly when common elements occur equally often. */
  lemma PatchesWithCopies<T(!new)>(from: seq<T>, to: seq<T>, removed: multiset<T>, added: multiset<T>)
    requires forall x :: removed[x] == if x in to then 0 else multiset(from)[x]
    requires forall x :: added[x] == if x in from then 0 else multiset(to)[x]
    ensures multiset(from) - removed + added == multiset(to) <==> CommonAgree(from, to)
  {
    var patched := multiset(from) - removed + added;
    assert forall x :: (x in from <==> multiset(from)[x] > 0) && (x in to <==> multiset(to)[x] > 0);
    assert forall x :: patched[x] == if x in from && x in to then multiset(from)[x] else multiset(to)[x];
    if CommonAgree(from, to) {
      assert forall x :: patched[x] == multiset(to)[x];
    } else {
      var x :| x in from && x in to && multiset(from)[x] != multiset(to)[x];
      assert patched[x] != multiset(to)[x];
    }
  }

  /** A patch of one copy each does so exactly when, besides, everything else occurs once. */
  lemma PatchesWithOne<T(!new)>(from: seq<T>, to: seq<T>, removed: seq<T>, added: seq<T>)
    requires Distinct(removed) && Distinct(added)
    requires forall x :: x in removed <==> x in from && x !in to
    requires forall x :: x in added <==> x in to && x !in from
    ensures multiset(from) - multiset(removed) + multiset(added) == multiset(to) <==>
              CommonAgree(from, to) && OnceOutside(from, to) && OnceOutside(to, from)
  {
    DistinctMultiset(removed);
    DistinctMultiset(added);
    var patched := multiset(from) - multiset(removed) + multiset(added);
    assert forall x :: (x in from <==> multiset(from)[x] > 0) && (x in to <==> multiset(to)[x] > 0);
    assert forall x :: patched[x] == if x in from then (if x in to then multiset(from)[x] else multiset(from)[x] - 1)
                                     else if x in to then 1 else 0;
    hide Distinct;
    if CommonAgree(from, to) && OnceOutside(from, to) && OnceOutside(to, from) {
      assert forall x :: patched[x] == multiset(to)[x];
    }
    if patched == multiset(to) {
      assert forall x :: patched[x] == multiset(to)[x];
    }
  }

  lemma SortedMultisets<T(!new)>(le: (T, T) -> bool, s: seq<T>)
    requires TotalPreorder(le)
    ensures multiset(Sort(le, s)) == multiset(s)
  {
    SortSorts(le, s);
  }

  /** The node lists applied to the canonical nodes of the first revision give those of the second exactly when every hash the
    * revisions share occurs equally often in both. */
  lemma NodeDiffPatchesExactlyWhen(from: seq<GraphNode>, to: seq<GraphNode>)
    ensures multiset(CanonicalizeNodes(from)) - multiset(NodeDiff(from, to)) + multiset(NodeDiff(to, from)) ==
              multiset(CanonicalizeNodes(to))
            <==> CommonAgree(Hashes(from), Hashes(to))
  {
    hide Sort, LessEq, Hashes, CommonAgree;
    var a, b := Hashes(from), Hashes(to);
    TextOrderIsTotal();
    SortedMultisets(LessEq, a);
    SortedMultisets(LessEq, b);
    SortedMultisets(LessEq, Missing(a, b));
    SortedMultisets(LessEq, Missing(b, a));
    MissingCounts(a, b);
    MissingCounts(b, a);
    PatchesWithCopies(a, b, multiset(NodeDiff(from, to)), multiset(NodeDiff(to, from)));
  }

  /** The edge lists hold a hashed edge once however often it occurs, so they patch the canonical edges exactly when shared ones
    * occur equally often and all others once. */
  lemma EdgeDiffPatchesExactlyWhen(fromNodes: seq<GraphNode>, fromEdges: seq<GraphEdge>, toNodes: seq<GraphNode>,
                                   toEdges: seq<GraphEdge>)
    requires Sound(fromNodes, fromEdges) && Sound(toNodes, toEdges)
    ensures var fromKeys, toKeys := EdgeKeys(fromNodes, fromEdges), EdgeKeys(toNodes, toEdges);
            var a, b := HashedEdges(fromNodes, fromEdges).value, HashedEdges(toNodes, toEdges).value;
            var from, to := CanonicalizeEdges(fromNodes, fromEdges).value, CanonicalizeEdges(toNodes, toEdges).value;
            multiset(from) - multiset(EdgeDiff(fromKeys, toKeys)) + multiset(EdgeDiff(toKeys, fromKeys)) == multiset(to)
            <==> CommonAgree(a, b) && OnceOutside(a, b) && OnceOutside(b, a)
  {
    hide EdgeDiff, EdgeKeys, HashedEdges, DistinctIds, Sort, Distinct, PairLessEq, CommonAgree, OnceOutside;
    var a, b := HashedEdges(fromNodes, fromEdges).value, HashedEdges(toNodes, toEdges).value;
    PairOrderIsTotal();
    SortedMultisets(PairLessEq, a);
    SortedMultisets(PairLessEq, b);
    EdgeDiffHolds(toNodes, toEdges, fromNodes, fromEdges);
    EdgeDiffHolds(fromNodes, fromEdges, toNodes, toEdges);
    PatchesWithOne(a, b, EdgeDiff(EdgeKeys(fromNodes, fromEdges), EdgeKeys(toNodes, toEdges)),
                   EdgeDiff(EdgeKeys(toNodes, toEdges), EdgeKeys(fromNodes, fromEdges)));
  }

  function IdentityOf(policy: Text, nodes: seq<GraphNode>, edges: seq<GraphEdge>): Identity {
    Identity(policy, CanonicalizeNodes(nodes), CanonicalizeEdges(nodes, edges))
  }

  /** The identity counts: it is the same exactly when the policy, the multiset of hashes and that of hashed edges are. */
  lemma IdentityCounts(fromPolicy: Text, fromNodes: seq<GraphNode>, fromEdges: seq<GraphEdge>,
                       toPolicy: Text, toNodes: seq<GraphNode>, toEdges: seq<GraphEdge>)
    requires Sound(fromNodes, fromEdges) && Sound(toNodes, toEdges)
    ensures IdentityOf(fromPolicy, fromNodes, fromEdges) == IdentityOf(toPolicy, toNodes, toEdges) <==>
              && fromPolicy == toPolicy
              && multiset(Hashes(fromNodes)) == multiset(Hashes(toNodes))
              && multiset(HashedEdges(fromNodes, fromEdges).value) == multiset(HashedEdges(toNodes, toEdges).value)
  {
    hide HashedEdges, DistinctIds, Sort, LessEq, PairLessEq, Hashes;
    TextOrderIsTotal();
    TextOrderSeparates(Hashes(fromNodes));
    SortedEqual(LessEq, Hashes(fromNodes), Hashes(toNodes));
    PairOrderIsTotal();
    PairOrderSeparates(HashedEdges(fromNodes, fromEdges).value);
    SortedEqual(PairLessEq, HashedEdges(fromNodes, fromEdges).value, HashedEdges(toNodes, toEdges).value);
  }

  ghost predicate SameSets(fromNodes: seq<GraphNode>, fromEdges: seq<GraphEdge>, toNodes: seq<GraphNode>, toEdges: seq<GraphEdge>)
    requires Sound(fromNodes, fromEdges) && Sound(toNodes, toEdges)
  {
    && SameElements(Hashes(fromNodes), Hashes(toNodes))
    && SameElements(HashedEdges(fromNodes, fromEdges).value, HashedEdges(toNodes, toEdges).value)
  }

  ghost predicate SameCounts(fromNodes: seq<GraphNode>, fromEdges: seq<GraphEdge>, toNodes: seq<GraphNode>, toEdges: seq<GraphEdge>)
    requires Sound(fromNodes, fromEdges) && Sound(toNodes, toEdges)
  {
    && multiset(Hashes(fromNodes)) == multiset(Hashes(toNodes))
    && multiset(HashedEdges(fromNodes, fromEdges).value) == multiset(HashedEdges(toNodes, toEdges).value)
  }

  /** For revisions whose identity hash was made from their graph, the diff's flags and lists tell one story, that the identity
    * changed exactly when the policy did or some list is not empty, if and only if revisions with the same policy and the same
    * sets of hashes and hashed edges have them equally often. */
  lemma IdentityChangesWithTheLists(fromPolicy: Text, fromNodes: seq<GraphNode>, fromEdges: seq<GraphEdge>,
                                    toPolicy: Text, toNodes: seq<GraphNode>, toEdges: seq<GraphEdge>)
    requires Sound(fromNodes, fromEdges) && Sound(toNodes, toEdges)
    ensures var fromKeys, toKeys := EdgeKeys(fromNodes, fromEdges), EdgeKeys(toNodes, toEdges);
            var identityChanged := IdentityOf(fromPolicy, fromNodes, fromEdges) != IdentityOf(toPolicy, toNodes, toEdges);
            var listed := || fromPolicy != toPolicy
                          || NodeDiff(toNodes, fromNodes) != [] || NodeDiff(fromNodes, toNodes) != []
                          || EdgeDiff(toKeys, fromKeys) != [] || EdgeDiff(fromKeys, toKeys) != [];
            && (listed ==> identityChanged)
            && ((identityChanged <==> listed) <==>
                  (fromPolicy == toPolicy && SameSets(fromNodes, fromEdges, toNodes, toEdges) ==>
                     SameCounts(fromNodes, fromEdges, toNodes, toEdges)))
  {
    hide EdgeDiff, NodeDiff, EdgeKeys, HashedEdges, CanonicalizeNodes, CanonicalizeEdges, Hashes, DistinctIds, Distinct, SameElements;
    EmptyExactlyWhenSameSets(fromNodes, fromEdges, toNodes, toEdges);
    IdentityCounts(fromPolicy, fromNodes, fromEdges, toPolicy, toNodes, toEdges);
    CountsMakeSets(Hashes(fromNodes), Hashes(toNodes));
    CountsMakeSets(HashedEdges(fromNodes, fromEdges).value, HashedEdges(toNodes, toEdges).value);
  }

  lemma CountsMakeSets<T(!new)>(s: seq<T>, t: seq<T>)
    ensures multiset(s) == multiset(t) ==> SameElements(s, t)
  {
    assert forall x :: (x in s <==> x in multiset(s)) && (x in t <==> x in multiset(t));
  }

  /** Two runs of one execution hash are one to the diff but two to the identity: it changes and every list is empty. */
  lemma RepeatedHashIsNotSeen()
    ensures var one, two := [GraphNode([97], [1])], [GraphNode([97], [1]), GraphNode([98], [1])];
            && Sound(one, []) && Sound(two, [])
            && NodeDiff(two, one) == [] && NodeDiff(one, two) == []
            && CanonicalizeNodes(one) != CanonicalizeNodes(two)
            && forall policy :: IdentityOf(policy, one, []) != IdentityOf(policy, two, [])
  {
    var one, two := [GraphNode([97], [1])], [GraphNode([97], [1]), GraphNode([98], [1])];
    SameHashesNoDiff(two, one, [1]);
    SameHashesNoDiff(one, two, [1]);
    CanonicalLength(one);
    CanonicalLength(two);
  }

  lemma SameHashesNoDiff(nodes: seq<GraphNode>, others: seq<GraphNode>, h: Text)
    requires others != [] && others[0].hash == h && forall n :: n in nodes ==> n.hash == h
    ensures NodeDiff(nodes, others) == []
  {
    hide NodeDiff;
    NodeDiffHolds(nodes, others);
    assert Hashes(others)[0] == h;
    NoneOrSome(NodeDiff(nodes, others));
  }

  lemma CanonicalLength(nodes: seq<GraphNode>)
    ensures |CanonicalizeNodes(nodes)| == |nodes|
  {
    hide TotalPreorder, Sort, Hashes;
    TextOrderIsTotal();
    SortSorts(LessEq, Hashes(nodes));
    assert |multiset(CanonicalizeNodes(nodes))| == |multiset(Hashes(nodes))|;
  }

  lemma OneValueOnce<T(!new)>(s: seq<T>, x: T)
    requires Distinct(s) && x in s && forall y :: y in s ==> y == x
    ensures |s| == 1
  {
    DistinctMultiset(s);
    assert multiset(s) == multiset{x};
    assert |s| == |multiset(s)|;
  }

  const TWINS := [GraphNode([97], [1]), GraphNode([98], [1]), GraphNode([99], [2])]
  const TWIN_EDGES := [GraphEdge([97], [99]), GraphEdge([98], [99])]

  lemma TwinEdges()
    ensures Sound(TWINS, TWIN_EDGES) && Sound(TWINS, [])
    ensures HashedEdges(TWINS, TWIN_EDGES) == Some([HashEdge([1], [2]), HashEdge([1], [2])])
  {
    hide HashOf;
    HashOfMeans(TWINS, TWINS[0]);
    HashOfMeans(TWINS, TWINS[1]);
    HashOfMeans(TWINS, TWINS[2]);
    assert HashedEdge(TWINS, TWIN_EDGES[0]) == HashedEdge(TWINS, TWIN_EDGES[1]) == Some(HashEdge([1], [2]));
    hide HashedEdge, HashedEdges;
    assert forall i :: 0 <= i < 2 ==> HashedEdge(TWINS, TWIN_EDGES[i]) == Some(HashEdge([1], [2]));
    assert HashedEdges(TWINS, TWIN_EDGES).value == [HashEdge([1], [2]), HashEdge([1], [2])];
  }

  /** Two edges between runs of the same hashes count twice in the identity, but are listed once. */
  lemma RepeatedEdgeIsListedOnce()
    ensures Sound(TWINS, TWIN_EDGES) && Sound(TWINS, [])
    ensures |EdgeDiff(EdgeKeys(TWINS, TWIN_EDGES), EdgeKeys(TWINS, []))| == 1
    ensures CanonicalizeEdges(TWINS, TWIN_EDGES).Some? && |CanonicalizeEdges(TWINS, TWIN_EDGES).value| == 2
  {
    TwinEdges();
    hide EdgeDiff, EdgeKeys, Sound, Sort, PairLessEq, HashedEdge;
    EdgeDiffHolds(TWINS, TWIN_EDGES, TWINS, []);
    var p, pairs := HashEdge([1], [2]), HashedEdges(TWINS, TWIN_EDGES).value;
    var diff := EdgeDiff(EdgeKeys(TWINS, TWIN_EDGES), EdgeKeys(TWINS, []));
    assert HashedEdges(TWINS, []) == Some([]);
    assert pairs[0] == p && p in diff;
    OneValueOnce(diff, p);
    PairOrderIsTotal();
    SortedMultisets(PairLessEq, pairs);
    assert |multiset(CanonicalizeEdges(TWINS, TWIN_EDGES).value)| == |multiset(pairs)|;
  }
}
