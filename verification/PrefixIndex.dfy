/** rfsn_kv/prefix_index.py: branches that share the nodes of a common prefix, with reference counts. */
module PrefixIndex {
  import opened Results
  import opened Subsequences

  datatype Range = Range(startToken: int, endToken: int, pageIds: seq<string>)

  datatype Node = Node(nodeId: string, range: Range, refCount: int)

  datatype Branch = Branch(branchId: string, rootNodeId: string, nodeIds: seq<string>)

  datatype Index = Index(branches: seq<Branch>, nodes: seq<Node>)

  datatype IndexError = UnknownBranch | InvalidRange

  function NodeIds(nodes: seq<Node>): (ids: seq<string>)
    ensures |ids| == |nodes| && forall i :: 0 <= i < |nodes| ==> ids[i] == nodes[i].nodeId
  {
    seq(|nodes|, i requires 0 <= i < |nodes| => nodes[i].nodeId)
  }

  function GetBranch(branches: seq<Branch>, id: string): (r: Option<Branch>)
    ensures r.Some? ==> r.value in branches && r.value.branchId == id
    ensures r.None? ==> forall b :: b in branches ==> b.branchId != id
  {
    if branches == [] then None
    else if branches[0].branchId == id then Some(branches[0])
    else GetBranch(branches[1..], id)
  }

  /** The node map of get_common_prefix, in which a later node replaces an earlier one. */
  function GetNode(nodes: seq<Node>, id: string): (r: Option<Node>)
    ensures r.Some? <==> id in NodeIds(nodes)
    ensures r.Some? ==> r.value in nodes && r.value.nodeId == id
    decreases |nodes|
  {
    if nodes == [] then None
    else
      var init, last := nodes[..|nodes| - 1], nodes[|nodes| - 1];
      assert NodeIds(nodes) == NodeIds(init) + [last.nodeId];
      if last.nodeId == id then Some(last) else GetNode(init, id)
  }

  function RegisterBranch(x: Index, branchId: string, nodes: seq<Node>): Index {
    var root := if nodes != [] then nodes[0].nodeId else "empty";
    Index(x.branches + [Branch(branchId, root, NodeIds(nodes))], x.nodes + nodes)
  }

  /** The nodes, those of the shared ids counted once more. */
  function Incremented(nodes: seq<Node>, shared: set<string>): (r: seq<Node>)
    ensures |r| == |nodes|
    ensures forall i :: 0 <= i < |r| ==>
      r[i] == if nodes[i].nodeId in shared then nodes[i].(refCount := nodes[i].refCount + 1) else nodes[i]
  {
    seq(|nodes|, i requires 0 <= i < |nodes| =>
      if nodes[i].nodeId in shared then nodes[i].(refCount := nodes[i].refCount + 1) else nodes[i])
  }

  function IdSet(nodes: seq<Node>): set<string> {
    set id | id in NodeIds(nodes)
  }

  function Forked(
    x: Index, source: string, branchId: string, shared: seq<Node>, added: seq<Node>): Result<Index, IndexError>
  {
    match GetBranch(x.branches, source)
    case None => Failure(UnknownBranch)
    case Some(b) =>
      var root := if added != [] then added[0].nodeId else b.rootNodeId;
      Success(Index(x.branches + [Branch(branchId, root, NodeIds(shared) + NodeIds(added))],
                    Incremented(x.nodes, IdSet(shared)) + added))
  }

  /** One branch more, whose chain lists these nodes in order; the other branches are as they were. */
  ghost predicate BranchAdded(x: Index, branchId: string, chain: seq<Node>, r: Index) {
    && |r.branches| == |x.branches| + 1 && r.branches[..|x.branches|] == x.branches
    && var b := r.branches[|x.branches|];
       && b.branchId == branchId && |b.nodeIds| == |chain|
       && forall k :: 0 <= k < |chain| ==> b.nodeIds[k] == chain[k].nodeId
  }

  /** The old nodes stay, in place and with their ranges, those that are shared counted once more, and the
    new nodes follow them. */
  ghost predicate Shares(x: Index, shared: seq<Node>, added: seq<Node>, r: Index) {
    && |r.nodes| == |x.nodes| + |added| && r.nodes[|x.nodes|..] == added
    && forall i :: 0 <= i < |x.nodes| ==>
         && r.nodes[i].nodeId == x.nodes[i].nodeId && r.nodes[i].range == x.nodes[i].range
         && r.nodes[i].refCount == x.nodes[i].refCount +
            if exists k :: 0 <= k < |shared| && shared[k].nodeId == x.nodes[i].nodeId then 1 else 0
  }

  /** The root of a forked branch: its first new node, or the root of the first branch with the source id. */
  ghost predicate RootedAt(x: Index, source: string, added: seq<Node>, root: string) {
    if added != [] then root == added[0].nodeId
    else exists i :: 0 <= i < |x.branches| && x.branches[i].branchId == source && x.branches[i].rootNodeId == root
                     && forall j :: 0 <= j < i ==> x.branches[j].branchId != source
  }

  lemma ForkRooted(x: Index, source: string, branchId: string, shared: seq<Node>, added: seq<Node>)
    ensures var r := Forked(x, source, branchId, shared, added);
      r.Success? ==>
        && r.value.branches != []
        && RootedAt(x, source, added, r.value.branches[|r.value.branches| - 1].rootNodeId)
  {
    GetBranchFirst(x.branches, source);
  }

  lemma ForkOutcome(x: Index, source: string, branchId: string, shared: seq<Node>, added: seq<Node>)
    ensures var r := Forked(x, source, branchId, shared, added);
      && (r.Success? <==> exists b :: b in x.branches && b.branchId == source)
      && (r.Success? ==> BranchAdded(x, branchId, shared + added, r.value) && Shares(x, shared, added, r.value))
  {
    forall id ensures id in IdSet(shared) <==> exists k :: 0 <= k < |shared| && shared[k].nodeId == id {
      if k :| 0 <= k < |shared| && shared[k].nodeId == id { assert NodeIds(shared)[k] == id; }
    }
  }

  /** register_branch adds a branch over its nodes and nothing else. */
  lemma RegisterOutcome(x: Index, branchId: string, nodes: seq<Node>)
    ensures var r := RegisterBranch(x, branchId, nodes);
      && BranchAdded(x, branchId, nodes, r) && r.nodes == x.nodes + nodes
      && r.branches[|x.branches|].rootNodeId == if nodes == [] then "empty" else nodes[0].nodeId
  {
  }

  /** The loop of fork_branch over the nodes. */
  method Recount(nodes: seq<Node>, sharedIds: set<string>) returns (updated: seq<Node>)
    ensures updated == Incremented(nodes, sharedIds)
  {
    updated := [];
    var i := 0;
    while i < |nodes|
      invariant 0 <= i <= |nodes|
      invariant updated == Incremented(nodes, sharedIds)[..i]
    {
      if nodes[i].nodeId in sharedIds {
        updated := updated + [nodes[i].(refCount := nodes[i].refCount + 1)];
      } else {
        updated := updated + [nodes[i]];
      }
      i := i + 1;
    }
  }

  method ForkBranch(x: Index, source: string, branchId: string, shared: seq<Node>, added: seq<Node>)
    returns (r: Result<Index, IndexError>)
    ensures r == Forked(x, source, branchId, shared, added)
    ensures r.Success? <==> exists b :: b in x.branches && b.branchId == source
    ensures r.Success? ==> BranchAdded(x, branchId, shared + added, r.value) && Shares(x, shared, added, r.value)
    ensures r.Success? ==>
              && r.value.branches != []
              && RootedAt(x, source, added, r.value.branches[|r.value.branches| - 1].rootNodeId)
  {
    hide BranchAdded, Shares, RootedAt;
    ForkOutcome(x, source, branchId, shared, added);
    ForkRooted(x, source, branchId, shared, added);
    var b := GetBranch(x.branches, source);
    if b.None? {
      return Failure(UnknownBranch);
    }
    var updated := Recount(x.nodes, IdSet(shared));
    updated := updated + added;
    var root := if added != [] then added[0].nodeId else b.value.rootNodeId;
    r := Success(Index(x.branches + [Branch(branchId, root, NodeIds(shared) + NodeIds(added))], updated));
  }

  /** The nodes of a chain, those that the index does not know left out. */
  function Chain(nodes: seq<Node>, ids: seq<string>): seq<Node> {
    if ids == [] then []
    else
      var n := GetNode(nodes, ids[0]);
      (if n.Some? then [n.value] else []) + Chain(nodes, ids[1..])
  }

  function CommonLength(a: seq<string>, b: seq<string>): (n: nat)
    ensures n <= |a| && n <= |b| && a[..n] == b[..n]
    ensures n < |a| && n < |b| ==> a[n] != b[n]
  {
    if a == [] || b == [] || a[0] != b[0] then 0
    else
      var n := CommonLength(a[1..], b[1..]);
      assert a[..n + 1] == [a[0]] + a[1..][..n] && b[..n + 1] == [b[0]] + b[1..][..n];
      1 + n
  }

  method CountCommon(a: seq<Node>, b: seq<Node>) returns (n: nat)
    ensures n == CommonLength(NodeIds(a), NodeIds(b))
  {
    n := 0;
    while n < |a| && n < |b| && a[n].nodeId == b[n].nodeId
      invariant n <= |a| && n <= |b|
      invariant NodeIds(a)[..n] == NodeIds(b)[..n]
    {
      n := n + 1;
    }
    CommonLengthUnique(NodeIds(a), NodeIds(b), n);
  }

  lemma {:induction false} CommonLengthUnique(a: seq<string>, b: seq<string>, n: nat)
    requires n <= |a| && n <= |b| && a[..n] == b[..n] && (n < |a| && n < |b| ==> a[n] != b[n])
    ensures n == CommonLength(a, b)
    decreases n
  {
    if n > 0 {
      assert a[0] == a[..n][0] == b[..n][0] == b[0];
      assert a[1..][..n - 1] == a[..n][1..] == b[..n][1..] == b[1..][..n - 1];
      CommonLengthUnique(a[1..], b[1..], n - 1);
    }
  }

  lemma {:induction false} CommonLengthLongest(a: seq<string>, b: seq<string>, m: nat)
    requires m <= |a| && m <= |b| && a[..m] == b[..m]
    ensures m <= CommonLength(a, b)
    decreases m
  {
    if m > 0 {
      assert a[0] == a[..m][0] == b[..m][0] == b[0];
      assert a[1..][..m - 1] == a[..m][1..] == b[..m][1..] == b[1..][..m - 1];
      CommonLengthLongest(a[1..], b[1..], m - 1);
    }
  }

  function PagesOf(nodes: seq<Node>): seq<string> {
    if nodes == [] then [] else nodes[0].range.pageIds + PagesOf(nodes[1..])
  }

  /** The range of the first nodes that two chains have in common; an empty or backward one is an error. */
  function CommonRange(nodes: seq<Node>, a: seq<string>, b: seq<string>): Result<Option<Range>, IndexError> {
    var ca, cb := Chain(nodes, a), Chain(nodes, b);
    var n := CommonLength(NodeIds(ca), NodeIds(cb));
    if n == 0 then Success(None)
    else
      var start, end := ca[0].range.startToken, ca[n - 1].range.endToken;
      if end <= start then Failure(InvalidRange) else Success(Some(Range(start, end, PagesOf(ca[..n]))))
  }

  /** get_common_prefix */
  function CommonPrefix(x: Index, first: string, second: string): Result<Option<Range>, IndexError> {
    var a, b := GetBranch(x.branches, first), GetBranch(x.branches, second);
    if a.None? || b.None? then Success(None) else CommonRange(x.nodes, a.value.nodeIds, b.value.nodeIds)
  }

  function KeepNodes(nodes: seq<Node>, referenced: set<string>): seq<Node> {
    if nodes == [] then []
    else
      var first := if nodes[0].refCount > 0 || nodes[0].nodeId in referenced then [nodes[0]] else [];
      first + KeepNodes(nodes[1..], referenced)
  }

  function Referenced(branches: seq<Branch>): set<string> {
    if branches == [] then {} else (set id | id in branches[0].nodeIds) + Referenced(branches[1..])
  }

  function Collected(x: Index): Index {
    Index(x.branches, KeepNodes(x.nodes, Referenced(x.branches)))
  }

  /** The nodes that are counted or that some branch holds. */
  ghost predicate Survivors(x: Index, ks: seq<nat>, nodes: seq<Node>) {
    && PickedAt(x.nodes, ks, nodes)
    && forall i :: 0 <= i < |x.nodes| ==>
         (i in ks <==> x.nodes[i].refCount > 0 || exists b :: b in x.branches && x.nodes[i].nodeId in b.nodeIds)
  }

  lemma {:induction false} ReferencedIff(branches: seq<Branch>, id: string)
    ensures id in Referenced(branches) <==> exists b :: b in branches && id in b.nodeIds
  {
    if branches != [] {
      ReferencedIff(branches[1..], id);
      assert branches == [branches[0]] + branches[1..];
    }
  }

  lemma {:induction false} KeepSnoc(nodes: seq<Node>, n: Node, referenced: set<string>)
    ensures KeepNodes(nodes + [n], referenced) ==
            if n.refCount > 0 || n.nodeId in referenced then KeepNodes(nodes, referenced) + [n]
            else KeepNodes(nodes, referenced)
  {
    if nodes == [] {
      assert ([n])[1..] == [] && [] + [n] == [n];
    } else {
      KeepSnoc(nodes[1..], n, referenced);
      assert (nodes + [n])[1..] == nodes[1..] + [n];
    }
  }

  ghost predicate KeptAt(nodes: seq<Node>, referenced: set<string>, ks: seq<nat>, r: seq<Node>) {
    && PickedAt(nodes, ks, r)
    && forall i :: 0 <= i < |nodes| ==> (i in ks <==> nodes[i].refCount > 0 || nodes[i].nodeId in referenced)
  }

  lemma KeptStep(nodes: seq<Node>, referenced: set<string>, ks: seq<nat>, r: seq<Node>, n: Node, keep: bool)
    requires KeptAt(nodes, referenced, ks, r) && (keep <==> n.refCount > 0 || n.nodeId in referenced)
    ensures KeptAt(nodes + [n], referenced, if keep then ks + [|nodes|] else ks, if keep then r + [n] else r)
  {
    hide PickedAt;
    PickNext(nodes, ks, r, n, keep);
  }

  lemma KeptNone(referenced: set<string>)
    ensures KeptAt([], referenced, [], KeepNodes([], referenced))
  {
  }

  lemma {:induction false} KeptNodesExact(nodes: seq<Node>, referenced: set<string>) returns (ks: seq<nat>)
    ensures KeptAt(nodes, referenced, ks, KeepNodes(nodes, referenced))
    decreases |nodes|
  {
    hide KeepNodes, KeptAt;
    if nodes == [] {
      ks := [];
      KeptNone(referenced);
    } else {
      var init, last := nodes[..|nodes| - 1], nodes[|nodes| - 1];
      var keep := last.refCount > 0 || last.nodeId in referenced;
      var before := KeptNodesExact(init, referenced);
      KeepSnoc(init, last, referenced);
      KeptStep(init, referenced, before, KeepNodes(init, referenced), last, keep);
      assert nodes == init + [last];
      ks := if keep then before + [|init|] else before;
    }
  }

  lemma CollectedExact(x: Index) returns (ks: seq<nat>)
    ensures Collected(x).branches == x.branches && Survivors(x, ks, Collected(x).nodes)
  {
    ks := KeptNodesExact(x.nodes, Referenced(x.branches));
    forall i | 0 <= i < |x.nodes|
      ensures x.nodes[i].nodeId in Referenced(x.branches) <==>
              exists b :: b in x.branches && x.nodes[i].nodeId in b.nodeIds
    {
      ReferencedIff(x.branches, x.nodes[i].nodeId);
    }
  }

  method Gc(x: Index) returns (r: Index)
    ensures r == Collected(x)
    ensures r.branches == x.branches && exists ks :: Survivors(x, ks, r.nodes)
  {
    hide Survivors;
    ghost var ks := CollectedExact(x);
    var referenced: set<string> := {};
    var i := 0;
    while i < |x.branches|
      invariant 0 <= i <= |x.branches|
      invariant referenced + Referenced(x.branches[i..]) == Referenced(x.branches)
    {
      assert x.branches[i..][1..] == x.branches[i + 1..];
      referenced := referenced + (set id | id in x.branches[i].nodeIds);
      i := i + 1;
    }
    r := Index(x.branches, KeepNodes(x.nodes, referenced));
  }

  // ----- the forest -----

  ghost predicate UniqueNodes(nodes: seq<Node>) {
    forall i, j :: 0 <= i < j < |nodes| ==> nodes[i].nodeId != nodes[j].nodeId
  }

  /** Two chains that share a node share it at the same place, and everything before it. */
  ghost predicate SharePrefixOnly(a: seq<string>, b: seq<string>) {
    forall p, q :: 0 <= p < |a| && 0 <= q < |b| && a[p] == b[q] ==> p == q && a[..p] == b[..p]
  }

  /** The number of branches that hold a node. */
  function Holders(branches: seq<Branch>, id: string): nat {
    if branches == [] then 0
    else Holders(branches[..|branches| - 1], id) + if id in branches[|branches| - 1].nodeIds then 1 else 0
  }

  ghost predicate KnownNodes(x: Index) {
    forall i :: 0 <= i < |x.branches| ==> Known(x.branches[i].nodeIds, x.nodes)
  }

  ghost predicate Known(ids: seq<string>, nodes: seq<Node>) {
    forall k :: 0 <= k < |ids| ==> ids[k] in NodeIds(nodes)
  }

  ghost predicate CountsMatch(x: Index) {
    forall i :: 0 <= i < |x.nodes| ==> x.nodes[i].refCount == Holders(x.branches, x.nodes[i].nodeId)
  }

  ghost predicate TreeShaped(branches: seq<Branch>) {
    forall i, j :: 0 <= i < |branches| && 0 <= j < |branches| ==>
        SharePrefixOnly(branches[i].nodeIds, branches[j].nodeIds)
  }

  ghost predicate Forest(x: Index) {
    UniqueNodes(x.nodes) && KnownNodes(x) && CountsMatch(x) && TreeShaped(x.branches)
      && forall i :: 0 <= i < |x.nodes| ==> Holders(x.branches, x.nodes[i].nodeId) > 0
  }

  /** Nodes that the index has not seen, each counted once. */
  ghost predicate Fresh(x: Index, nodes: seq<Node>) {
    && UniqueNodes(nodes)
    && forall i :: 0 <= i < |nodes| ==> nodes[i].nodeId !in NodeIds(x.nodes) && nodes[i].refCount == 1
  }

  /** The shared nodes are the first ones of the source chain. */
  ghost predicate PrefixOf(shared: seq<Node>, ids: seq<string>) {
    |shared| <= |ids| && NodeIds(shared) == ids[..|shared|]
  }

  lemma {:induction false} UnknownHasNoHolders(branches: seq<Branch>, nodes: seq<Node>, id: string)
    requires id !in NodeIds(nodes)
    requires forall i :: 0 <= i < |branches| ==> Known(branches[i].nodeIds, nodes)
    ensures Holders(branches, id) == 0
    ensures forall i :: 0 <= i < |branches| ==> id !in branches[i].nodeIds
  {
    if branches != [] {
      UnknownHasNoHolders(branches[..|branches| - 1], nodes, id);
    }
  }

  lemma HoldersSnoc(branches: seq<Branch>, b: Branch, id: string)
    ensures Holders(branches + [b], id) == Holders(branches, id) + if id in b.nodeIds then 1 else 0
  {
    assert (branches + [b])[..|branches|] == branches;
  }

  lemma KnownGrows(ids: seq<string>, nodes: seq<Node>, more: seq<Node>)
    requires Known(ids, nodes) && NodeIds(nodes) <= NodeIds(more)
    ensures Known(ids, more)
  {
    forall k | 0 <= k < |ids| ensures ids[k] in NodeIds(more) {
      var i :| 0 <= i < |NodeIds(nodes)| && NodeIds(nodes)[i] == ids[k];
      assert NodeIds(more)[i] == ids[k];
    }
  }

  /** Adding a branch whose chain goes along an old chain for k nodes and then uses unknown nodes. */
  lemma TreeGrows(branches: seq<Branch>, nodes: seq<Node>, s: int, k: nat, b: Branch)
    requires TreeShaped(branches) && forall i :: 0 <= i < |branches| ==> Known(branches[i].nodeIds, nodes)
    requires k <= |b.nodeIds|
    requires k == 0 || (0 <= s < |branches| && k <= |branches[s].nodeIds| && b.nodeIds[..k] == branches[s].nodeIds[..k])
    requires forall p :: k <= p < |b.nodeIds| ==> b.nodeIds[p] !in NodeIds(nodes)
    requires forall p, q :: k <= p < q < |b.nodeIds| ==> b.nodeIds[p] != b.nodeIds[q]
    ensures TreeShaped(branches + [b])
  {
    hide Known, NodeIds;
    var all := branches + [b];
    forall i | 0 <= i < |branches|
      ensures SharePrefixOnly(branches[i].nodeIds, b.nodeIds) && SharePrefixOnly(b.nodeIds, branches[i].nodeIds)
    {
      NewChainShares(branches, nodes, s, k, b, i);
    }
    NewChainDistinct(branches, nodes, s, k, b);
    forall i, j | 0 <= i < |all| && 0 <= j < |all| ensures SharePrefixOnly(all[i].nodeIds, all[j].nodeIds) {
      if i < |branches| && j < |branches| { assert SharePrefixOnly(branches[i].nodeIds, branches[j].nodeIds); }
    }
  }

  lemma NewChainShares(branches: seq<Branch>, nodes: seq<Node>, s: int, k: nat, b: Branch, i: int)
    requires TreeShaped(branches) && 0 <= i < |branches| && Known(branches[i].nodeIds, nodes)
    requires k <= |b.nodeIds|
    requires k == 0 || (0 <= s < |branches| && k <= |branches[s].nodeIds| && b.nodeIds[..k] == branches[s].nodeIds[..k])
    requires forall p :: k <= p < |b.nodeIds| ==> b.nodeIds[p] !in NodeIds(nodes)
    ensures SharePrefixOnly(branches[i].nodeIds, b.nodeIds) && SharePrefixOnly(b.nodeIds, branches[i].nodeIds)
  {
    var c := branches[i].nodeIds;
    forall p, q | 0 <= p < |c| && 0 <= q < |b.nodeIds| && c[p] == b.nodeIds[q]
      ensures p == q && c[..p] == b.nodeIds[..p]
    {
      assert c[p] in NodeIds(nodes);
      assert q < k;
      var source := branches[s].nodeIds;
      assert b.nodeIds[q] == b.nodeIds[..k][q] == source[..k][q];
      assert SharePrefixOnly(c, source);
      assert b.nodeIds[..q] == b.nodeIds[..k][..q] == source[..k][..q] == source[..q];
    }
  }

  lemma NewChainDistinct(branches: seq<Branch>, nodes: seq<Node>, s: int, k: nat, b: Branch)
    requires TreeShaped(branches) && forall i :: 0 <= i < |branches| ==> Known(branches[i].nodeIds, nodes)
    requires k <= |b.nodeIds|
    requires k == 0 || (0 <= s < |branches| && k <= |branches[s].nodeIds| && b.nodeIds[..k] == branches[s].nodeIds[..k])
    requires forall p :: k <= p < |b.nodeIds| ==> b.nodeIds[p] !in NodeIds(nodes)
    requires forall p, q :: k <= p < q < |b.nodeIds| ==> b.nodeIds[p] != b.nodeIds[q]
    ensures SharePrefixOnly(b.nodeIds, b.nodeIds)
  {
    forall p, q | 0 <= p < q < |b.nodeIds| ensures b.nodeIds[p] != b.nodeIds[q] {
      if p < k {
        var source := branches[s].nodeIds;
        assert b.nodeIds[p] == b.nodeIds[..k][p] == source[p];
        assert Known(source, nodes);
        assert source[p] in NodeIds(nodes);
        if q < k {
          assert b.nodeIds[q] == b.nodeIds[..k][q] == source[q];
          assert SharePrefixOnly(source, source);
        }
      }
    }
  }

  lemma NodeIdsConcat(a: seq<Node>, b: seq<Node>)
    ensures NodeIds(a + b) == NodeIds(a) + NodeIds(b)
  {
  }

  lemma UniqueConcat(a: seq<Node>, b: seq<Node>)
    requires UniqueNodes(a) && UniqueNodes(b)
    requires forall i :: 0 <= i < |b| ==> b[i].nodeId !in NodeIds(a)
    ensures UniqueNodes(a + b)
  {
    forall i, j | 0 <= i < j < |a + b| ensures (a + b)[i].nodeId != (a + b)[j].nodeId {
      if i < |a| <= j { assert NodeIds(a)[i] == a[i].nodeId; }
    }
  }

  /** Registering a chain of new nodes keeps the forest. */
  lemma RegisterKeepsForest(x: Index, branchId: string, nodes: seq<Node>)
    requires Forest(x) && Fresh(x, nodes)
    ensures Forest(RegisterBranch(x, branchId, nodes))
  {
    var b := RegisterBranch(x, branchId, nodes).branches[|x.branches|];
    AddBranch(x, x.nodes, b, nodes, -1, 0);
  }

  /** Forking a prefix of a chain, followed by new nodes, keeps the forest. */
  lemma ForkKeepsForest(x: Index, source: string, branchId: string, shared: seq<Node>, added: seq<Node>)
    requires Forest(x) && Fresh(x, added)
    requires GetBranch(x.branches, source).Some? ==> PrefixOf(shared, GetBranch(x.branches, source).value.nodeIds)
    ensures var r := Forked(x, source, branchId, shared, added);
      && (r.Success? <==> exists b :: b in x.branches && b.branchId == source)
      && (r.Success? ==> Forest(r.value))
  {
    hide Forest;
    var from := GetBranch(x.branches, source);
    if from.Some? {
      assert from.value in x.branches;
      var s :| 0 <= s < |x.branches| && x.branches[s] == from.value;
      var r := Forked(x, source, branchId, shared, added).value;
      var b := r.branches[|x.branches|];
      assert b.nodeIds[..|shared|] == x.branches[s].nodeIds[..|shared|];
      IncrementedCounts(x, shared, b, added, s);
      AddBranch(x, Incremented(x.nodes, IdSet(shared)), b, added, s, |shared|);
    }
  }

  /** A node is counted once more exactly if the new branch holds it. */
  lemma IncrementedCounts(x: Index, shared: seq<Node>, b: Branch, added: seq<Node>, s: int)
    requires Forest(x) && Fresh(x, added) && b.nodeIds == NodeIds(shared) + NodeIds(added)
    ensures var nodes := Incremented(x.nodes, IdSet(shared));
      forall i :: 0 <= i < |nodes| ==>
        && nodes[i].nodeId == x.nodes[i].nodeId
        && nodes[i].refCount == x.nodes[i].refCount + if x.nodes[i].nodeId in b.nodeIds then 1 else 0
  {
    forall i | 0 <= i < |x.nodes| ensures x.nodes[i].nodeId in IdSet(shared) <==> x.nodes[i].nodeId in b.nodeIds {
      assert NodeIds(x.nodes)[i] == x.nodes[i].nodeId;
      assert forall k :: 0 <= k < |added| ==> NodeIds(added)[k] !in NodeIds(x.nodes);
    }
  }

  /** The common step: `nodes` are the old nodes recounted for the new branch, which then adds its own. */
  lemma AddBranch(x: Index, nodes: seq<Node>, b: Branch, added: seq<Node>, s: int, k: nat)
    requires Forest(x) && Fresh(x, added)
    requires |nodes| == |x.nodes|
    requires forall i :: 0 <= i < |nodes| ==>
      && nodes[i].nodeId == x.nodes[i].nodeId
      && nodes[i].refCount == x.nodes[i].refCount + if x.nodes[i].nodeId in b.nodeIds then 1 else 0
    requires k == 0 || (0 <= s < |x.branches| && k <= |x.branches[s].nodeIds|)
    requires |b.nodeIds| == k + |added| && b.nodeIds[k..] == NodeIds(added)
    requires k > 0 ==> b.nodeIds[..k] == x.branches[s].nodeIds[..k]
    ensures Forest(Index(x.branches + [b], nodes + added))
  {
    var y := Index(x.branches + [b], nodes + added);
    assert NodeIds(nodes) == NodeIds(x.nodes);
    NodeIdsConcat(nodes, added);
    UniqueConcat(nodes, added);
    AddedKnown(x, nodes, b, added, s, k);
    AddedCounts(x, nodes, b, added, k);
    TreeGrows(x.branches, x.nodes, s, k, b);
  }

  lemma AddedKnown(x: Index, nodes: seq<Node>, b: Branch, added: seq<Node>, s: int, k: nat)
    requires KnownNodes(x) && NodeIds(nodes) == NodeIds(x.nodes)
    requires k == 0 || (0 <= s < |x.branches| && k <= |x.branches[s].nodeIds|)
    requires |b.nodeIds| == k + |added| && b.nodeIds[k..] == NodeIds(added)
    requires k > 0 ==> b.nodeIds[..k] == x.branches[s].nodeIds[..k]
    ensures KnownNodes(Index(x.branches + [b], nodes + added))
  {
    var y := Index(x.branches + [b], nodes + added);
    NodeIdsConcat(nodes, added);
    forall i | 0 <= i < |y.branches| ensures Known(y.branches[i].nodeIds, y.nodes) {
      if i < |x.branches| {
        KnownGrows(x.branches[i].nodeIds, x.nodes, y.nodes);
      } else {
        forall j | 0 <= j < |b.nodeIds| ensures b.nodeIds[j] in NodeIds(y.nodes) {
          if j < k {
            KnownGrows(x.branches[s].nodeIds, x.nodes, y.nodes);
            assert b.nodeIds[j] == b.nodeIds[..k][j] == x.branches[s].nodeIds[j];
          } else {
            assert b.nodeIds[j] == b.nodeIds[k..][j - k];
          }
        }
      }
    }
  }

  lemma AddedCounts(x: Index, nodes: seq<Node>, b: Branch, added: seq<Node>, k: nat)
    requires Forest(x) && Fresh(x, added) && |nodes| == |x.nodes|
    requires forall i :: 0 <= i < |nodes| ==>
      && nodes[i].nodeId == x.nodes[i].nodeId
      && nodes[i].refCount == x.nodes[i].refCount + if x.nodes[i].nodeId in b.nodeIds then 1 else 0
    requires |b.nodeIds| == k + |added| && b.nodeIds[k..] == NodeIds(added)
    ensures var y := Index(x.branches + [b], nodes + added);
      CountsMatch(y) && forall i :: 0 <= i < |y.nodes| ==> Holders(y.branches, y.nodes[i].nodeId) > 0
  {
    var y := Index(x.branches + [b], nodes + added);
    forall i | 0 <= i < |y.nodes|
      ensures y.nodes[i].refCount == Holders(y.branches, y.nodes[i].nodeId) > 0
    {
      var id := y.nodes[i].nodeId;
      HoldersSnoc(x.branches, b, id);
      if i >= |nodes| {
        UnknownHasNoHolders(x.branches, x.nodes, id);
        assert b.nodeIds[k..][i - |nodes|] == id;
        assert b.nodeIds[k + i - |nodes|] == id;
      }
    }
  }

  // ----- what the forest gives -----

  lemma {:induction false} HolderExists(branches: seq<Branch>, id: string)
    requires Holders(branches, id) > 0
    ensures id in Referenced(branches)
    decreases |branches|
  {
    if id in branches[|branches| - 1].nodeIds {
      ReferencedMember(branches, |branches| - 1, id);
    } else {
      HolderExists(branches[..|branches| - 1], id);
      ReferencedPrefix(branches, id);
    }
  }

  lemma {:induction false} ReferencedMember(branches: seq<Branch>, i: nat, id: string)
    requires i < |branches| && id in branches[i].nodeIds
    ensures id in Referenced(branches)
  {
    if i > 0 { ReferencedMember(branches[1..], i - 1, id); }
  }

  lemma {:induction false} ReferencedPrefix(branches: seq<Branch>, id: string)
    requires branches != [] && id in Referenced(branches[..|branches| - 1])
    ensures id in Referenced(branches)
  {
    if |branches| > 1 && id !in branches[0].nodeIds {
      assert branches[..|branches| - 1][1..] == branches[1..][..|branches| - 2];
      ReferencedPrefix(branches[1..], id);
    }
  }

  lemma {:induction false} KeepAll(nodes: seq<Node>, referenced: set<string>)
    requires forall i :: 0 <= i < |nodes| ==> nodes[i].nodeId in referenced
    ensures KeepNodes(nodes, referenced) == nodes
  {
    if nodes != [] { KeepAll(nodes[1..], referenced); }
  }

  /** No node of a forest is garbage. */
  lemma GcRemovesNothing(x: Index)
    requires Forest(x)
    ensures Collected(x) == x
  {
    forall i | 0 <= i < |x.nodes| ensures x.nodes[i].nodeId in Referenced(x.branches) {
      HolderExists(x.branches, x.nodes[i].nodeId);
    }
    KeepAll(x.nodes, Referenced(x.branches));
  }

  /** The chain of a known branch lists its nodes, all of them. */
  lemma KnownTail(ids: seq<string>, nodes: seq<Node>)
    requires Known(ids, nodes) && ids != []
    ensures Known(ids[1..], nodes) && GetNode(nodes, ids[0]).Some?
  {
    hide NodeIds, GetNode;
  }

  lemma {:induction false} ChainOfKnown(nodes: seq<Node>, ids: seq<string>)
    requires Known(ids, nodes)
    ensures NodeIds(Chain(nodes, ids)) == ids
    ensures forall k :: 0 <= k < |ids| ==> Chain(nodes, ids)[k] in nodes
  {
    hide GetNode, Known;
    if ids == [] {
      assert NodeIds(Chain(nodes, ids)) == [];
    } else {
      KnownTail(ids, nodes);
      ChainOfKnown(nodes, ids[1..]);
      var first, rest := GetNode(nodes, ids[0]).value, Chain(nodes, ids[1..]);
      hide NodeIds;
      NodeIdsConcat([first], rest);
      OneNodeId(first);
      assert ids == [ids[0]] + ids[1..];
    }
  }

  lemma OneNodeId(n: Node)
    ensures NodeIds([n]) == [n.nodeId]
  {
  }

  /** What the first n ids of two tree-shaped chains share is all they share. */
  lemma SharedIsCommonPrefix(a: seq<string>, b: seq<string>)
    requires SharePrefixOnly(a, b)
    ensures forall id :: id in a && id in b <==> id in a[..CommonLength(a, b)]
  {
    var n := CommonLength(a, b);
    forall id | id in a && id in b ensures id in a[..n] {
      var p :| 0 <= p < |a| && a[p] == id;
      var q :| 0 <= q < |b| && b[q] == id;
      assert a[..p + 1] == a[..p] + [a[p]] && b[..p + 1] == b[..p] + [b[p]];
      CommonLengthLongest(a, b, p + 1);
      assert a[..n][p] == id;
    }
    forall id | id in a[..n] ensures id in a && id in b {
      var p :| 0 <= p < n && a[..n][p] == id;
      assert b[..n][p] == id;
    }
  }

  /** The nodes of the first chain that the second also holds. */
  ghost predicate SharedNodes(nodes: seq<Node>, a: seq<string>, b: seq<string>, shared: seq<Node>) {
    && NodeIds(shared) <= a
    && (forall k :: 0 <= k < |shared| ==> shared[k] in nodes)
    && (forall id :: id in a && id in b <==> id in NodeIds(shared))
  }

  ghost predicate ShareNothing(a: seq<string>, b: seq<string>) {
    forall id :: id in a ==> id !in b
  }

  /** The range from the first to the last of some nodes; the range constructor refuses an empty one. */
  function Span(shared: seq<Node>): Result<Option<Range>, IndexError> {
    if shared == [] then Success(None)
    else
      var start, end := shared[0].range.startToken, shared[|shared| - 1].range.endToken;
      if end <= start then Failure(InvalidRange) else Success(Some(Range(start, end, PagesOf(shared))))
  }

  lemma CommonRangeSpans(nodes: seq<Node>, a: seq<string>, b: seq<string>)
    requires Known(a, nodes) && Known(b, nodes)
    ensures NodeIds(Chain(nodes, a)) == a && CommonLength(a, b) <= |Chain(nodes, a)|
    ensures CommonRange(nodes, a, b) == Span(Chain(nodes, a)[..CommonLength(a, b)])
  {
    hide Chain, CommonLength, PagesOf, Known, NodeIds;
    ChainOfKnown(nodes, a);
    ChainOfKnown(nodes, b);
  }

  lemma CommonRangeIsShared(nodes: seq<Node>, a: seq<string>, b: seq<string>) returns (shared: seq<Node>)
    requires Known(a, nodes) && Known(b, nodes) && SharePrefixOnly(a, b)
    ensures SharedNodes(nodes, a, b, shared)
    ensures shared == [] <==> ShareNothing(a, b)
    ensures CommonRange(nodes, a, b) == Span(shared)
  {
    hide Chain, CommonLength, Known, SharePrefixOnly, CommonRange, Span;
    var chain, n := Chain(nodes, a), CommonLength(a, b);
    ChainOfKnown(nodes, a);
    CommonRangeSpans(nodes, a, b);
    SharedIsCommonPrefix(a, b);
    shared := chain[..n];
    assert NodeIds(shared) == a[..n];
    assert forall k :: 0 <= k < n ==> shared[k] in nodes;
    if n > 0 {
      assert a[..n][0] in a[..n];
      assert a[..n][0] in a && a[..n][0] in b;
    }
  }

  /** In a forest get_common_prefix returns the pages of exactly the nodes that both branches hold, in order,
    from the start of the first to the end of the last. It finds nothing exactly when they hold none in
    common, and fails exactly when the last of these nodes does not end after the first starts. */
  lemma CommonPrefixIsShared(x: Index, first: string, second: string) returns (shared: seq<Node>)
    requires Forest(x)
    requires GetBranch(x.branches, first).Some? && GetBranch(x.branches, second).Some?
    ensures var a, b := GetBranch(x.branches, first).value.nodeIds, GetBranch(x.branches, second).value.nodeIds;
      SharedNodes(x.nodes, a, b, shared) && (shared == [] <==> ShareNothing(a, b))
    ensures CommonPrefix(x, first, second) == Span(shared)
  {
    hide CommonRange, NodeIds, PagesOf, SharedNodes, ShareNothing, Known, SharePrefixOnly, Span;
    var a, b := GetBranch(x.branches, first).value, GetBranch(x.branches, second).value;
    var i :| 0 <= i < |x.branches| && x.branches[i] == a;
    var j :| 0 <= j < |x.branches| && x.branches[j] == b;
    assert SharePrefixOnly(x.branches[i].nodeIds, x.branches[j].nodeIds);
    shared := CommonRangeIsShared(x.nodes, a.nodeIds, b.nodeIds);
  }

  lemma {:induction false} GetBranchFirst(branches: seq<Branch>, id: string)
    ensures var r := GetBranch(branches, id);
      r.Some? ==> exists k :: 0 <= k < |branches| && branches[k] == r.value
                              && forall i :: 0 <= i < k ==> branches[i].branchId != id
  {
    if branches != [] && branches[0].branchId != id {
      GetBranchFirst(branches[1..], id);
      var r := GetBranch(branches[1..], id);
      if r.Some? {
        var k :| 0 <= k < |branches| - 1 && branches[1..][k] == r.value
                 && forall i :: 0 <= i < k ==> branches[1..][i].branchId != id;
        assert branches[k + 1] == r.value;
        assert forall i :: 0 < i < k + 1 ==> branches[i] == branches[1..][i - 1];
      }
    } else if branches != [] {
      assert branches[0] == GetBranch(branches, id).value;
    }
  }

  lemma {:induction false} GetBranchSnoc(branches: seq<Branch>, b: Branch, id: string)
    ensures GetBranch(branches + [b], id) ==
            if GetBranch(branches, id).Some? then GetBranch(branches, id)
            else if b.branchId == id then Some(b) else None
  {
    if branches == [] {
      assert ([b])[1..] == [];
    } else {
      GetBranchSnoc(branches[1..], b, id);
      assert (branches + [b])[1..] == branches[1..] + [b];
    }
  }

  lemma {:induction false} PagesSame(a: seq<Node>, b: seq<Node>)
    requires |a| == |b| && forall k :: 0 <= k < |a| ==> a[k].range == b[k].range
    ensures PagesOf(a) == PagesOf(b)
  {
    if a != [] { PagesSame(a[1..], b[1..]); }
  }

  lemma PagesCons(n: Node, rest: seq<Node>)
    ensures PagesOf([n] + rest) == n.range.pageIds + PagesOf(rest) && PagesOf([]) == []
  {
    assert ([n] + rest)[1..] == rest;
  }

  /** The nodes are the index's, whatever their counts. */
  ghost predicate KnownRanges(x: Index, nodes: seq<Node>) {
    forall k :: 0 <= k < |nodes| ==>
      exists i :: 0 <= i < |x.nodes| && x.nodes[i].nodeId == nodes[k].nodeId && x.nodes[i].range == nodes[k].range
  }

  lemma NotInPrefix(a: seq<string>, n: nat)
    requires SharePrefixOnly(a, a) && n < |a|
    ensures a[n] !in a[..n]
  {
  }

  lemma SameSetSamePrefix(a: seq<string>, p: seq<string>, q: seq<string>)
    requires SharePrefixOnly(a, a) && p <= a && q <= a && forall id :: id in p <==> id in q
    ensures p == q
  {
    hide SharePrefixOnly;
    assert p == a[..|p|] && q == a[..|q|];
    if |p| < |q| {
      assert q[|p|] in q;
      NotInPrefix(a, |p|);
    }
    if |q| < |p| {
      assert p[|q|] in p;
      NotInPrefix(a, |q|);
    }
  }

  /** The node of the new index that has the id of a known node has its range. */
  lemma SameRange(x: Index, r: Index, shared: seq<Node>, added: seq<Node>, n: Node, found: Node)
    requires Shares(x, shared, added, r) && UniqueNodes(r.nodes) && found in r.nodes && found.nodeId == n.nodeId
    requires exists i :: 0 <= i < |x.nodes| && x.nodes[i].nodeId == n.nodeId && x.nodes[i].range == n.range
    ensures found.range == n.range
  {
    var i :| 0 <= i < |x.nodes| && x.nodes[i].nodeId == n.nodeId && x.nodes[i].range == n.range;
    var j :| 0 <= j < |r.nodes| && r.nodes[j] == found;
    assert r.nodes[i].nodeId == r.nodes[j].nodeId;
  }

  lemma SameIdsSameRanges(x: Index, r: Index, added: seq<Node>, shared: seq<Node>, found: seq<Node>)
    requires Shares(x, shared, added, r) && UniqueNodes(r.nodes) && KnownRanges(x, shared)
    requires NodeIds(found) == NodeIds(shared) && forall k :: 0 <= k < |found| ==> found[k] in r.nodes
    ensures Span(found) == Span(shared)
  {
    hide PagesOf, Shares, UniqueNodes;
    assert |found| == |shared|;
    forall k | 0 <= k < |found| ensures found[k].range == shared[k].range {
      assert NodeIds(found)[k] == NodeIds(shared)[k];
      SameRange(x, r, shared, added, shared[k], found[k]);
    }
    PagesSame(found, shared);
  }

  /** After a fork the common prefix of the source and the new branch is the span of exactly the shared nodes. */
  lemma ForkSharesPrefix(x: Index, source: string, branchId: string, shared: seq<Node>, added: seq<Node>)
    requires Forest(x) && Fresh(x, added) && KnownRanges(x, shared)
    requires GetBranch(x.branches, source).Some? && GetBranch(x.branches, branchId).None?
    requires PrefixOf(shared, GetBranch(x.branches, source).value.nodeIds)
    ensures var r := Forked(x, source, branchId, shared, added);
      r.Success? && CommonPrefix(r.value, source, branchId) == Span(shared)
  {
    hide Forked, CommonPrefix, Span, KnownRanges, IdSet, Incremented;
    var a := GetBranch(x.branches, source).value;
    ForkOutcome(x, source, branchId, shared, added);
    var r := Forked(x, source, branchId, shared, added).value;
    ForkKeepsForest(x, source, branchId, shared, added);
    var b := r.branches[|x.branches|];
    assert r.branches == x.branches + [b];
    GetBranchSnoc(x.branches, b, source);
    GetBranchSnoc(x.branches, b, branchId);
    var found := CommonPrefixIsShared(r, source, branchId);
    SharedIdsOfFork(x, a.nodeIds, b.nodeIds, shared, added);
    var i :| 0 <= i < |x.branches| && x.branches[i] == a;
    assert SharePrefixOnly(x.branches[i].nodeIds, x.branches[i].nodeIds);
    SameSetSamePrefix(a.nodeIds, NodeIds(found), NodeIds(shared));
    SameIdsSameRanges(x, r, added, shared, found);
  }

  lemma SharedIdsOfFork(x: Index, a: seq<string>, b: seq<string>, shared: seq<Node>, added: seq<Node>)
    requires Known(a, x.nodes) && Fresh(x, added) && PrefixOf(shared, a)
    requires |b| == |shared + added| && forall k :: 0 <= k < |b| ==> b[k] == (shared + added)[k].nodeId
    ensures NodeIds(shared) <= a && forall id :: id in a && id in b <==> id in NodeIds(shared)
  {
    assert b == NodeIds(shared) + NodeIds(added);
    forall id | id in a ensures id !in NodeIds(added) {
      var k :| 0 <= k < |a| && a[k] == id;
      assert a[k] in NodeIds(x.nodes);
    }
    forall id | id in NodeIds(shared) ensures id in a {
      var k :| 0 <= k < |shared| && NodeIds(shared)[k] == id;
      assert a[..|shared|][k] == id;
    }
  }

  // ----- every index that is built this way -----

  ghost predicate RegisterStep(x: Index, y: Index, branchId: string, nodes: seq<Node>) {
    Fresh(x, nodes) && y == RegisterBranch(x, branchId, nodes)
  }

  ghost predicate ForkStep(x: Index, y: Index, source: string, branchId: string, shared: seq<Node>, added: seq<Node>) {
    && Fresh(x, added) && Forked(x, source, branchId, shared, added) == Success(y)
    && PrefixOf(shared, GetBranch(x.branches, source).value.nodeIds)
  }

  ghost predicate Step(x: Index, y: Index) {
    || (exists branchId, nodes :: RegisterStep(x, y, branchId, nodes))
    || (exists source, branchId, shared, added :: ForkStep(x, y, source, branchId, shared, added))
    || y == Collected(x)
  }

  ghost predicate Built(xs: seq<Index>) {
    xs != [] && xs[0] == Index([], []) && forall i :: 0 <= i < |xs| - 1 ==> Step(xs[i], xs[i + 1])
  }

  /** Node ids are unique, every ref_count is the number of branches that hold the node, chains share exactly
    a common prefix, and nothing is garbage. */
  lemma {:induction false} BuiltIsForest(xs: seq<Index>, i: nat)
    requires Built(xs) && i < |xs|
    ensures Forest(xs[i]) && Collected(xs[i]) == xs[i]
  {
    hide Forest, Collected, Forked, Fresh, PrefixOf;
    if i == 0 {
      EmptyForest();
    } else {
      BuiltIsForest(xs, i - 1);
      var x, y := xs[i - 1], xs[i];
      assert Step(xs[i - 1], xs[i - 1 + 1]);
      if branchId, nodes :| RegisterStep(x, y, branchId, nodes) {
        RegisterKeepsForest(x, branchId, nodes);
      } else if source, branchId, shared, added :| ForkStep(x, y, source, branchId, shared, added) {
        ForkKeepsForest(x, source, branchId, shared, added);
      }
    }
    GcRemovesNothing(xs[i]);
  }

  lemma EmptyForest()
    ensures Forest(Index([], []))
  {
  }
}
