/**
 Lists of configured nodes: grouping by shard, the column-major interleaving of shards, and its undoing
 (initAllNodesSlice and its callers in observer/baseNodeProvider.go, computeInitialNodeList in
 observer/holder/nodesHolder.go).
 */
module NodeLists {
  import opened Basics

  datatype NodeConfig = NodeConfig(shardId: Shard, address: string, isFallback: bool, isSnapshotless: bool)

  type Sharded = map<Shard, seq<NodeConfig>>

  // ----- Filters -----

  /** What a list of nodes is filtered by. */
  datatype Test = InShard(shard: Shard) | OfClass(fallback: bool, snapshotless: bool) {
    predicate Passes(n: NodeConfig) {
      match this
      case InShard(s) => n.shardId == s
      case OfClass(f, sl) => n.isFallback == f && n.isSnapshotless == sl
    }
  }

  function Filter(t: Test, xs: seq<NodeConfig>): seq<NodeConfig> {
    if xs == [] then []
    else FilterOne(Filter(t, xs[..|xs| - 1]), t, xs[|xs| - 1])
  }

  function FilterOne(xs: seq<NodeConfig>, t: Test, x: NodeConfig): seq<NodeConfig> {
    if t.Passes(x) then xs + [x] else xs
  }

  lemma FilterSnoc(t: Test, xs: seq<NodeConfig>, x: NodeConfig)
    ensures Filter(t, xs + [x]) == FilterOne(Filter(t, xs), t, x)
  {
    assert (xs + [x])[..|xs|] == xs;
  }

  lemma {:induction false} FilterConcat(t: Test, xs: seq<NodeConfig>, ys: seq<NodeConfig>)
    ensures Filter(t, xs + ys) == Filter(t, xs) + Filter(t, ys)
  {
    if ys == [] {
      assert xs + ys == xs;
    } else {
      var init, last := ys[..|ys| - 1], ys[|ys| - 1];
      assert xs + ys == (xs + init) + [last];
      FilterConcat(t, xs, init);
      FilterSnoc(t, xs + init, last);
    }
  }

  lemma {:induction false} FilterCommutes(t: Test, u: Test, xs: seq<NodeConfig>)
    ensures Filter(t, Filter(u, xs)) == Filter(u, Filter(t, xs))
  {
    if xs != [] {
      var init, last := xs[..|xs| - 1], xs[|xs| - 1];
      FilterCommutes(t, u, init);
      FilterSnoc(t, Filter(u, init), last);
      FilterSnoc(u, Filter(t, init), last);
    }
  }

  /** A filter keeps the nodes that pass, in their order. */
  lemma FilterInFull(t: Test, xs: seq<NodeConfig>, x: NodeConfig)
    ensures Filter(t, []) == []
    ensures var passes := if t.InShard? then x.shardId == t.shard
                          else x.isFallback == t.fallback && x.isSnapshotless == t.snapshotless;
            Filter(t, xs + [x]) == Filter(t, xs) + if passes then [x] else []
  {
    FilterSnoc(t, xs, x);
  }

  lemma {:induction false} FilterMember(t: Test, xs: seq<NodeConfig>, x: NodeConfig)
    ensures x in Filter(t, xs) <==> x in xs && t.Passes(x)
  {
    if xs != [] {
      var init, last := xs[..|xs| - 1], xs[|xs| - 1];
      FilterMember(t, init, x);
      assert x in xs <==> x in init || x == last;
    }
  }

  // ----- Grouping -----

  /** Every node is filed under its own shard and no shard is empty. */
  ghost predicate WellSharded(m: Sharded) {
    && (forall s :: s in m ==> m[s] != [])
    && (forall s, j :: s in m && 0 <= j < |m[s]| ==> m[s][j].shardId == s)
  }

  /** `m` holds, for every shard, its nodes in their order. */
  ghost predicate Grouped(m: Sharded, nodes: seq<NodeConfig>) {
    forall s :: NodesIn(m, s) == Filter(InShard(s), nodes) && (s in m <==> NodesIn(m, s) != [])
  }

  function NodesIn(m: Sharded, s: Shard): seq<NodeConfig> {
    if s in m then m[s] else []
  }

  lemma GroupGrows(m: Sharded, nodes: seq<NodeConfig>, node: NodeConfig)
    requires Grouped(m, nodes)
    ensures Grouped(m[node.shardId := NodesIn(m, node.shardId) + [node]], nodes + [node])
  {
    var m' := m[node.shardId := NodesIn(m, node.shardId) + [node]];
    forall s ensures NodesIn(m', s) == Filter(InShard(s), nodes + [node]) && (s in m' <==> NodesIn(m', s) != []) {
      FilterSnoc(InShard(s), nodes, node);
      assert NodesIn(m, s) == Filter(InShard(s), nodes);
    }
  }

  lemma {:induction false} FilteredPasses(t: Test, xs: seq<NodeConfig>, j: nat)
    requires j < |Filter(t, xs)|
    ensures t.Passes(Filter(t, xs)[j])
  {
    var init := xs[..|xs| - 1];
    if j < |Filter(t, init)| {
      FilteredPasses(t, init, j);
    }
  }

  lemma {:induction false} FilterIncluded(t: Test, xs: seq<NodeConfig>, j: nat) returns (i: nat)
    requires j < |Filter(t, xs)|
    ensures i < |xs| && xs[i] == Filter(t, xs)[j] && t.Passes(xs[i])
  {
    var n := |xs| - 1;
    if j < |Filter(t, xs[..n])| {
      i := FilterIncluded(t, xs[..n], j);
    } else {
      i := n;
    }
  }

  method ToShardedMap(nodes: seq<NodeConfig>) returns (m: Sharded)
    ensures Grouped(m, nodes) && WellSharded(m)
  {
    m := map[];
    for i := 0 to |nodes|
      invariant Grouped(m, nodes[..i])
    {
      var node := nodes[i];
      assert nodes[..i + 1] == nodes[..i] + [node];
      GroupGrows(m, nodes[..i], node);
      m := m[node.shardId := (if node.shardId in m then m[node.shardId] else []) + [node]];
    }
    assert nodes[..|nodes|] == nodes;
    GroupedIsWellSharded(m, nodes);
  }

  lemma GroupedIsWellSharded(m: Sharded, nodes: seq<NodeConfig>)
    requires Grouped(m, nodes)
    ensures WellSharded(m)
  {
    forall s, j | s in m && 0 <= j < |m[s]| ensures m[s][j].shardId == s {
      assert NodesIn(m, s) == Filter(InShard(s), nodes);
      FilteredPasses(InShard(s), nodes, j);
    }
    forall s | s in m ensures m[s] != [] {
      assert NodesIn(m, s) == m[s];
    }
  }

  /** The identifiers are those of the shards of `m`. */
  ghost predicate Enumerates(ids: seq<Shard>, m: Sharded) {
    && (forall j :: 0 <= j < |ids| ==> ids[j] in m)
    && (forall s :: s in m ==> s in ids)
  }

  predicate Increasing(ids: seq<Shard>) {
    forall i, j :: 0 <= i < j < |ids| ==> ids[i] < ids[j]
  }

  lemma {:induction false} LeastShard(shards: set<Shard>) returns (least: Shard)
    requires shards != {}
    ensures least in shards && forall x :: x in shards ==> least <= x
    decreases shards
  {
    var s :| s in shards;
    var rest := shards - {s};
    assert shards == rest + {s};
    if rest == {} {
      least := s;
    } else {
      var r := LeastShard(rest);
      least := if r < s then r else s;
    }
  }

  lemma IncreasingSnoc(ids: seq<Shard>, s: Shard)
    requires Increasing(ids) && forall x :: x in ids ==> x < s
    ensures Increasing(ids + [s])
    ensures forall x :: x in ids + [s] <==> x in ids || x == s
  {
    assert forall i :: 0 <= i < |ids| ==> ids[i] in ids;
  }

  /** `getSortedShardIDsSlice`. */
  method SortedShardIds(m: Sharded) returns (ids: seq<Shard>)
    ensures Increasing(ids)
    ensures Enumerates(ids, m)
  {
    ids := [];
    var pending := m.Keys;
    while pending != {}
      invariant pending <= m.Keys && Increasing(ids)
      invariant forall s :: s in ids <==> s in m && s !in pending
      invariant forall s, x :: s in ids && x in pending ==> s < x
      decreases pending
    {
      ghost var least := LeastShard(pending);
      var s :| s in pending && forall x :: x in pending ==> s <= x;
      IncreasingSnoc(ids, s);
      ids := ids + [s];
      pending := pending - {s};
    }
  }

  // ----- Interleaving -----

  /** The `i`-th nodes of the first `k` shards, where they exist. */
  function Column(m: Sharded, ids: seq<Shard>, i: nat, k: nat): seq<NodeConfig>
    requires k <= |ids| && forall j :: 0 <= j < |ids| ==> ids[j] in m
  {
    if k == 0 then []
    else if i < |m[ids[k - 1]]| then Column(m, ids, i, k - 1) + [m[ids[k - 1]][i]]
    else Column(m, ids, i, k - 1)
  }

  /** The first `n` columns. */
  function Columns(m: Sharded, ids: seq<Shard>, n: nat): seq<NodeConfig>
    requires forall j :: 0 <= j < |ids| ==> ids[j] in m
  {
    if n == 0 then [] else Columns(m, ids, n - 1) + Column(m, ids, n - 1, |ids|)
  }

  /** All shards are exhausted after `n` columns. */
  predicate Exhausted(m: Sharded, n: nat) {
    forall s :: s in m ==> |m[s]| <= n
  }

  datatype Split = Split(eligible: seq<NodeConfig>, fallback: seq<NodeConfig>,
                         eligibleSnapshotless: seq<NodeConfig>, fallbackSnapshotless: seq<NodeConfig>)

  ghost predicate Splits(f: Split, nodes: seq<NodeConfig>) {
    && f.eligible == Filter(OfClass(false, false), nodes)
    && f.fallback == Filter(OfClass(true, false), nodes)
    && f.eligibleSnapshotless == Filter(OfClass(false, true), nodes)
    && f.fallbackSnapshotless == Filter(OfClass(true, true), nodes)
  }

  method AddNode(ghost nodes: seq<NodeConfig>, f: Split, node: NodeConfig) returns (f': Split)
    requires Splits(f, nodes)
    ensures Splits(f', nodes + [node])
  {
    FilterSnoc(OfClass(false, false), nodes, node);
    FilterSnoc(OfClass(true, false), nodes, node);
    FilterSnoc(OfClass(false, true), nodes, node);
    FilterSnoc(OfClass(true, true), nodes, node);
    if node.isSnapshotless {
      if node.isFallback {
        f' := f.(fallbackSnapshotless := f.fallbackSnapshotless + [node]);
      } else {
        f' := f.(eligibleSnapshotless := f.eligibleSnapshotless + [node]);
      }
    } else if node.isFallback {
      f' := f.(fallback := f.fallback + [node]);
    } else {
      f' := f.(eligible := f.eligible + [node]);
    }
  }

  /** One round over the shards: takes the `i`-th node of each, and notes the shards that have none. */
  method AddColumn(m: Sharded, ids: seq<Shard>, i: nat, f: Split, finished: set<Shard>)
    returns (f': Split, finished': set<Shard>)
    requires Enumerates(ids, m)
    requires Splits(f, Columns(m, ids, i))
    requires finished <= m.Keys && forall s :: s in finished ==> |m[s]| <= i
    ensures Splits(f', Columns(m, ids, i + 1))
    ensures finished' <= m.Keys && forall s :: s in m ==> (s in finished' <==> |m[s]| <= i)
  {
    f', finished' := f, finished;
    ghost var before := Columns(m, ids, i);
    assert before + Column(m, ids, i, 0) == before;
    for k := 0 to |ids|
      invariant Splits(f', before + Column(m, ids, i, k))
      invariant FinishedUpTo(m, ids, i, k, finished')
    {
      if i >= |m[ids[k]]| {
        finished' := finished' + {ids[k]};
      } else {
        var node := m[ids[k]][i];
        f' := AddNode(before + Column(m, ids, i, k), f', node);
        assert before + Column(m, ids, i, k + 1) == (before + Column(m, ids, i, k)) + [node];
      }
    }
    AllFinished(m, ids, i, finished');
  }

  ghost predicate FinishedUpTo(m: Sharded, ids: seq<Shard>, i: nat, k: nat, finished: set<Shard>)
    requires k <= |ids| && forall j :: 0 <= j < |ids| ==> ids[j] in m
  {
    && finished <= m.Keys
    && (forall s :: s in finished ==> |m[s]| <= i)
    && (forall j :: 0 <= j < k && |m[ids[j]]| <= i ==> ids[j] in finished)
  }

  lemma AllFinished(m: Sharded, ids: seq<Shard>, i: nat, finished: set<Shard>)
    requires Enumerates(ids, m) && FinishedUpTo(m, ids, i, |ids|, finished)
    ensures finished <= m.Keys && forall s :: s in m ==> (s in finished <==> |m[s]| <= i)
  {
    forall s | s in m ensures s in finished <==> |m[s]| <= i {
      var j :| 0 <= j < |ids| && ids[j] == s;
    }
  }

  /** The split of all nodes, taken from the shards in increasing order: the first node of each, then the
      second ones, and so on. */
  ghost predicate Interleaved(m: Sharded, f: Split) {
    exists ids, n :: InterleavedAs(m, f, ids, n)
  }

  ghost predicate InterleavedAs(m: Sharded, f: Split, ids: seq<Shard>, n: nat) {
    Increasing(ids) && Enumerates(ids, m) && Exhausted(m, n) && Splits(f, Columns(m, ids, n))
  }

  /** Splits all nodes by class; stops at the first round in which every shard has run out. */
  method InitAllNodesSlice(m: Sharded) returns (f: Split)
    ensures Interleaved(m, f)
  {
    var shardIds := SortedShardIds(m);
    f := Split([], [], [], []);
    var finished: set<Shard> := {};
    var i := 0;
    ghost var longest := Longest(m, m.Keys);
    while true
      invariant i <= longest
      invariant Splits(f, Columns(m, shardIds, i))
      invariant finished <= m.Keys && forall s :: s in finished ==> |m[s]| <= i
      decreases longest - i
    {
      f, finished := AddColumn(m, shardIds, i, f, finished);
      i := i + 1;
      if |finished| == |m| {
        SubsetOfFullSize(finished, m.Keys);
        break;
      }
      SomeShardIsLonger(m, finished);
    }
    assert InterleavedAs(m, f, shardIds, i);
  }

  /** The length of the longest list among some shards. */
  ghost function Longest(m: Sharded, shards: set<Shard>): (l: nat)
    requires shards <= m.Keys
    ensures forall s :: s in shards ==> |m[s]| <= l
  {
    if shards == {} then 0
    else
      var s :| s in shards;
      var rest := Longest(m, shards - {s});
      if |m[s]| >= rest then |m[s]| else rest
  }

  lemma SomeShardIsLonger(m: Sharded, finished: set<Shard>)
    requires finished <= m.Keys && |finished| != |m|
    ensures exists s :: s in m && s !in finished
  {
    assert finished != m.Keys;
  }

  lemma SubsetOfFullSize(a: set<Shard>, b: set<Shard>)
    requires a <= b && |a| == |b|
    ensures a == b
  {
    assert b == a + (b - a);
    assert |b| == |a| + |b - a|;
  }

  // ----- Regrouping undoes interleaving -----

  function At(xs: seq<NodeConfig>, n: nat): seq<NodeConfig> {
    if n < |xs| then [xs[n]] else []
  }

  function Prefix(xs: seq<NodeConfig>, n: nat): seq<NodeConfig> {
    if n < |xs| then xs[..n] else xs
  }

  lemma PrefixSteps(xs: seq<NodeConfig>, n: nat)
    ensures if n == 0 then Prefix(xs, n) == [] else Prefix(xs, n - 1) + At(xs, n - 1) == Prefix(xs, n)
  {
  }

  predicate Within(ids: seq<Shard>, k: nat, s: Shard)
    requires k <= |ids|
  {
    exists j :: 0 <= j < k && ids[j] == s
  }

  lemma WithinSteps(ids: seq<Shard>, k: nat, s: Shard)
    requires 0 < k <= |ids| && Increasing(ids)
    ensures Within(ids, k, s) <==> Within(ids, k - 1, s) || ids[k - 1] == s
    ensures ids[k - 1] == s ==> !Within(ids, k - 1, s)
  {
  }

  lemma ColumnSteps(m: Sharded, ids: seq<Shard>, i: nat, k: nat, s: Shard)
    requires WellSharded(m) && Enumerates(ids, m) && 0 < k <= |ids|
    ensures Filter(InShard(s), Column(m, ids, i, k)) ==
            if ids[k - 1] == s then Filter(InShard(s), Column(m, ids, i, k - 1)) + At(m[s], i)
            else Filter(InShard(s), Column(m, ids, i, k - 1))
  {
    var id := ids[k - 1];
    if i < |m[id]| {
      FilterSnoc(InShard(s), Column(m, ids, i, k - 1), m[id][i]);
    }
  }

  lemma {:induction false} ShardOfColumn(m: Sharded, ids: seq<Shard>, i: nat, k: nat, s: Shard)
    requires WellSharded(m) && Increasing(ids) && Enumerates(ids, m) && k <= |ids|
    ensures Filter(InShard(s), Column(m, ids, i, k)) == if Within(ids, k, s) then At(NodesIn(m, s), i) else []
  {
    if k > 0 {
      ShardOfColumn(m, ids, i, k - 1, s);
      ColumnSteps(m, ids, i, k, s);
      WithinSteps(ids, k, s);
      if ids[k - 1] == s {
        assert s in m && [] + At(m[s], i) == At(m[s], i);
      }
    }
  }

  lemma NextColumn(m: Sharded, ids: seq<Shard>, n: nat, s: Shard)
    requires WellSharded(m) && Increasing(ids) && Enumerates(ids, m)
    ensures Filter(InShard(s), Columns(m, ids, n + 1)) ==
            Filter(InShard(s), Columns(m, ids, n)) + At(NodesIn(m, s), n)
  {
    ShardOfColumn(m, ids, n, |ids|, s);
    assert s in m <==> Within(ids, |ids|, s);
    FilterConcat(InShard(s), Columns(m, ids, n), Column(m, ids, n, |ids|));
  }

  lemma {:induction false} ShardOfColumns(m: Sharded, ids: seq<Shard>, n: nat, s: Shard)
    requires WellSharded(m) && Increasing(ids) && Enumerates(ids, m)
    ensures Filter(InShard(s), Columns(m, ids, n)) == Prefix(NodesIn(m, s), n)
  {
    if n > 0 {
      ShardOfColumns(m, ids, n - 1, s);
      NextColumn(m, ids, n - 1, s);
    }
    PrefixSteps(NodesIn(m, s), n);
  }

  /** A class of the interleaved nodes, looked at shard by shard, is that class of the shard's own nodes, in
      the order they were configured in. */
  lemma InterleaveThenRegroup(m: Sharded, ids: seq<Shard>, n: nat, t: Test, s: Shard)
    requires WellSharded(m) && Increasing(ids) && Enumerates(ids, m) && Exhausted(m, n)
    ensures Filter(InShard(s), Filter(t, Columns(m, ids, n))) == Filter(t, NodesIn(m, s))
  {
    FilterCommutes(InShard(s), t, Columns(m, ids, n));
    ShardOfColumns(m, ids, n, s);
  }

  lemma FilterOneCounts(xs: seq<NodeConfig>, t: Test, x: NodeConfig)
    ensures multiset(FilterOne(xs, t, x)) == multiset(xs) + if t.Passes(x) then multiset{x} else multiset{}
  {
  }

  /** The four classes partition the nodes. */
  lemma {:induction false} ClassesPartition(nodes: seq<NodeConfig>)
    ensures multiset(nodes) ==
            multiset(Filter(OfClass(false, false), nodes)) + multiset(Filter(OfClass(true, false), nodes)) +
            multiset(Filter(OfClass(false, true), nodes)) + multiset(Filter(OfClass(true, true), nodes))
  {
    if nodes != [] {
      var init, last := nodes[..|nodes| - 1], nodes[|nodes| - 1];
      ClassesPartition(init);
      assert nodes == init + [last];
      FilterOneCounts(Filter(OfClass(false, false), init), OfClass(false, false), last);
      FilterOneCounts(Filter(OfClass(true, false), init), OfClass(true, false), last);
      FilterOneCounts(Filter(OfClass(false, true), init), OfClass(false, true), last);
      FilterOneCounts(Filter(OfClass(true, true), init), OfClass(true, true), last);
    }
  }
}
