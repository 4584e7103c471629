/**
 The holder of a pool of nodes with its lazily filled cache (observer/holder/nodesHolder.go). The nodes are
 heap objects: other components change their sync flag in place.
 */
module NodeHolders {
  import opened Basics
  import opened Numerals
  import opened NodeLists

  class NodeData {
    const shardId: Shard
    const address: string
    const isFallback: bool
    const isSnapshotless: bool
    var isSynced: bool
    var isReachable: bool

    /** A clone of a configured node, taken to be synced and reachable. */
    constructor (config: NodeConfig)
      ensures Config() == config && isSynced && isReachable
      ensures shardId == config.shardId && address == config.address
      ensures isFallback == config.isFallback && isSnapshotless == config.isSnapshotless
    {
      shardId, address := config.shardId, config.address;
      isFallback, isSnapshotless := config.isFallback, config.isSnapshotless;
      isSynced, isReachable := true, true;
    }

    function Config(): NodeConfig {
      NodeConfig(shardId, address, isFallback, isSnapshotless)
    }
  }

  // ----- The four classes of nodes and their cache keys -----

  datatype Kind = Synced | OutOfSync | SyncedFallback | OutOfSyncFallback

  function CacheName(kind: Kind): string {
    match kind
    case Synced => "syncedNodes"
    case OutOfSync => "outOfSyncNodes"
    case SyncedFallback => "syncedFallbackNodes"
    case OutOfSyncFallback => "outOfSyncFallbackNodes"
  }

  function CacheKey(kind: Kind, shard: Shard): string {
    CacheName(kind) + "_" + Decimal(shard)
  }

  /** No two lists share a cache key. */
  lemma CacheKeyInjective(kind: Kind, shard: Shard, kind': Kind, shard': Shard)
    requires CacheKey(kind, shard) == CacheKey(kind', shard')
    ensures kind == kind' && shard == shard'
  {
    var n, n' := CacheName(kind), CacheName(kind');
    UnderscoreEndsName(kind, shard);
    UnderscoreEndsName(kind', shard');
    assert |n| == |n'|;
    assert n == CacheKey(kind, shard)[..|n|] && n' == CacheKey(kind', shard')[..|n'|];
    NamesDiffer(kind, kind');
    assert Decimal(shard) == CacheKey(kind, shard)[|n| + 1..] && Decimal(shard') == CacheKey(kind', shard')[|n'| + 1..];
    DecimalInjective(shard, shard');
  }

  lemma UnderscoreEndsName(kind: Kind, shard: Shard)
    ensures var key, n := CacheKey(kind, shard), CacheName(kind);
            key[|n|] == '_' && forall i :: 0 <= i < |n| ==> key[i] != '_'
  {
    var n := CacheName(kind);
    assert forall i :: 0 <= i < |n| ==> n[i] != '_';
  }

  lemma NamesDiffer(kind: Kind, kind': Kind)
    ensures |CacheName(kind)| == |CacheName(kind')| ==> kind == kind'
  {
  }

  /** `areCompatibleParameters`. */
  predicate Matches(kind: Kind, isSynced: bool, isFallback: bool) {
    match kind
    case SyncedFallback => isSynced && isFallback
    case OutOfSyncFallback => !isSynced && isFallback
    case Synced => isSynced && !isFallback
    case OutOfSync => !isSynced && !isFallback
  }

  /** `getCacheType`. */
  function KindOf(isSynced: bool, isFallback: bool): Kind {
    if isFallback then (if isSynced then SyncedFallback else OutOfSyncFallback)
    else if isSynced then Synced else OutOfSync
  }

  /** Every node is of exactly one kind. */
  lemma ExactlyOneKind(kind: Kind, isSynced: bool, isFallback: bool)
    ensures Matches(kind, isSynced, isFallback) <==> kind == KindOf(isSynced, isFallback)
  {
  }

  // ----- Selections from a list of nodes -----

  /** The nodes of a kind, given which nodes are synced. */
  function Select(kind: Kind, nodes: seq<NodeData>, synced: set<NodeData>): seq<NodeData> {
    if nodes == [] then []
    else SelectOne(Select(kind, nodes[..|nodes| - 1], synced), kind, nodes[|nodes| - 1], synced)
  }

  function SelectOne(selected: seq<NodeData>, kind: Kind, n: NodeData, synced: set<NodeData>): seq<NodeData> {
    if Matches(kind, n in synced, n.isFallback) then selected + [n] else selected
  }

  /** All nodes, kind by kind, in the order in which a sync round reads them. */
  function Regrouped(nodes: seq<NodeData>, synced: set<NodeData>): seq<NodeData> {
    Select(Synced, nodes, synced) + Select(OutOfSync, nodes, synced) +
    Select(SyncedFallback, nodes, synced) + Select(OutOfSyncFallback, nodes, synced)
  }

  lemma SelectOneCounts(selected: seq<NodeData>, kind: Kind, n: NodeData, synced: set<NodeData>)
    ensures multiset(SelectOne(selected, kind, n, synced)) ==
            multiset(selected) + if Matches(kind, n in synced, n.isFallback) then multiset{n} else multiset{}
  {
  }

  lemma {:induction false} RegroupedConserves(nodes: seq<NodeData>, synced: set<NodeData>)
    ensures multiset(Regrouped(nodes, synced)) == multiset(nodes)
  {
    if nodes != [] {
      var init, last := nodes[..|nodes| - 1], nodes[|nodes| - 1];
      RegroupedConserves(init, synced);
      assert nodes == init + [last];
      SelectOneCounts(Select(Synced, init, synced), Synced, last, synced);
      SelectOneCounts(Select(OutOfSync, init, synced), OutOfSync, last, synced);
      SelectOneCounts(Select(SyncedFallback, init, synced), SyncedFallback, last, synced);
      SelectOneCounts(Select(OutOfSyncFallback, init, synced), OutOfSyncFallback, last, synced);
    }
  }

  /** A selection is of the nodes whose flags are those of the kind, in their order. */
  lemma SelectInFull(kind: Kind, nodes: seq<NodeData>, node: NodeData, synced: set<NodeData>)
    ensures Select(kind, [], synced) == []
    ensures var selected := && (node in synced <==> kind == Synced || kind == SyncedFallback)
                            && (node.isFallback <==> kind == SyncedFallback || kind == OutOfSyncFallback);
            Select(kind, nodes + [node], synced) == Select(kind, nodes, synced) + if selected then [node] else []
  {
    assert (nodes + [node])[..|nodes|] == nodes;
  }

  lemma {:induction false} SelectMember(kind: Kind, nodes: seq<NodeData>, synced: set<NodeData>, n: NodeData)
    ensures n in Select(kind, nodes, synced) <==>
            && n in nodes
            && (n in synced <==> kind == Synced || kind == SyncedFallback)
            && (n.isFallback <==> kind == SyncedFallback || kind == OutOfSyncFallback)
  {
    if nodes != [] {
      var init, last := nodes[..|nodes| - 1], nodes[|nodes| - 1];
      SelectMember(kind, init, synced, n);
      assert n in nodes <==> n in init || n == last;
    }
  }

  lemma RegroupedAt(nodes: seq<NodeData>, synced: set<NodeData>, i: nat)
    requires i < |Regrouped(nodes, synced)|
    ensures var x, a := Regrouped(nodes, synced)[i], |Select(Synced, nodes, synced)|;
            var b, c := |Select(OutOfSync, nodes, synced)|, |Select(SyncedFallback, nodes, synced)|;
            && (x.isFallback <==> a + b <= i)
            && (x in synced <==> i < a || a + b <= i < a + b + c)
  {
    var a, b := Select(Synced, nodes, synced), Select(OutOfSync, nodes, synced);
    var c, d := Select(SyncedFallback, nodes, synced), Select(OutOfSyncFallback, nodes, synced);
    var x := Regrouped(nodes, synced)[i];
    if i < |a| {
      SelectMember(Synced, nodes, synced, x);
      assert x == a[i] && x in Select(Synced, nodes, synced);
    } else if i < |a| + |b| {
      SelectMember(OutOfSync, nodes, synced, x);
      assert x == b[i - |a|] && x in Select(OutOfSync, nodes, synced);
    } else if i < |a| + |b| + |c| {
      SelectMember(SyncedFallback, nodes, synced, x);
      assert x == c[i - |a| - |b|] && x in Select(SyncedFallback, nodes, synced);
    } else {
      SelectMember(OutOfSyncFallback, nodes, synced, x);
      assert x == d[i - |a| - |b| - |c|] && x in Select(OutOfSyncFallback, nodes, synced);
    }
  }

  /** Regrouped, ordinary nodes come before fallback ones, and among either, synced ones before others. */
  lemma RegroupedInOrder(nodes: seq<NodeData>, synced: set<NodeData>, i: nat, j: nat)
    requires i < j < |Regrouped(nodes, synced)|
    ensures var x, y := Regrouped(nodes, synced)[i], Regrouped(nodes, synced)[j];
            && (x.isFallback ==> y.isFallback)
            && (x.isFallback == y.isFallback && y in synced ==> x in synced)
  {
    RegroupedAt(nodes, synced, i);
    RegroupedAt(nodes, synced, j);
  }

  /** All elements of `xs` are among the nodes. */
  predicate AllIn(xs: seq<NodeData>, nodes: seq<NodeData>) {
    forall i :: 0 <= i < |xs| ==> xs[i] in nodes
  }

  /** All nodes belong to one shard and one availability class. */
  predicate AllOf(nodes: seq<NodeData>, s: Shard, snapshotless: bool) {
    forall i :: 0 <= i < |nodes| ==> nodes[i].shardId == s && nodes[i].isSnapshotless == snapshotless
  }

  lemma AllInAllOf(xs: seq<NodeData>, nodes: seq<NodeData>, s: Shard, snapshotless: bool)
    requires AllIn(xs, nodes) && AllOf(nodes, s, snapshotless)
    ensures AllOf(xs, s, snapshotless)
  {
  }

  lemma SameMultisetIncluded(xs: seq<NodeData>, nodes: seq<NodeData>)
    requires multiset(xs) == multiset(nodes)
    ensures AllIn(xs, nodes) && |xs| == |nodes|
  {
    forall i | 0 <= i < |xs| ensures xs[i] in nodes {
      assert xs[i] in multiset(xs);
    }
    assert |multiset(xs)| == |xs| && |multiset(nodes)| == |nodes|;
  }

  lemma RegroupedIncluded(nodes: seq<NodeData>, synced: set<NodeData>)
    ensures AllIn(Regrouped(nodes, synced), nodes) && |Regrouped(nodes, synced)| == |nodes|
  {
    RegroupedConserves(nodes, synced);
    SameMultisetIncluded(Regrouped(nodes, synced), nodes);
  }

  lemma {:induction false} SelectIncluded(kind: Kind, nodes: seq<NodeData>, synced: set<NodeData>)
    ensures AllIn(Select(kind, nodes, synced), nodes)
  {
    if nodes != [] {
      var init, last := nodes[..|nodes| - 1], nodes[|nodes| - 1];
      SelectIncluded(kind, init, synced);
      assert nodes == init + [last];
    }
  }

  /** The reachable nodes of a list. */
  function Reachable(nodes: seq<NodeData>): seq<NodeData>
    reads nodes
  {
    if nodes == [] then []
    else Reachable(nodes[..|nodes| - 1]) + if nodes[|nodes| - 1].isReachable then [nodes[|nodes| - 1]] else []
  }

  lemma {:induction false} AllReachable(nodes: seq<NodeData>)
    requires forall i :: 0 <= i < |nodes| ==> nodes[i].isReachable
    ensures Reachable(nodes) == nodes
  {
    if nodes != [] {
      AllReachable(nodes[..|nodes| - 1]);
    }
  }

  /** `filterReachableNodes`. */
  method FilterReachable(nodes: seq<NodeData>) returns (reachable: seq<NodeData>)
    ensures reachable == Reachable(nodes)
  {
    reachable := [];
    for i := 0 to |nodes|
      invariant reachable == Reachable(nodes[..i])
    {
      assert nodes[..i + 1][..i] == nodes[..i];
      if nodes[i].isReachable {
        reachable := reachable + [nodes[i]];
      }
    }
    assert nodes[..|nodes|] == nodes;
  }

  /** The nodes of one shard and one availability class. */
  function OfShard(nodes: seq<NodeData>, shard: Shard, snapshotless: bool): seq<NodeData> {
    if nodes == [] then []
    else
      var last := nodes[|nodes| - 1];
      OfShard(nodes[..|nodes| - 1], shard, snapshotless) +
      if last.shardId == shard && last.isSnapshotless == snapshotless then [last] else []
  }

  /** The nodes filed under a shard are those of the shard and the class, in their order. */
  lemma OfShardSnoc(nodes: seq<NodeData>, node: NodeData, shard: Shard, snapshotless: bool)
    ensures OfShard([], shard, snapshotless) == []
    ensures OfShard(nodes + [node], shard, snapshotless) ==
            OfShard(nodes, shard, snapshotless) +
            if node.shardId == shard && node.isSnapshotless == snapshotless then [node] else []
  {
    assert (nodes + [node])[..|nodes|] == nodes;
  }

  lemma {:induction false} OfShardConcat(xs: seq<NodeData>, ys: seq<NodeData>, shard: Shard, snapshotless: bool)
    ensures OfShard(xs + ys, shard, snapshotless) == OfShard(xs, shard, snapshotless) + OfShard(ys, shard, snapshotless)
  {
    if ys == [] {
      assert xs + ys == xs;
    } else {
      var init, last := ys[..|ys| - 1], ys[|ys| - 1];
      assert xs + ys == (xs + init) + [last] && ys == init + [last];
      OfShardConcat(xs, init, shard, snapshotless);
      OfShardSnoc(xs + init, last, shard, snapshotless);
    }
  }

  /** A list that is all of one shard and class is taken whole or not at all. */
  lemma {:induction false} OfShardUniform(nodes: seq<NodeData>, s: Shard, sl: bool, shard: Shard, snapshotless: bool)
    requires AllOf(nodes, s, sl)
    ensures OfShard(nodes, shard, snapshotless) == if s == shard && sl == snapshotless then nodes else []
  {
    if nodes != [] {
      var init, last := nodes[..|nodes| - 1], nodes[|nodes| - 1];
      assert nodes == init + [last];
      OfShardUniform(init, s, sl, shard, snapshotless);
    }
  }

  lemma {:induction false} OfShardIncluded(nodes: seq<NodeData>, shard: Shard, snapshotless: bool)
    ensures var listed := OfShard(nodes, shard, snapshotless);
            AllIn(listed, nodes) && AllOf(listed, shard, snapshotless)
  {
    if nodes != [] {
      var init, last := nodes[..|nodes| - 1], nodes[|nodes| - 1];
      OfShardIncluded(init, shard, snapshotless);
      assert nodes == init + [last];
    }
  }

  // ----- Nodes filed by shard -----

  function NodesAt(m: map<Shard, seq<NodeData>>, shard: Shard): seq<NodeData> {
    if shard in m then m[shard] else []
  }

  function File(m: map<Shard, seq<NodeData>>, node: NodeData): map<Shard, seq<NodeData>> {
    m[node.shardId := NodesAt(m, node.shardId) + [node]]
  }

  /** The map holds, under each shard, the nodes of that shard and class. */
  ghost predicate FiledFrom(m: map<Shard, seq<NodeData>>, nodes: seq<NodeData>, snapshotless: bool) {
    forall s :: FiledFromAt(m, nodes, snapshotless, s)
  }

  predicate FiledFromAt(m: map<Shard, seq<NodeData>>, nodes: seq<NodeData>, snapshotless: bool, s: Shard) {
    NodesAt(m, s) == OfShard(nodes, s, snapshotless)
  }

  lemma FiledSnoc(m: map<Shard, seq<NodeData>>, nodes: seq<NodeData>, node: NodeData, snapshotless: bool)
    requires FiledFrom(m, nodes, snapshotless)
    ensures FiledFrom(if node.isSnapshotless == snapshotless then File(m, node) else m, nodes + [node], snapshotless)
  {
    var m' := if node.isSnapshotless == snapshotless then File(m, node) else m;
    forall s ensures FiledFromAt(m', nodes + [node], snapshotless, s) {
      OfShardSnoc(nodes, node, s, snapshotless);
      assert FiledFromAt(m, nodes, snapshotless, s);
    }
  }

  /** The map holds clones of these configured nodes, in their order. */
  ghost predicate ClonesOf(m: map<Shard, seq<NodeData>>, configs: seq<NodeConfig>) {
    forall s :: ClonesOfAt(m, configs, s)
  }

  predicate ClonesOfAt(m: map<Shard, seq<NodeData>>, configs: seq<NodeConfig>, s: Shard) {
    Configs(NodesAt(m, s)) == Filter(InShard(s), configs)
  }

  lemma ClonesSnoc(m: map<Shard, seq<NodeData>>, configs: seq<NodeConfig>, node: NodeData)
    requires ClonesOf(m, configs)
    ensures ClonesOf(File(m, node), configs + [node.Config()])
  {
    forall s ensures ClonesOfAt(File(m, node), configs + [node.Config()], s) {
      FilterSnoc(InShard(s), configs, node.Config());
      assert ClonesOfAt(m, configs, s);
      if s == node.shardId {
        assert Configs(NodesAt(m, s) + [node]) == Configs(NodesAt(m, s)) + [node.Config()];
      }
    }
  }

  predicate AllOfClass(configs: seq<NodeConfig>, snapshotless: bool) {
    forall i :: 0 <= i < |configs| ==> configs[i].isSnapshotless == snapshotless
  }

  /** Clones of nodes of one class are filed under their own shards, in that class. */
  lemma ClonesAreOf(m: map<Shard, seq<NodeData>>, configs: seq<NodeConfig>, snapshotless: bool, s: Shard)
    requires ClonesOf(m, configs) && AllOfClass(configs, snapshotless)
    ensures AllOf(NodesAt(m, s), s, snapshotless)
  {
    var nodes := NodesAt(m, s);
    assert ClonesOfAt(m, configs, s);
    forall i | 0 <= i < |nodes| ensures nodes[i].shardId == s && nodes[i].isSnapshotless == snapshotless {
      assert nodes[i].Config() == Configs(nodes)[i];
      var j := FilterIncluded(InShard(s), configs, i);
    }
  }

  function Configs(nodes: seq<NodeData>): seq<NodeConfig> {
    seq(|nodes|, i requires 0 <= i < |nodes| => nodes[i].Config())
  }

  // ----- The holder -----

  /** What a holder lists at a moment: its nodes by shard, and which of them are synced. */
  datatype Shelf = Shelf(nodes: map<Shard, seq<NodeData>>, synced: set<NodeData>)

  /** The plain filter that the cache must agree with. */
  function Listed(shelf: Shelf, kind: Kind, s: Shard): seq<NodeData> {
    Select(kind, NodesAt(shelf.nodes, s), shelf.synced)
  }

  /** All nodes are among those held, and reachable. */
  ghost predicate HoldsAt(nodes: seq<NodeData>, held: set<NodeData>)
    reads held
  {
    forall i :: 0 <= i < |nodes| ==> nodes[i] in held && nodes[i].isReachable
  }

  ghost predicate AllSynced(nodes: set<NodeData>)
    reads nodes
  {
    forall n :: n in nodes ==> n.isSynced
  }

  class NodesHolder {
    var allNodes: map<Shard, seq<NodeData>>
    var cache: map<string, seq<NodeData>>
    const availability: Availability
    ghost var held: set<NodeData>

    ghost function View(): Shelf
      reads this`allNodes, this`held, held
    {
      Shelf(allNodes, set n | n in held && n.isSynced)
    }

    /** Every node listed is held and reachable. */
    ghost predicate Kept()
      reads this`allNodes, this`held, held
    {
      forall s :: KeptAt(s)
    }

    ghost predicate KeptAt(s: Shard)
      reads this`allNodes, this`held, held
    {
      HoldsAt(NodesAt(allNodes, s), held)
    }

    /** Moreover, every node is filed under its own shard and belongs to this holder's availability. */
    ghost predicate Filed()
      reads this`allNodes, this`held, held
    {
      Kept() && forall s :: SortedAt(s)
    }

    ghost predicate SortedAt(s: Shard)
      reads this`allNodes
    {
      AllOf(NodesAt(allNodes, s), s, availability == Recent)
    }

    /** Every cached list is what computing it now would give. */
    ghost predicate Coherent()
      reads this, held
    {
      forall kind, s :: CoherentAt(kind, s)
    }

    ghost predicate CoherentAt(kind: Kind, s: Shard)
      reads this, held
    {
      CacheKey(kind, s) in cache ==> cache[CacheKey(kind, s)] == Listed(View(), kind, s)
    }

    ghost predicate Valid()
      reads this, held
    {
      Filed() && Coherent()
    }

    /** Clones the nodes, whatever their classes, and files them by shard. */
    constructor (regular: seq<NodeConfig>, fallback: seq<NodeConfig>, availability: Availability)
      ensures this.availability == availability && cache == map[]
      ensures Kept() && fresh(held) && AllSynced(held)
      ensures ClonesOf(allNodes, regular + fallback)
      ensures AllOfClass(regular + fallback, availability == Recent) ==> Valid()
    {
      this.availability := availability;
      allNodes, cache, held := map[], map[], {};
      new;
      assert forall s :: KeptAt(s) && ClonesOfAt(allNodes, [], s);
      var configs := regular + fallback;
      for i := 0 to |configs|
        invariant cache == map[] && fresh(held) && Kept()
        invariant AllSynced(held)
        invariant ClonesOf(allNodes, configs[..i])
      {
        assert configs[..i + 1] == configs[..i] + [configs[i]];
        var node := new NodeData(configs[i]);
        ClonesSnoc(allNodes, configs[..i], node);
        AddNode(node);
      }
      assert configs[..|configs|] == configs;
      if AllOfClass(configs, availability == Recent) {
        forall s ensures SortedAt(s) {
          ClonesAreOf(allNodes, configs, availability == Recent, s);
        }
        assert forall kind, s :: CoherentAt(kind, s);
      }
    }

    method AddNode(node: NodeData)
      requires Kept() && node.isReachable
      modifies this`allNodes, this`held
      ensures Kept() && allNodes == File(old(allNodes), node) && held == old(held) + {node}
    {
      allNodes, held := File(allNodes, node), held + {node};
      forall s ensures KeptAt(s) {
        assert old(KeptAt(s));
        assert NodesAt(allNodes, s) == NodesAt(old(allNodes), s) + if s == node.shardId then [node] else [];
      }
    }

    /** `getObservers`: the cached list, computed and cached first when it is missing. */
    method GetObservers(kind: Kind, shard: Shard) returns (nodes: seq<NodeData>)
      requires Valid()
      modifies this`cache
      ensures Valid() && View() == old(View())
      ensures nodes == Listed(View(), kind, shard)
    {
      var key := CacheKey(kind, shard);
      if key in cache {
        assert CoherentAt(kind, shard);
        return cache[key];
      }
      var all := NodesAt(allNodes, shard);
      assert KeptAt(shard);
      ghost var synced := View().synced;
      nodes := [];
      for i := 0 to |all|
        invariant nodes == Select(kind, all[..i], synced)
      {
        assert all[..i + 1][..i] == all[..i];
        if Matches(kind, all[i].isSynced, all[i].isFallback) {
          nodes := nodes + [all[i]];
        }
      }
      assert all[..|all|] == all;
      FillCache(kind, shard, nodes);
    }

    method FillCache(kind: Kind, shard: Shard, nodes: seq<NodeData>)
      requires Valid() && nodes == Listed(View(), kind, shard)
      modifies this`cache
      ensures Valid() && View() == old(View())
    {
      cache := cache[CacheKey(kind, shard) := nodes];
      forall s ensures KeptAt(s) && SortedAt(s) {
        assert old(KeptAt(s) && SortedAt(s));
      }
      forall kind', s ensures CoherentAt(kind', s) {
        assert old(CoherentAt(kind', s));
        if CacheKey(kind', s) == CacheKey(kind, shard) {
          CacheKeyInjective(kind', s, kind, shard);
        }
      }
    }

    /** Replaces the nodes and forgets the cache; nodes of the wrong availability are dropped, and an empty
        update changes nothing. */
    method UpdateNodes(nodes: seq<NodeData>)
      modifies this`allNodes, this`cache, this`held
      ensures nodes == [] ==> unchanged(this)
      ensures nodes != [] ==>
        && cache == map[]
        && held == (set n | n in nodes)
        && FiledFrom(allNodes, nodes, availability == Recent)
    {
      if |nodes| == 0 {
        return;
      }
      allNodes, cache, held := map[], map[], set n | n in nodes;
      ghost var recent := availability == Recent;
      assert forall s :: FiledFromAt(allNodes, [], recent, s);
      for i := 0 to |nodes|
        invariant cache == map[] && held == (set n | n in nodes)
        invariant FiledFrom(allNodes, nodes[..i], availability == Recent)
      {
        assert nodes[..i + 1] == nodes[..i] + [nodes[i]];
        FiledSnoc(allNodes, nodes[..i], nodes[i], availability == Recent);
        if IsNodeValid(nodes[i]) {
          allNodes := File(allNodes, nodes[i]);
        }
      }
      assert nodes[..|nodes|] == nodes;
    }

    /** `IsNodeValid` of the availability provider. */
    predicate IsNodeValid(node: NodeData) {
      !(availability == Recent && !node.isSnapshotless) && !(availability == All && node.isSnapshotless)
    }
  }

  /** Fails for two empty lists, unless only recent data is asked for. */
  method NewNodesHolder(regular: seq<NodeConfig>, fallback: seq<NodeConfig>, availability: Availability)
    returns (h: NodesHolder?)
    ensures h == null <==> regular == [] && fallback == [] && availability != Recent
    ensures h != null ==>
      && fresh(h) && h.availability == availability && h.cache == map[]
      && h.Kept() && fresh(h.held) && AllSynced(h.held)
      && ClonesOf(h.allNodes, regular + fallback)
      && (AllOfClass(regular + fallback, availability == Recent) ==> h.Valid())
  {
    if |regular| == 0 && |fallback| == 0 && availability != Recent {
      return null;
    }
    h := new NodesHolder(regular, fallback, availability);
  }
}
