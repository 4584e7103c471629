/**
 The provider of nodes (observer/baseNodeProvider.go): what lists of nodes it takes over, one holder for
 nodes with full history and one for snapshotless nodes, and the choice of the nodes to use.
 */
module NodeProviders {
  import opened Basics
  import opened NodeLists
  import opened NodeHolders

  // ----- What initNodes accepts -----

  /** A non-empty list, every shard of it in range, with a node of full history in each. */
  ghost predicate Accepted(configs: seq<NodeConfig>, numOfShards: nat) {
    && configs != []
    && (forall i :: 0 <= i < |configs| ==> !OutOfRange(configs[i], numOfShards))
    && forall i :: 0 <= i < |configs| ==> HasHistory(Filter(InShard(configs[i].shardId), configs))
  }

  predicate HasHistory(configs: seq<NodeConfig>) {
    exists i :: 0 <= i < |configs| && !configs[i].isSnapshotless
  }

  predicate OutOfRange(config: NodeConfig, numOfShards: nat) {
    config.shardId != METACHAIN && config.shardId >= numOfShards
  }

  ghost predicate FirstOutOfRange(configs: seq<NodeConfig>, numOfShards: nat, i: nat) {
    && i < |configs| && OutOfRange(configs[i], numOfShards)
    && forall j :: 0 <= j < i ==> !OutOfRange(configs[j], numOfShards)
  }

  ghost predicate LacksHistory(configs: seq<NodeConfig>, s: Shard) {
    Filter(InShard(s), configs) != [] && !HasHistory(Filter(InShard(s), configs))
  }

  /** Whether a list was taken over, or which error it was rejected with. */
  datatype InitResult = TakenOver | EmptyList | InvalidShard(index: nat) | NoHistory(shard: Shard)

  /** The configured nodes of a shard as a holder lists them: first the ordinary ones, then the fallback
      ones, each in the order configured. */
  function Arranged(configs: seq<NodeConfig>, snapshotless: bool, s: Shard): seq<NodeConfig> {
    Filter(OfClass(false, snapshotless), Filter(InShard(s), configs)) +
    Filter(OfClass(true, snapshotless), Filter(InShard(s), configs))
  }

  /** What is accepted: a non-empty list whose shards are the metachain or in range, each with a node that is not
      snapshotless. */
  lemma AcceptedInFull(configs: seq<NodeConfig>, numOfShards: nat)
    ensures Accepted(configs, numOfShards) <==>
            && configs != []
            && (forall c :: c in configs ==> c.shardId == 0xFFFF_FFFF || c.shardId < numOfShards)
            && (forall c :: c in configs ==>
                  exists d :: d in configs && d.shardId == c.shardId && !d.isSnapshotless)
  {
    if Accepted(configs, numOfShards) {
      forall c | c in configs
        ensures c.shardId == 0xFFFF_FFFF || c.shardId < numOfShards
        ensures exists d :: d in configs && d.shardId == c.shardId && !d.isSnapshotless
      {
        var i :| 0 <= i < |configs| && configs[i] == c;
        HistoryInFull(configs, c.shardId);
      }
    } else if configs != [] && forall i :: 0 <= i < |configs| ==> !OutOfRange(configs[i], numOfShards) {
      var i :| 0 <= i < |configs| && !HasHistory(Filter(InShard(configs[i].shardId), configs));
      HistoryInFull(configs, configs[i].shardId);
      assert configs[i] in configs;
    }
  }

  lemma HistoryInFull(configs: seq<NodeConfig>, s: Shard)
    ensures HasHistory(Filter(InShard(s), configs)) <==>
            exists d :: d in configs && d.shardId == s && !d.isSnapshotless
    ensures Filter(InShard(s), configs) != [] <==> exists d :: d in configs && d.shardId == s
  {
    var kept := Filter(InShard(s), configs);
    if d :| d in configs && d.shardId == s {
      FilterMember(InShard(s), configs, d);
    }
    if d :| d in configs && d.shardId == s && !d.isSnapshotless {
      FilterMember(InShard(s), configs, d);
    }
    if HasHistory(kept) {
      var k :| 0 <= k < |kept| && !kept[k].isSnapshotless;
      FilterMember(InShard(s), configs, kept[k]);
    }
    if kept != [] {
      FilterMember(InShard(s), configs, kept[0]);
    }
  }

  /** How a holder arranges the nodes of a shard and class, one more configured node at a time: a fallback node goes
      last, an ordinary one behind the ordinary ones and before the fallback ones, any other node nowhere. */
  lemma ArrangedInFull(configs: seq<NodeConfig>, c: NodeConfig, snapshotless: bool, s: Shard) returns (k: nat)
    ensures Arranged([], snapshotless, s) == []
    ensures k <= |Arranged(configs, snapshotless, s)|
    ensures forall i :: 0 <= i < |Arranged(configs, snapshotless, s)| ==>
              (Arranged(configs, snapshotless, s)[i].isFallback <==> k <= i)
    ensures var before := Arranged(configs, snapshotless, s);
            Arranged(configs + [c], snapshotless, s) ==
            if c.shardId != s || c.isSnapshotless != snapshotless then before
            else if c.isFallback then before + [c]
            else before[..k] + [c] + before[k..]
  {
    var inShard := Filter(InShard(s), configs);
    var ordinary := Filter(OfClass(false, snapshotless), inShard);
    var fallback := Filter(OfClass(true, snapshotless), inShard);
    k := |ordinary|;
    FilterSnoc(InShard(s), configs, c);
    FilterSnoc(OfClass(false, snapshotless), inShard, c);
    FilterSnoc(OfClass(true, snapshotless), inShard, c);
    forall i | 0 <= i < |ordinary| ensures !ordinary[i].isFallback {
      FilteredPasses(OfClass(false, snapshotless), inShard, i);
    }
    forall i | 0 <= i < |fallback| ensures fallback[i].isFallback {
      FilteredPasses(OfClass(true, snapshotless), inShard, i);
    }
    assert Arranged(configs, snapshotless, s)[..k] == ordinary && Arranged(configs, snapshotless, s)[k..] == fallback;
  }

  class NodeProvider {
    const numOfShards: nat
    var shardIds: seq<Shard>
    var regular: NodesHolder
    var snapshotless: NodesHolder

    ghost predicate Valid()
      reads this, regular, snapshotless, regular.held, snapshotless.held
    {
      && regular != snapshotless
      && regular.availability == All && snapshotless.availability == Recent
      && regular.Valid() && snapshotless.Valid()
      && Covers(shardIds, regular.allNodes, snapshotless.allNodes)
    }

    /** A provider without nodes yet. */
    constructor (numOfShards: nat)
      ensures this.numOfShards == numOfShards && Valid() && shardIds == []
      ensures fresh(regular) && fresh(snapshotless) && fresh(regular.held) && fresh(snapshotless.held)
    {
      var none := new NodesHolder([], [], All);
      var noneSnapshotless := new NodesHolder([], [], Recent);
      NoClones(none.allNodes, []);
      NoClones(noneSnapshotless.allNodes, []);
      this.numOfShards := numOfShards;
      shardIds, regular, snapshotless := [], none, noneSnapshotless;
    }

    /** `initNodes`: takes over a list of configured nodes, or rejects it and leaves everything as it was. */
    method InitNodes(configs: seq<NodeConfig>) returns (r: InitResult)
      modifies this
      ensures r.TakenOver? <==> Accepted(configs, numOfShards)
      ensures r.EmptyList? <==> configs == []
      ensures r.InvalidShard? <==> exists i :: FirstOutOfRange(configs, numOfShards, i)
      ensures r.InvalidShard? ==> FirstOutOfRange(configs, numOfShards, r.index)
      ensures r.NoHistory? ==> LacksHistory(configs, r.shard)
      // The errors, in terms of the nodes.
      ensures r.InvalidShard? ==>
                && r.index < |configs|
                && configs[r.index].shardId != 0xFFFF_FFFF && configs[r.index].shardId >= numOfShards
                && forall j :: 0 <= j < r.index ==>
                     configs[j].shardId == 0xFFFF_FFFF || configs[j].shardId < numOfShards
      ensures r.NoHistory? ==>
                && (exists c :: c in configs && c.shardId == r.shard)
                && forall c :: c in configs && c.shardId == r.shard ==> c.isSnapshotless
      ensures !r.TakenOver? ==> unchanged(this)
      ensures r.TakenOver? ==>
        && Valid()
        && fresh(regular) && fresh(snapshotless) && fresh(regular.held) && fresh(snapshotless.held)
        && FilledFrom(configs, shardIds, regular.allNodes, snapshotless.allNodes)
        && AllSynced(regular.held) && AllSynced(snapshotless.held)
    {
      if |configs| == 0 {
        return EmptyList;
      }
      var outOfRange := CheckShardIds(configs, numOfShards);
      if outOfRange.Some? {
        return InvalidShard(outOfRange.value);
      }
      var newNodes := ToShardedMap(configs);
      var lacking := CheckNodesInShards(newNodes);
      HistoryPerShard(newNodes, configs);
      if lacking.Some? {
        assert NodesIn(newNodes, lacking.value) == Filter(InShard(lacking.value), configs);
        HistoryInFull(configs, lacking.value);
        return NoHistory(lacking.value);
      }
      TakeOver(newNodes, configs);
      return TakenOver;
    }

    method TakeOver(newNodes: Sharded, ghost configs: seq<NodeConfig>)
      requires configs != [] && Grouped(newNodes, configs) && WellSharded(newNodes)
      requires forall s :: s in newNodes ==> HasHistory(newNodes[s])
      modifies this
      ensures Valid()
      ensures fresh(regular) && fresh(snapshotless) && fresh(regular.held) && fresh(snapshotless.held)
      ensures FilledFrom(configs, shardIds, regular.allNodes, snapshotless.allNodes)
      ensures AllSynced(regular.held) && AllSynced(snapshotless.held)
    {
      shardIds, regular, snapshotless := CreateHolders(newNodes, configs);
    }

    // ----- Choosing nodes -----

    ghost function View(): Shelves
      reads this, regular`allNodes, regular`held, regular.held
      reads snapshotless`allNodes, snapshotless`held, snapshotless.held
    {
      Shelves(regular.View(), snapshotless.View())
    }

    /** Every configured shard has nodes to use, for either availability; all of them are nodes of that
        shard, and never snapshotless ones when historical data is needed. */
    lemma EveryShardIsServed(av: Availability, s: Shard)
      requires Valid() && s in shardIds
      ensures FirstTier(View(), av, s) != []
      ensures Usable(FirstTier(View(), av, s), av, s)
    {
      assert CoveredAt(shardIds, regular.allNodes, snapshotless.allNodes, s);
      SomeTier(View(), av, s);
      FirstTierIncluded(View(), av, s);
      EligibleIsUsable(av, s, FirstTier(View(), av, s));
    }

    ghost predicate Usable(nodes: seq<NodeData>, av: Availability, s: Shard)
      reads nodes
    {
      forall i :: 0 <= i < |nodes| ==>
        nodes[i].shardId == s && nodes[i].isReachable && (av == All ==> !nodes[i].isSnapshotless)
    }

    lemma EligibleIsUsable(av: Availability, s: Shard, nodes: seq<NodeData>)
      requires Valid() && Eligible(View(), av, s, nodes)
      ensures Usable(nodes, av, s)
    {
      var regularNodes, recentNodes := NodesAt(regular.allNodes, s), NodesAt(snapshotless.allNodes, s);
      assert regular.KeptAt(s) && regular.SortedAt(s);
      assert snapshotless.KeptAt(s) && snapshotless.SortedAt(s);
    }

    /** `getNodesByType` over the getters of one kind. */
    method GetNodesByType(av: Availability, s: Shard, kind: Kind) returns (nodes: seq<NodeData>)
      requires Valid()
      modifies regular`cache, snapshotless`cache
      ensures Valid() && View() == old(View())
      ensures nodes == Tier(View(), av, s, kind)
    {
      if av == Recent {
        nodes := snapshotless.GetObservers(kind, s);
        if |nodes| > 0 {
          return;
        }
      }
      nodes := regular.GetObservers(kind, s);
    }

    /** The nodes of a kind that are reachable, which all are. */
    method GetReachable(av: Availability, s: Shard, kind: Kind) returns (nodes: seq<NodeData>)
      requires Valid()
      modifies regular`cache, snapshotless`cache
      ensures Valid() && View() == old(View())
      ensures nodes == Tier(View(), av, s, kind)
    {
      var all := GetNodesByType(av, s, kind);
      TierIncluded(View(), av, s, kind);
      EligibleIsUsable(av, s, all);
      AllReachable(all);
      nodes := FilterReachable(all);
    }

    /** The nodes chosen, by their flags: all alike, all nodes of one holder that are like these, none when there are
        nodes of a better kind, and regular ones only when there are no snapshotless ones of the same kind to use. */
    lemma ChosenInFull(av: Availability, s: Shard, first: NodeData)
      requires Valid() && FirstTier(View(), av, s) != [] && first == FirstTier(View(), av, s)[0]
      ensures forall n :: n in FirstTier(View(), av, s) <==>
                && n in NodesAt(if first.isSnapshotless then snapshotless.allNodes else regular.allNodes, s)
                && n.isSynced == first.isSynced && n.isFallback == first.isFallback
      ensures forall n ::
                n in NodesAt(regular.allNodes, s) || (av == Recent && n in NodesAt(snapshotless.allNodes, s)) ==>
                  && (n.isSynced ==> first.isSynced)
                  && (n.isSynced == first.isSynced && first.isFallback ==> n.isFallback)
      ensures first.isSnapshotless ==> av == Recent
      ensures av == Recent && !first.isSnapshotless ==>
                forall n :: n in NodesAt(snapshotless.allNodes, s) ==>
                  n.isSynced != first.isSynced || n.isFallback != first.isFallback
    {
      assert regular.KeptAt(s) && regular.SortedAt(s) && snapshotless.KeptAt(s) && snapshotless.SortedAt(s);
      ListedMembers(regular, Synced, s);
      ListedMembers(regular, OutOfSync, s);
      ListedMembers(regular, SyncedFallback, s);
      ListedMembers(regular, OutOfSyncFallback, s);
      ListedMembers(snapshotless, Synced, s);
      ListedMembers(snapshotless, OutOfSync, s);
      ListedMembers(snapshotless, SyncedFallback, s);
      ListedMembers(snapshotless, OutOfSyncFallback, s);
    }

    /** `getSyncedNodesForShardUnprotected`: the first tier with any nodes; a shard that is not configured has
        none. The last resort, any node at all, is never reached with a node to return. */
    method GetSyncedNodesForShard(s: Shard, av: Availability) returns (r: Option<seq<NodeData>>)
      requires Valid()
      modifies regular`cache, snapshotless`cache
      ensures Valid() && View() == old(View())
      ensures r == if FirstTier(View(), av, s) == [] then None else Some(FirstTier(View(), av, s))
      ensures r.Some? <==> s in shardIds
      ensures r.Some? ==>
        && r.value != []
        && (var first := r.value[0];
            && (forall n :: n in r.value <==>
                  && n in NodesAt(if first.isSnapshotless then snapshotless.allNodes else regular.allNodes, s)
                  && n.isSynced == first.isSynced && n.isFallback == first.isFallback)
            && (forall n ::
                  n in NodesAt(regular.allNodes, s) || (av == Recent && n in NodesAt(snapshotless.allNodes, s)) ==>
                    && (n.isSynced ==> first.isSynced)
                    && (n.isSynced == first.isSynced && first.isFallback ==> n.isFallback))
            && (first.isSnapshotless ==> av == Recent)
            && (av == Recent && !first.isSnapshotless ==>
                  forall n :: n in NodesAt(snapshotless.allNodes, s) ==>
                    n.isSynced != first.isSynced || n.isFallback != first.isFallback))
    {
      r := FirstNodes(s, av);
      if r.Some? {
        ChosenInFull(av, s, r.value[0]);
      }
    }

    method FirstNodes(s: Shard, av: Availability) returns (r: Option<seq<NodeData>>)
      requires Valid()
      modifies regular`cache, snapshotless`cache
      ensures Valid() && View() == old(View())
      ensures r == if FirstTier(View(), av, s) == [] then None else Some(FirstTier(View(), av, s))
      ensures r.Some? <==> s in shardIds
    {
      assert CoveredAt(shardIds, regular.allNodes, snapshotless.allNodes, s);
      if s in shardIds {
        EveryShardIsServed(av, s);
      }
      var syncedNodes := GetReachable(av, s, Synced);
      if |syncedNodes| != 0 {
        return Some(syncedNodes);
      }
      var fallbackNodes := GetReachable(av, s, SyncedFallback);
      if |fallbackNodes| != 0 {
        return Some(fallbackNodes);
      }
      var outOfSyncNodes := GetReachable(av, s, OutOfSync);
      if |outOfSyncNodes| > 0 {
        return Some(outOfSyncNodes);
      }
      var outOfSyncFallbackNodes := GetReachable(av, s, OutOfSyncFallback);
      if |outOfSyncFallbackNodes| != 0 {
        return Some(outOfSyncFallbackNodes);
      }
      var anyNodes := GetAnyNodes(av, s);
      if |anyNodes| > 0 {
        assert false; // the last resort
      }
      return None;
    }

    /** The last resort: nodes of all kinds, reachable or not. */
    method GetAnyNodes(av: Availability, s: Shard) returns (nodes: seq<NodeData>)
      requires Valid()
      modifies regular`cache, snapshotless`cache
      ensures Valid() && View() == old(View())
      ensures nodes == Tier(View(), av, s, Synced) + Tier(View(), av, s, SyncedFallback) +
                       Tier(View(), av, s, OutOfSync) + Tier(View(), av, s, OutOfSyncFallback)
    {
      nodes := GetNodesByType(av, s, Synced);
      var more := GetNodesByType(av, s, SyncedFallback);
      nodes := nodes + more;
      more := GetNodesByType(av, s, OutOfSync);
      nodes := nodes + more;
      more := GetNodesByType(av, s, OutOfSyncFallback);
      nodes := nodes + more;
    }

    method AddShardNodes(av: Availability, ghost before: seq<Shard>, s: Shard, nodes: seq<NodeData>)
      returns (more: seq<NodeData>)
      requires Valid() && s in shardIds && nodes == FirstTiers(View(), av, before)
      modifies regular`cache, snapshotless`cache
      ensures Valid() && View() == old(View())
      ensures more == FirstTiers(View(), av, before + [s])
    {
      var shardNodes := GetSyncedNodesForShard(s, av);
      if shardNodes.None? {
        assert false; // every configured shard is available
      }
      FirstTiersSnoc(View(), av, before, s);
      more := nodes + shardNodes.value;
    }

    method CollectTiers(av: Availability) returns (nodes: seq<NodeData>)
      requires Valid()
      modifies regular`cache, snapshotless`cache
      ensures Valid() && View() == old(View())
      ensures nodes == FirstTiers(View(), av, shardIds)
    {
      nodes := [];
      var ids := shardIds;
      ghost var v := View();
      ghost var before: seq<Shard> := [];
      for i := 0 to |ids|
        invariant Valid() && View() == v && shardIds == ids
        invariant before == ids[..i]
        invariant nodes == FirstTiers(v, av, before)
      {
        nodes := AddShardNodes(av, before, ids[i], nodes);
        before := before + [ids[i]];
      }
      assert before == ids;
    }

    /** `getSyncedNodesUnprotected`: the chosen nodes of all shards, one shard after the other. */
    method GetSyncedNodes(av: Availability) returns (r: Option<seq<NodeData>>)
      requires Valid()
      modifies regular`cache, snapshotless`cache
      ensures Valid() && View() == old(View())
      ensures r == if shardIds == [] then None else Some(FirstTiers(View(), av, shardIds))
    {
      if shardIds != [] {
        EveryShardIsServed(av, shardIds[|shardIds| - 1]);
      }
      var nodes := CollectTiers(av);
      if |nodes| == 0 {
        return None;
      }
      return Some(nodes);
    }
  }

  /** A list of a kind has exactly the nodes of the shard with its flags. */
  lemma ListedMembers(h: NodesHolder, kind: Kind, s: Shard)
    requires h.Valid()
    ensures forall n :: n in Listed(h.View(), kind, s) <==>
              && n in NodesAt(h.allNodes, s)
              && (n.isSynced <==> kind == Synced || kind == SyncedFallback)
              && (n.isFallback <==> kind == SyncedFallback || kind == OutOfSyncFallback)
    ensures Listed(h.View(), kind, s) == [] <==> forall n :: n in NodesAt(h.allNodes, s) ==>
              || (n.isSynced <==> kind != Synced && kind != SyncedFallback)
              || (n.isFallback <==> kind != SyncedFallback && kind != OutOfSyncFallback)
    ensures forall n :: n in NodesAt(h.allNodes, s) ==> (n.isSnapshotless <==> h.availability == Recent)
  {
    var nodes, synced, listed := NodesAt(h.allNodes, s), h.View().synced, Listed(h.View(), kind, s);
    assert h.KeptAt(s) && h.SortedAt(s);
    forall n | n in nodes || n in listed
      ensures n in listed <==>
              && n in nodes && (n.isSynced <==> kind == Synced || kind == SyncedFallback)
              && (n.isFallback <==> kind == SyncedFallback || kind == OutOfSyncFallback)
    {
      SelectMember(kind, nodes, synced, n);
    }
    if listed == [] {
      forall n | n in nodes
        ensures || (n.isSynced <==> kind != Synced && kind != SyncedFallback)
                || (n.isFallback <==> kind != SyncedFallback && kind != OutOfSyncFallback)
      {
        SelectMember(kind, nodes, synced, n);
        assert n !in listed;
      }
    } else {
      SelectMember(kind, nodes, synced, listed[0]);
      assert listed[0] in nodes;
    }
  }

  // ----- The choice, on what the two holders list -----

  datatype Shelves = Shelves(regular: Shelf, snapshotless: Shelf)

  /** The nodes of a kind to use for a shard: for recent data snapshotless ones, if there are any. */
  function Tier(v: Shelves, av: Availability, s: Shard, kind: Kind): seq<NodeData> {
    if av == Recent && Listed(v.snapshotless, kind, s) != [] then Listed(v.snapshotless, kind, s)
    else Listed(v.regular, kind, s)
  }

  /** The first tier that has any nodes: synced, synced fallback, out of sync, out of sync fallback. */
  function FirstTier(v: Shelves, av: Availability, s: Shard): seq<NodeData> {
    FirstOf(Tier(v, av, s, Synced), Tier(v, av, s, SyncedFallback),
            Tier(v, av, s, OutOfSync), Tier(v, av, s, OutOfSyncFallback))
  }

  function FirstTiers(v: Shelves, av: Availability, ids: seq<Shard>): seq<NodeData> {
    if ids == [] then [] else FirstTiers(v, av, ids[..|ids| - 1]) + FirstTier(v, av, ids[|ids| - 1])
  }

  lemma FirstTiersSnoc(v: Shelves, av: Availability, ids: seq<Shard>, s: Shard)
    ensures FirstTiers(v, av, ids + [s]) == FirstTiers(v, av, ids) + FirstTier(v, av, s)
  {
    assert (ids + [s])[..|ids|] == ids;
  }

  /** All nodes are of this shard's lists, from the holders an availability allows. */
  predicate Eligible(v: Shelves, av: Availability, s: Shard, nodes: seq<NodeData>) {
    AllIn(nodes, NodesAt(v.regular.nodes, s)) || (av == Recent && AllIn(nodes, NodesAt(v.snapshotless.nodes, s)))
  }

  lemma TierIncluded(v: Shelves, av: Availability, s: Shard, kind: Kind)
    ensures Eligible(v, av, s, Tier(v, av, s, kind))
  {
    SelectIncluded(kind, NodesAt(v.regular.nodes, s), v.regular.synced);
    SelectIncluded(kind, NodesAt(v.snapshotless.nodes, s), v.snapshotless.synced);
  }

  lemma FirstTierIncluded(v: Shelves, av: Availability, s: Shard)
    ensures Eligible(v, av, s, FirstTier(v, av, s))
  {
    TierIncluded(v, av, s, Synced);
    TierIncluded(v, av, s, SyncedFallback);
    TierIncluded(v, av, s, OutOfSync);
    TierIncluded(v, av, s, OutOfSyncFallback);
  }

  lemma SomeTier(v: Shelves, av: Availability, s: Shard)
    requires NodesAt(v.regular.nodes, s) != []
    ensures FirstTier(v, av, s) != []
  {
    RegroupedIncluded(NodesAt(v.regular.nodes, s), v.regular.synced);
  }

  function FirstOf(a: seq<NodeData>, b: seq<NodeData>, c: seq<NodeData>, d: seq<NodeData>): seq<NodeData> {
    if a != [] then a else if b != [] then b else if c != [] then c else d
  }

  /** Exactly the shards listed have nodes, and regular ones among them. */
  ghost predicate Covers(ids: seq<Shard>, regular: map<Shard, seq<NodeData>>, snapshotless: map<Shard, seq<NodeData>>) {
    Increasing(ids) && forall s :: CoveredAt(ids, regular, snapshotless, s)
  }

  predicate CoveredAt(ids: seq<Shard>, regular: map<Shard, seq<NodeData>>, snapshotless: map<Shard, seq<NodeData>>,
                      s: Shard) {
    if s in ids then NodesAt(regular, s) != [] else NodesAt(regular, s) == NodesAt(snapshotless, s) == []
  }

  ghost predicate Holding(nodes: map<Shard, seq<NodeData>>, configs: seq<NodeConfig>, snapshotless: bool) {
    forall s :: HoldingAt(nodes, configs, snapshotless, s)
  }

  predicate HoldingAt(nodes: map<Shard, seq<NodeData>>, configs: seq<NodeConfig>, snapshotless: bool, s: Shard) {
    Configs(NodesAt(nodes, s)) == Arranged(configs, snapshotless, s)
  }

  /** What a provider holds after taking over a list. */
  ghost predicate FilledFrom(configs: seq<NodeConfig>, ids: seq<Shard>,
                             regular: map<Shard, seq<NodeData>>, snapshotless: map<Shard, seq<NodeData>>) {
    && (forall s :: s in ids <==> Filter(InShard(s), configs) != [])
    && Holding(regular, configs, false) && Holding(snapshotless, configs, true)
  }

  method CheckShardIds(configs: seq<NodeConfig>, numOfShards: nat) returns (first: Option<nat>)
    ensures first.Some? ==> FirstOutOfRange(configs, numOfShards, first.value)
    ensures first.None? ==> forall i :: 0 <= i < |configs| ==> !OutOfRange(configs[i], numOfShards)
  {
    for i := 0 to |configs|
      invariant forall j :: 0 <= j < i ==> !OutOfRange(configs[j], numOfShards)
    {
      if OutOfRange(configs[i], numOfShards) {
        return Some(i);
      }
    }
    return None;
  }

  method CreateHolders(m: Sharded, ghost configs: seq<NodeConfig>)
    returns (shardIds: seq<Shard>, regular: NodesHolder, snapshotless: NodesHolder)
    requires configs != [] && Grouped(m, configs) && WellSharded(m)
    requires forall s :: s in m ==> HasHistory(m[s])
    ensures regular != snapshotless
    ensures regular.availability == All && regular.Valid() && fresh(regular) && fresh(regular.held)
    ensures snapshotless.availability == Recent && snapshotless.Valid()
    ensures fresh(snapshotless) && fresh(snapshotless.held)
    ensures AllSynced(regular.held) && AllSynced(snapshotless.held)
    ensures FilledFrom(configs, shardIds, regular.allNodes, snapshotless.allNodes)
    ensures Covers(shardIds, regular.allNodes, snapshotless.allNodes)
  {
    shardIds := SortedShardIds(m);
    var f := InitAllNodesSlice(m);
    regular := CreateHolder(m, configs, f, All);
    snapshotless := CreateHolder(m, configs, f, Recent);
    ShardsFilled(m, configs, shardIds, regular.allNodes, snapshotless.allNodes);
  }

  method CreateHolder(ghost m: Sharded, ghost configs: seq<NodeConfig>, f: Split, availability: Availability)
    returns (h: NodesHolder)
    requires configs != [] && Grouped(m, configs) && WellSharded(m) && Interleaved(m, f)
    requires forall s :: s in m ==> HasHistory(m[s])
    ensures h.availability == availability && h.Valid() && fresh(h) && fresh(h.held)
    ensures AllSynced(h.held)
    ensures Holding(h.allNodes, configs, availability == Recent)
  {
    SplitClasses(m, f);
    RegularNodesExist(m, configs, f);
    var created: NodesHolder?;
    if availability == All {
      created := NewNodesHolder(f.eligible, f.fallback, All);
    } else {
      created := NewNodesHolder(f.eligibleSnapshotless, f.fallbackSnapshotless, Recent);
    }
    if created == null {
      assert false; // NewNodesHolder does not fail
    }
    h := created;
    HolderArranged(h.allNodes, m, configs, f, availability == Recent);
  }

  lemma NoClones(m: map<Shard, seq<NodeData>>, none: seq<NodeConfig>)
    requires ClonesOf(m, none + none) && none == []
    ensures forall s :: NodesAt(m, s) == []
  {
    forall s ensures NodesAt(m, s) == [] {
      assert none + none == [];
      assert ClonesOfAt(m, none + none, s);
      assert |Configs(NodesAt(m, s))| == |NodesAt(m, s)|;
    }
  }

  /** `checkNodesInShards`, walking the shards in any order. */
  method CheckNodesInShards(m: Sharded) returns (lacking: Option<Shard>)
    ensures lacking.Some? ==> lacking.value in m && !HasHistory(m[lacking.value])
    ensures lacking.None? ==> forall s :: s in m ==> HasHistory(m[s])
  {
    var pending := m.Keys;
    while pending != {}
      invariant pending <= m.Keys
      invariant forall s :: s in m && s !in pending ==> HasHistory(m[s])
    {
      var s :| s in pending;
      if !HasHistory(m[s]) {
        return Some(s);
      }
      pending := pending - {s};
    }
    return None;
  }

  lemma {:induction false} MemberShard(configs: seq<NodeConfig>, i: nat)
    requires i < |configs|
    ensures Filter(InShard(configs[i].shardId), configs) != []
  {
    if i < |configs| - 1 {
      MemberShard(configs[..|configs| - 1], i);
    }
  }

  lemma HistoryPerShard(m: Sharded, configs: seq<NodeConfig>)
    requires Grouped(m, configs)
    ensures (forall s :: s in m ==> HasHistory(m[s])) <==>
            forall i :: 0 <= i < |configs| ==> HasHistory(Filter(InShard(configs[i].shardId), configs))
  {
    forall s | s in m
      ensures exists i :: 0 <= i < |configs| && configs[i].shardId == s && m[s] == Filter(InShard(s), configs)
    {
      assert NodesIn(m, s) == Filter(InShard(s), configs);
      var i := FilterIncluded(InShard(s), configs, 0);
    }
    forall i | 0 <= i < |configs|
      ensures configs[i].shardId in m && m[configs[i].shardId] == Filter(InShard(configs[i].shardId), configs)
    {
      MemberShard(configs, i);
      assert NodesIn(m, configs[i].shardId) == Filter(InShard(configs[i].shardId), configs);
    }
  }

  lemma SplitClasses(m: Sharded, f: Split)
    requires Interleaved(m, f)
    ensures AllOfClass(f.eligible + f.fallback, false)
    ensures AllOfClass(f.eligibleSnapshotless + f.fallbackSnapshotless, true)
  {
    var ids, n :| InterleavedAs(m, f, ids, n);
    var nodes := Columns(m, ids, n);
    ClassIsOfClass(false, false, nodes);
    ClassIsOfClass(true, false, nodes);
    ClassIsOfClass(false, true, nodes);
    ClassIsOfClass(true, true, nodes);
  }

  lemma ClassIsOfClass(fallback: bool, snapshotless: bool, nodes: seq<NodeConfig>)
    ensures AllOfClass(Filter(OfClass(fallback, snapshotless), nodes), snapshotless)
  {
    forall i | 0 <= i < |Filter(OfClass(fallback, snapshotless), nodes)|
      ensures Filter(OfClass(fallback, snapshotless), nodes)[i].isSnapshotless == snapshotless
    {
      FilteredPasses(OfClass(fallback, snapshotless), nodes, i);
    }
  }

  /** Which of the four lists make up a holder. */
  function PartOf(f: Split, snapshotless: bool): seq<NodeConfig> {
    if snapshotless then f.eligibleSnapshotless + f.fallbackSnapshotless else f.eligible + f.fallback
  }

  /** Interleaved, split by class, handed to a holder and filed by shard again, the nodes of a shard come out
      arranged as configured. */
  lemma PartArranged(m: Sharded, configs: seq<NodeConfig>, f: Split, snapshotless: bool, s: Shard)
    requires Grouped(m, configs) && WellSharded(m) && Interleaved(m, f)
    ensures Filter(InShard(s), PartOf(f, snapshotless)) == Arranged(configs, snapshotless, s)
  {
    var ids, n :| InterleavedAs(m, f, ids, n);
    var all := Columns(m, ids, n);
    FilterConcat(InShard(s), Filter(OfClass(false, snapshotless), all), Filter(OfClass(true, snapshotless), all));
    InterleaveThenRegroup(m, ids, n, OfClass(false, snapshotless), s);
    InterleaveThenRegroup(m, ids, n, OfClass(true, snapshotless), s);
    assert NodesIn(m, s) == Filter(InShard(s), configs);
  }

  lemma HolderArranged(h: map<Shard, seq<NodeData>>, m: Sharded, configs: seq<NodeConfig>, f: Split, snapshotless: bool)
    requires ClonesOf(h, PartOf(f, snapshotless))
    requires Grouped(m, configs) && WellSharded(m) && Interleaved(m, f)
    ensures Holding(h, configs, snapshotless)
  {
    forall s ensures HoldingAt(h, configs, snapshotless, s) {
      PartArranged(m, configs, f, snapshotless, s);
      assert ClonesOfAt(h, PartOf(f, snapshotless), s);
    }
  }

  lemma {:induction false} HistoryIsArranged(configs: seq<NodeConfig>)
    requires HasHistory(configs)
    ensures Filter(OfClass(false, false), configs) + Filter(OfClass(true, false), configs) != []
  {
    var n := |configs| - 1;
    if configs[n].isSnapshotless {
      HistoryIsArranged(configs[..n]);
    }
  }

  lemma RegularNodesExist(m: Sharded, configs: seq<NodeConfig>, f: Split)
    requires configs != [] && Grouped(m, configs) && WellSharded(m)
    requires forall s :: s in m ==> HasHistory(m[s])
    requires Interleaved(m, f)
    ensures f.eligible + f.fallback != []
  {
    var s := configs[0].shardId;
    MemberShard(configs, 0);
    assert NodesIn(m, s) == Filter(InShard(s), configs);
    HistoryIsArranged(m[s]);
    PartArranged(m, configs, f, false, s);
  }

  lemma ShardsFilled(m: Sharded, configs: seq<NodeConfig>, ids: seq<Shard>,
                     regular: map<Shard, seq<NodeData>>, snapshotless: map<Shard, seq<NodeData>>)
    requires Grouped(m, configs) && Enumerates(ids, m) && Increasing(ids)
    requires forall s :: s in m ==> HasHistory(m[s])
    requires Holding(regular, configs, false) && Holding(snapshotless, configs, true)
    ensures forall s :: s in ids <==> Filter(InShard(s), configs) != []
    ensures Covers(ids, regular, snapshotless)
  {
    forall s ensures s in ids <==> Filter(InShard(s), configs) != [] {
      assert NodesIn(m, s) == Filter(InShard(s), configs);
    }
    forall s ensures CoveredAt(ids, regular, snapshotless, s) {
      assert NodesIn(m, s) == Filter(InShard(s), configs);
      assert HoldingAt(regular, configs, false, s) && HoldingAt(snapshotless, configs, true, s);
      if s in ids {
        HistoryIsArranged(m[s]);
      }
      assert |Configs(NodesAt(regular, s))| == |NodesAt(regular, s)|;
      assert |Configs(NodesAt(snapshotless, s))| == |NodesAt(snapshotless, s)|;
    }
  }
}
