/**
 The sync round (updateNodesWithSync and its helpers in process/baseProcessor.go, the enumeration and the
 write-back in observer/baseNodeProvider.go): all nodes are read through the cache, their sync flags are
 set in place from what the nodes answer, and the holders are rebuilt from the list.
 */
module SyncRounds {
  import opened Basics
  import opened NodeLists
  import opened NodeHolders
  import opened NodeProviders

  // ----- The verdict on one node -----

  /** What asking a node for its status gives. */
  datatype StatusAnswer =
    | FetchFailed
    | Answered(code: int, nonce: Uint64, probableHighest: Uint64, vmQueriesReady: bool)

  const STATUS_OK := 200
  const THRESHOLD := 10

  /** `isNodeSynced`, with its wrapping subtraction; a failed fetch counts as not synced. */
  function IsNodeSynced(answer: StatusAnswer): bool {
    if answer.FetchFailed? || answer.code != STATUS_OK then false
    else
      var lessThanOrEqual := answer.probableHighest <= answer.nonce;
      var belowThreshold := (answer.probableHighest - answer.nonce) % TWO_64 < THRESHOLD;
      (belowThreshold || lessThanOrEqual) && answer.vmQueriesReady
  }

  /** The wrap-around never matters: the verdict is the comparison over the natural numbers. */
  lemma SyncedExactly(answer: StatusAnswer)
    ensures IsNodeSynced(answer) <==>
            && answer.Answered? && answer.code == 200
            && answer.vmQueriesReady && answer.probableHighest < answer.nonce + 10
  {
  }

  // ----- Reading all nodes -----

  method EnumerateShard(h: NodesHolder, s: Shard) returns (nodes: seq<NodeData>)
    requires h.Valid()
    modifies h`cache
    ensures h.Valid() && h.View() == old(h.View())
    ensures nodes == Regrouped(NodesAt(h.allNodes, s), h.View().synced)
  {
    nodes := h.GetObservers(Synced, s);
    var more := h.GetObservers(OutOfSync, s);
    nodes := nodes + more;
    more := h.GetObservers(SyncedFallback, s);
    nodes := nodes + more;
    more := h.GetObservers(OutOfSyncFallback, s);
    nodes := nodes + more;
  }

  /** The nodes of one shard, in the order in which a round reads them. */
  function ShardNodes(v: Shelves, s: Shard): seq<NodeData> {
    Regrouped(NodesAt(v.regular.nodes, s), v.regular.synced) +
    Regrouped(NodesAt(v.snapshotless.nodes, s), v.snapshotless.synced)
  }

  function AllShardNodes(v: Shelves, ids: seq<Shard>): seq<NodeData> {
    if ids == [] then [] else AllShardNodes(v, ids[..|ids| - 1]) + ShardNodes(v, ids[|ids| - 1])
  }

  /** `GetAllNodesWithSyncState`. */
  method GetAllNodesWithSyncState(p: NodeProvider) returns (nodes: seq<NodeData>)
    requires p.Valid()
    modifies p.regular`cache, p.snapshotless`cache
    ensures p.Valid() && p.View() == old(p.View())
    ensures nodes == AllShardNodes(p.View(), p.shardIds)
  {
    nodes := [];
    var ids := p.shardIds;
    ghost var v := p.View();
    ghost var before: seq<Shard> := [];
    for i := 0 to |ids|
      invariant p.Valid() && p.View() == v
      invariant before == ids[..i]
      invariant nodes == AllShardNodes(v, before)
    {
      var more := ReadShard(p, v, ids[i]);
      NextShardNodes(v, before, ids[i]);
      nodes := nodes + more;
      before := before + [ids[i]];
    }
    assert before == ids;
  }

  lemma NextShardNodes(v: Shelves, before: seq<Shard>, s: Shard)
    ensures AllShardNodes(v, before + [s]) == AllShardNodes(v, before) + ShardNodes(v, s)
  {
    assert (before + [s])[..|before|] == before;
  }

  /** The nodes are read shard by shard, and of each shard the ones of full history first. */
  lemma {:induction false} ReadInOrder(v: Shelves, ids: seq<Shard>, i: nat, j: nat)
    requires WellFiled(v) && Increasing(ids) && i < j < |AllShardNodes(v, ids)|
    ensures var x, y := AllShardNodes(v, ids)[i], AllShardNodes(v, ids)[j];
            x.shardId < y.shardId || (x.shardId == y.shardId && (x.isSnapshotless ==> y.isSnapshotless))
  {
    var init, s := ids[..|ids| - 1], ids[|ids| - 1];
    var n := |AllShardNodes(v, init)|;
    if j < n {
      ReadInOrder(v, init, i, j);
    } else {
      ShardNodesUniform(v, s);
      assert AllShardNodes(v, ids)[j] == ShardNodes(v, s)[j - n];
      if i < n {
        ReadOfShards(v, init, i);
      } else {
        assert AllShardNodes(v, ids)[i] == ShardNodes(v, s)[i - n];
      }
    }
  }

  lemma ShardNodesUniform(v: Shelves, s: Shard)
    requires WellFiled(v)
    ensures forall i :: 0 <= i < |ShardNodes(v, s)| ==>
              ShardNodes(v, s)[i].shardId == s && (ShardNodes(v, s)[i].isSnapshotless <==> i >= |ReadOf(v, s, false)|)
  {
    ReadUniform(v, s, false);
    ReadUniform(v, s, true);
    assert ShardNodes(v, s) == ReadOf(v, s, false) + ReadOf(v, s, true);
  }

  lemma {:induction false} ReadOfShards(v: Shelves, ids: seq<Shard>, i: nat)
    requires WellFiled(v) && i < |AllShardNodes(v, ids)|
    ensures AllShardNodes(v, ids)[i].shardId in ids
  {
    var init, s := ids[..|ids| - 1], ids[|ids| - 1];
    if i < |AllShardNodes(v, init)| {
      ReadOfShards(v, init, i);
    } else {
      ShardNodesUniform(v, s);
      assert AllShardNodes(v, ids)[i] == ShardNodes(v, s)[i - |AllShardNodes(v, init)|];
    }
  }

  /** The lists of one shard, first those of the regular holder. */
  method ReadShard(p: NodeProvider, ghost v: Shelves, s: Shard) returns (nodes: seq<NodeData>)
    requires p.Valid() && p.View() == v
    modifies p.regular`cache, p.snapshotless`cache
    ensures p.Valid() && p.View() == v
    ensures nodes == ShardNodes(v, s)
  {
    var regular := EnumerateShard(p.regular, s);
    var snapshotless := EnumerateShard(p.snapshotless, s);
    nodes := regular + snapshotless;
  }

  // ----- Setting the flags -----

  /** Each node carries the flag that its answer calls for. */
  ghost predicate Flagged(nodes: seq<NodeData>, status: NodeData -> StatusAnswer)
    reads nodes
  {
    forall i :: 0 <= i < |nodes| ==> nodes[i].isSynced == IsNodeSynced(status(nodes[i]))
  }

  /** `getNodesWithSyncStatus`. */
  method GetNodesWithSyncStatus(nodes: seq<NodeData>, status: NodeData -> StatusAnswer) returns (r: seq<NodeData>)
    modifies Members(nodes)`isSynced
    ensures r == nodes
    ensures Flagged(nodes, status)
  {
    r := [];
    for i := 0 to |nodes|
      invariant r == nodes[..i]
      invariant forall j :: 0 <= j < i ==> nodes[j].isSynced == IsNodeSynced(status(nodes[j]))
    {
      nodes[i].isSynced := IsNodeSynced(status(nodes[i]));
      r := r + [nodes[i]];
    }
  }

  // ----- Writing back -----

  /** `splitNodesByDataAvailability`. */
  method SplitByAvailability(nodes: seq<NodeData>) returns (regular: seq<NodeData>, snapshotless: seq<NodeData>)
    ensures IsPart(nodes, regular, false) && IsPart(nodes, snapshotless, true)
  {
    regular, snapshotless := [], [];
    assert forall s, sl :: SamePartAt([], [], sl, s);
    ghost var before: seq<NodeData> := [];
    for i := 0 to |nodes|
      invariant before == nodes[..i]
      invariant IsPart(before, regular, false) && IsPart(before, snapshotless, true)
    {
      var node := nodes[i];
      ghost var regular0, snapshotless0 := regular, snapshotless;
      if node.isSnapshotless {
        snapshotless := snapshotless + [node];
      } else {
        regular := regular + [node];
      }
      assert regular == Take(regular0, false, node) && snapshotless == Take(snapshotless0, true, node);
      PartSnoc(before, regular0, false, node);
      PartSnoc(before, snapshotless0, true, node);
      before := before + [node];
    }
    assert before == nodes;
  }

  /** `part` is what `nodes` has of one class, in order. */
  ghost predicate IsPart(nodes: seq<NodeData>, part: seq<NodeData>, snapshotless: bool) {
    && AllIn(part, nodes)
    && (forall i :: 0 <= i < |nodes| && nodes[i].isSnapshotless == snapshotless ==> nodes[i] in part)
    && (forall s :: SamePartAt(nodes, part, snapshotless, s))
  }

  predicate SamePartAt(nodes: seq<NodeData>, part: seq<NodeData>, snapshotless: bool, s: Shard) {
    OfShard(part, s, snapshotless) == OfShard(nodes, s, snapshotless)
  }

  function Take(part: seq<NodeData>, snapshotless: bool, node: NodeData): seq<NodeData> {
    if node.isSnapshotless == snapshotless then part + [node] else part
  }

  lemma PartSnoc(nodes: seq<NodeData>, part: seq<NodeData>, snapshotless: bool, node: NodeData)
    requires IsPart(nodes, part, snapshotless)
    ensures IsPart(nodes + [node], Take(part, snapshotless, node), snapshotless)
  {
    var part' := Take(part, snapshotless, node);
    forall s ensures SamePartAt(nodes + [node], part', snapshotless, s) {
      OfShardSnoc(nodes, node, s, snapshotless);
      OfShardSnoc(part, node, s, snapshotless);
      assert SamePartAt(nodes, part, snapshotless, s);
    }
  }

  ghost function Members(nodes: seq<NodeData>): set<NodeData> {
    set n | n in nodes
  }

  /** A list that holds, shard by shard, what a holder holds already, in whatever order. */
  ghost predicate SameHoldings(m: map<Shard, seq<NodeData>>, nodes: seq<NodeData>, snapshotless: bool) {
    forall s :: SameHoldingsAt(m, nodes, snapshotless, s)
  }

  predicate SameHoldingsAt(m: map<Shard, seq<NodeData>>, nodes: seq<NodeData>, snapshotless: bool, s: Shard) {
    multiset(OfShard(nodes, s, snapshotless)) == multiset(NodesAt(m, s))
  }

  /** A shard without nodes has only empty lists in the cache, whatever the flags say. */
  ghost predicate EmptyListsForEmptyShards(m: map<Shard, seq<NodeData>>, cache: map<string, seq<NodeData>>) {
    forall kind, s :: EmptyListAt(m, cache, kind, s)
  }

  predicate EmptyListAt(m: map<Shard, seq<NodeData>>, cache: map<string, seq<NodeData>>, kind: Kind, s: Shard) {
    CacheKey(kind, s) in cache && NodesAt(m, s) == [] ==> cache[CacheKey(kind, s)] == []
  }

  /** `UpdateNodes` of one holder with its part of a list that holds the same nodes as before. */
  method UpdateHolder(h: NodesHolder, ghost nodes: seq<NodeData>, part: seq<NodeData>)
    requires h.Filed() && IsPart(nodes, part, h.availability == Recent)
    requires SameHoldings(h.allNodes, nodes, h.availability == Recent)
    requires EmptyListsForEmptyShards(h.allNodes, h.cache)
    modifies h`allNodes, h`cache, h`held
    ensures h.Valid() && h.held <= old(h.held) + Members(nodes)
    ensures FiledFrom(h.allNodes, nodes, h.availability == Recent)
  {
    if part == [] {
      NothingHeld(h.allNodes, nodes, part, h.availability == Recent);
      h.UpdateNodes(part);
      forall kind, s ensures h.CoherentAt(kind, s) {
        assert EmptyListAt(h.allNodes, h.cache, kind, s);
      }
    } else {
      Refill(h, nodes, part);
    }
  }

  method Refill(h: NodesHolder, ghost nodes: seq<NodeData>, part: seq<NodeData>)
    requires h.Filed() && IsPart(nodes, part, h.availability == Recent) && part != []
    requires SameHoldings(h.allNodes, nodes, h.availability == Recent)
    modifies h`allNodes, h`cache, h`held
    ensures h.Valid() && h.held <= Members(nodes)
    ensures FiledFrom(h.allNodes, nodes, h.availability == Recent)
  {
    ghost var before := h.allNodes;
    h.UpdateNodes(part);
    FiledAgain(h.allNodes, nodes, part, h.availability == Recent);
    forall s ensures h.KeptAt(s) && h.SortedAt(s) {
      HeldAgain(h.allNodes, before, nodes, part, h.availability == Recent, s);
      assert old(h.KeptAt(s));
    }
    assert forall kind, s :: h.CoherentAt(kind, s);
  }

  lemma NothingHeld(m: map<Shard, seq<NodeData>>, nodes: seq<NodeData>, part: seq<NodeData>, snapshotless: bool)
    requires SameHoldings(m, nodes, snapshotless) && IsPart(nodes, part, snapshotless) && part == []
    ensures FiledFrom(m, nodes, snapshotless) && forall s :: NodesAt(m, s) == []
  {
    forall s ensures FiledFromAt(m, nodes, snapshotless, s) && NodesAt(m, s) == [] {
      assert SamePartAt(nodes, part, snapshotless, s) && SameHoldingsAt(m, nodes, snapshotless, s);
      assert |multiset(NodesAt(m, s))| == 0;
    }
  }

  lemma FiledAgain(m: map<Shard, seq<NodeData>>, nodes: seq<NodeData>, part: seq<NodeData>, snapshotless: bool)
    requires FiledFrom(m, part, snapshotless) && IsPart(nodes, part, snapshotless)
    ensures FiledFrom(m, nodes, snapshotless)
  {
    forall s ensures FiledFromAt(m, nodes, snapshotless, s) {
      assert FiledFromAt(m, part, snapshotless, s) && SamePartAt(nodes, part, snapshotless, s);
    }
  }

  lemma HeldAgain(m: map<Shard, seq<NodeData>>, before: map<Shard, seq<NodeData>>,
                  nodes: seq<NodeData>, part: seq<NodeData>, snapshotless: bool, s: Shard)
    requires FiledFrom(m, nodes, snapshotless) && IsPart(nodes, part, snapshotless)
    requires SameHoldings(before, nodes, snapshotless)
    ensures AllIn(NodesAt(m, s), NodesAt(before, s)) && AllIn(NodesAt(m, s), part)
    ensures AllOf(NodesAt(m, s), s, snapshotless)
  {
    assert FiledFromAt(m, nodes, snapshotless, s) && SamePartAt(nodes, part, snapshotless, s);
    assert SameHoldingsAt(before, nodes, snapshotless, s);
    OfShardIncluded(part, s, snapshotless);
    SameMultisetIncluded(OfShard(nodes, s, snapshotless), NodesAt(before, s));
  }

  // ----- The whole round -----

  /** Both holders list every node under its own shard and in its own class. */
  ghost predicate WellFiled(v: Shelves) {
    forall s :: WellFiledAt(v, s)
  }

  predicate WellFiledAt(v: Shelves, s: Shard) {
    AllOf(NodesAt(v.regular.nodes, s), s, false) && AllOf(NodesAt(v.snapshotless.nodes, s), s, true)
  }

  /** What a round reads of one shard and class. */
  function ReadOf(v: Shelves, s: Shard, snapshotless: bool): seq<NodeData> {
    var shelf := if snapshotless then v.snapshotless else v.regular;
    Regrouped(NodesAt(shelf.nodes, s), shelf.synced)
  }

  lemma ReadUniform(v: Shelves, id: Shard, snapshotless: bool)
    requires WellFiled(v)
    ensures AllOf(ReadOf(v, id, snapshotless), id, snapshotless)
  {
    var shelf := if snapshotless then v.snapshotless else v.regular;
    assert WellFiledAt(v, id);
    RegroupedIncluded(NodesAt(shelf.nodes, id), shelf.synced);
    AllInAllOf(ReadOf(v, id, snapshotless), NodesAt(shelf.nodes, id), id, snapshotless);
  }

  lemma ShardNodesOf(v: Shelves, id: Shard, s: Shard, snapshotless: bool)
    requires WellFiled(v)
    ensures OfShard(ShardNodes(v, id), s, snapshotless) == if s == id then ReadOf(v, s, snapshotless) else []
  {
    var regular, recent := ReadOf(v, id, false), ReadOf(v, id, true);
    ReadUniform(v, id, false);
    ReadUniform(v, id, true);
    OfShardUniform(regular, id, false, s, snapshotless);
    OfShardUniform(recent, id, true, s, snapshotless);
    assert ShardNodes(v, id) == regular + recent;
    OfShardConcat(regular, recent, s, snapshotless);
    JoinedWithEmpty(ReadOf(v, id, snapshotless));
  }

  lemma LastIsNew(ids: seq<Shard>, s: Shard)
    requires Increasing(ids) && ids != []
    ensures var init, last := ids[..|ids| - 1], ids[|ids| - 1];
            Increasing(init) && last !in init && (s in ids <==> s in init || s == last)
  {
    var init, last := ids[..|ids| - 1], ids[|ids| - 1];
    assert ids == init + [last];
  }

  lemma JoinedWithEmpty(nodes: seq<NodeData>)
    ensures nodes + [] == [] + nodes == nodes
  {
  }

  /** The list read holds exactly the nodes of each configured shard, kind by kind. */
  lemma {:induction false} AllShardNodesOf(v: Shelves, ids: seq<Shard>, s: Shard, snapshotless: bool)
    requires WellFiled(v) && Increasing(ids)
    ensures OfShard(AllShardNodes(v, ids), s, snapshotless) == if s in ids then ReadOf(v, s, snapshotless) else []
  {
    if ids != [] {
      var init, last := ids[..|ids| - 1], ids[|ids| - 1];
      LastIsNew(ids, s);
      AllShardNodesOf(v, init, s, snapshotless);
      ShardNodesOf(v, last, s, snapshotless);
      OfShardConcat(AllShardNodes(v, init), ShardNodes(v, last), s, snapshotless);
      JoinedWithEmpty(ReadOf(v, s, snapshotless));
    }
  }

  /** Every node is listed by one of the holders. */
  ghost predicate AllListed(v: Shelves, nodes: seq<NodeData>) {
    forall i :: 0 <= i < |nodes| ==>
      exists s :: nodes[i] in NodesAt(v.regular.nodes, s) || nodes[i] in NodesAt(v.snapshotless.nodes, s)
  }

  lemma ShardNodesListed(v: Shelves, id: Shard)
    ensures AllListed(v, ShardNodes(v, id))
  {
    RegroupedIncluded(NodesAt(v.regular.nodes, id), v.regular.synced);
    RegroupedIncluded(NodesAt(v.snapshotless.nodes, id), v.snapshotless.synced);
    forall i | 0 <= i < |ShardNodes(v, id)|
      ensures || ShardNodes(v, id)[i] in NodesAt(v.regular.nodes, id)
              || ShardNodes(v, id)[i] in NodesAt(v.snapshotless.nodes, id)
    {
      var n := |ReadOf(v, id, false)|;
      if i < n {
        assert ShardNodes(v, id)[i] == ReadOf(v, id, false)[i];
      } else {
        assert ShardNodes(v, id)[i] == ReadOf(v, id, true)[i - n];
      }
    }
  }

  lemma {:induction false} AllShardNodesListed(v: Shelves, ids: seq<Shard>)
    ensures AllListed(v, AllShardNodes(v, ids))
  {
    if ids != [] {
      AllShardNodesListed(v, ids[..|ids| - 1]);
      ShardNodesListed(v, ids[|ids| - 1]);
    }
  }

  lemma ReadsEverything(v: Shelves, ids: seq<Shard>)
    requires WellFiled(v) && Covers(ids, v.regular.nodes, v.snapshotless.nodes)
    ensures SameHoldings(v.regular.nodes, AllShardNodes(v, ids), false)
    ensures SameHoldings(v.snapshotless.nodes, AllShardNodes(v, ids), true)
  {
    forall s ensures SameHoldingsAt(v.regular.nodes, AllShardNodes(v, ids), false, s) {
      assert CoveredAt(ids, v.regular.nodes, v.snapshotless.nodes, s);
      AllShardNodesOf(v, ids, s, false);
      RegroupedConserves(NodesAt(v.regular.nodes, s), v.regular.synced);
    }
    forall s ensures SameHoldingsAt(v.snapshotless.nodes, AllShardNodes(v, ids), true, s) {
      assert CoveredAt(ids, v.regular.nodes, v.snapshotless.nodes, s);
      AllShardNodesOf(v, ids, s, true);
      RegroupedConserves(NodesAt(v.snapshotless.nodes, s), v.snapshotless.synced);
    }
  }

  /** What a round leaves of one holder: the same nodes of each shard, now kind by kind. */
  ghost predicate Rewritten(before: Shelf, after: map<Shard, seq<NodeData>>) {
    forall s :: RewrittenAt(before, after, s)
  }

  predicate RewrittenAt(before: Shelf, after: map<Shard, seq<NodeData>>, s: Shard) {
    && NodesAt(after, s) == Regrouped(NodesAt(before.nodes, s), before.synced)
    && multiset(NodesAt(after, s)) == multiset(NodesAt(before.nodes, s))
  }

  lemma RewrittenFromList(v: Shelves, ids: seq<Shard>, after: map<Shard, seq<NodeData>>, snapshotless: bool)
    requires WellFiled(v) && Covers(ids, v.regular.nodes, v.snapshotless.nodes)
    requires FiledFrom(after, AllShardNodes(v, ids), snapshotless)
    ensures var shelf := if snapshotless then v.snapshotless else v.regular;
            Rewritten(shelf, after)
  {
    var shelf := if snapshotless then v.snapshotless else v.regular;
    forall s ensures RewrittenAt(shelf, after, s) {
      assert CoveredAt(ids, v.regular.nodes, v.snapshotless.nodes, s);
      assert FiledFromAt(after, AllShardNodes(v, ids), snapshotless, s);
      AllShardNodesOf(v, ids, s, snapshotless);
      RegroupedConserves(NodesAt(shelf.nodes, s), shelf.synced);
    }
  }

  /** Sets the flags of nodes of a provider; until they are written back, its caches are out of date. */
  method SetFlags(p: NodeProvider, nodes: seq<NodeData>, status: NodeData -> StatusAnswer)
    requires p.Valid() && Members(nodes) <= p.regular.held + p.snapshotless.held
    modifies (p.regular.held + p.snapshotless.held)`isSynced
    ensures p.regular.Filed() && p.snapshotless.Filed()
    ensures EmptyListsForEmptyShards(p.regular.allNodes, p.regular.cache)
    ensures EmptyListsForEmptyShards(p.snapshotless.allNodes, p.snapshotless.cache)
    ensures Flagged(nodes, status)
  {
    EmptyLists(p.regular);
    EmptyLists(p.snapshotless);
    var withStatus := GetNodesWithSyncStatus(nodes, status);
    forall s
      ensures p.regular.KeptAt(s) && p.regular.SortedAt(s) && p.snapshotless.KeptAt(s) && p.snapshotless.SortedAt(s)
    {
      assert old(p.regular.KeptAt(s) && p.regular.SortedAt(s));
      assert old(p.snapshotless.KeptAt(s) && p.snapshotless.SortedAt(s));
    }
  }

  lemma EmptyLists(h: NodesHolder)
    requires h.Valid()
    ensures EmptyListsForEmptyShards(h.allNodes, h.cache)
  {
    forall kind, s ensures EmptyListAt(h.allNodes, h.cache, kind, s) {
      assert h.CoherentAt(kind, s);
    }
  }

  /** `UpdateNodesBasedOnSyncState`, with a list that holds the same nodes as before. */
  method WriteBack(p: NodeProvider, nodes: seq<NodeData>)
    requires p.regular != p.snapshotless && p.regular.availability == All && p.snapshotless.availability == Recent
    requires p.regular.Filed() && p.snapshotless.Filed()
    requires SameHoldings(p.regular.allNodes, nodes, false) && SameHoldings(p.snapshotless.allNodes, nodes, true)
    requires EmptyListsForEmptyShards(p.regular.allNodes, p.regular.cache)
    requires EmptyListsForEmptyShards(p.snapshotless.allNodes, p.snapshotless.cache)
    modifies p.regular`allNodes, p.regular`cache, p.regular`held
    modifies p.snapshotless`allNodes, p.snapshotless`cache, p.snapshotless`held
    ensures p.regular.Valid() && p.snapshotless.Valid()
    ensures FiledFrom(p.regular.allNodes, nodes, false) && FiledFrom(p.snapshotless.allNodes, nodes, true)
    ensures p.regular.held <= old(p.regular.held) + Members(nodes)
    ensures p.snapshotless.held <= old(p.snapshotless.held) + Members(nodes)
  {
    var regular, snapshotless := SplitByAvailability(nodes);
    UpdateBeside(p.regular, p.snapshotless, nodes, regular);
    UpdateBeside(p.snapshotless, p.regular, nodes, snapshotless);
  }

  /** Updating one holder leaves another one alone. */
  method UpdateBeside(h: NodesHolder, other: NodesHolder, ghost nodes: seq<NodeData>, part: seq<NodeData>)
    requires h != other && h.Filed() && IsPart(nodes, part, h.availability == Recent)
    requires SameHoldings(h.allNodes, nodes, h.availability == Recent)
    requires EmptyListsForEmptyShards(h.allNodes, h.cache)
    modifies h`allNodes, h`cache, h`held
    ensures h.Valid() && h.held <= old(h.held) + Members(nodes)
    ensures FiledFrom(h.allNodes, nodes, h.availability == Recent)
    ensures old(other.Filed()) ==> other.Filed()
    ensures old(other.Valid()) ==> other.Valid()
  {
    UpdateHolder(h, nodes, part);
  }

  /** One sync round, for arbitrary answers of the nodes. */
  method UpdateNodesWithSync(p: NodeProvider, status: NodeData -> StatusAnswer)
    requires p.Valid()
    modifies p.regular`allNodes, p.regular`cache, p.regular`held
    modifies p.snapshotless`allNodes, p.snapshotless`cache, p.snapshotless`held
    modifies (p.regular.held + p.snapshotless.held)`isSynced
    ensures p.Valid()
    ensures p.regular.held + p.snapshotless.held <= old(p.regular.held + p.snapshotless.held)
    ensures Rewritten(old(p.View()).regular, p.regular.allNodes)
    ensures Rewritten(old(p.View()).snapshotless, p.snapshotless.allNodes)
    ensures forall s ::
              Flagged(NodesAt(p.regular.allNodes, s), status) && Flagged(NodesAt(p.snapshotless.allNodes, s), status)
    ensures forall s, n :: s in p.regular.allNodes && n in p.regular.allNodes[s] ==>
              (n.isSynced <==>
                 && status(n).Answered? && status(n).code == 200 && status(n).vmQueriesReady
                 && status(n).probableHighest < status(n).nonce + 10)
    ensures forall s, n :: s in p.snapshotless.allNodes && n in p.snapshotless.allNodes[s] ==>
              (n.isSynced <==>
                 && status(n).Answered? && status(n).code == 200 && status(n).vmQueriesReady
                 && status(n).probableHighest < status(n).nonce + 10)
  {
    ghost var v := p.View();
    var nodes := ReadAndFlag(p, status);
    WriteBack(p, nodes);
    RoundDone(p, v, nodes, status);
    FlaggedInFull(p.regular.allNodes, status);
    FlaggedInFull(p.snapshotless.allNodes, status);
  }

  lemma FlaggedInFull(m: map<Shard, seq<NodeData>>, status: NodeData -> StatusAnswer)
    requires forall s :: Flagged(NodesAt(m, s), status)
    ensures forall s, n :: s in m && n in m[s] ==>
              (n.isSynced <==>
                 && status(n).Answered? && status(n).code == 200 && status(n).vmQueriesReady
                 && status(n).probableHighest < status(n).nonce + 10)
  {
    forall s, n | s in m && n in m[s]
      ensures n.isSynced <==>
              && status(n).Answered? && status(n).code == 200 && status(n).vmQueriesReady
              && status(n).probableHighest < status(n).nonce + 10
    {
      assert Flagged(NodesAt(m, s), status);
      SyncedExactly(status(n));
    }
  }

  lemma RoundDone(p: NodeProvider, v: Shelves, nodes: seq<NodeData>, status: NodeData -> StatusAnswer)
    requires p.regular != p.snapshotless && p.regular.availability == All && p.snapshotless.availability == Recent
    requires p.regular.Valid() && p.snapshotless.Valid()
    requires WellFiled(v) && Covers(p.shardIds, v.regular.nodes, v.snapshotless.nodes)
    requires nodes == AllShardNodes(v, p.shardIds)
    requires FiledFrom(p.regular.allNodes, nodes, false) && FiledFrom(p.snapshotless.allNodes, nodes, true)
    requires Flagged(nodes, status)
    ensures p.Valid()
    ensures Rewritten(v.regular, p.regular.allNodes) && Rewritten(v.snapshotless, p.snapshotless.allNodes)
    ensures forall s ::
              Flagged(NodesAt(p.regular.allNodes, s), status) && Flagged(NodesAt(p.snapshotless.allNodes, s), status)
  {
    RewrittenFromList(v, p.shardIds, p.regular.allNodes, false);
    RewrittenFromList(v, p.shardIds, p.snapshotless.allNodes, true);
    FlaggedFiled(p.regular.allNodes, nodes, false, status);
    FlaggedFiled(p.snapshotless.allNodes, nodes, true, status);
    SameShards(v.regular, p.regular.allNodes);
    SameShards(v.snapshotless, p.snapshotless.allNodes);
    forall s ensures CoveredAt(p.shardIds, p.regular.allNodes, p.snapshotless.allNodes, s) {
      assert CoveredAt(p.shardIds, v.regular.nodes, v.snapshotless.nodes, s);
    }
  }

  /** The first half of a round: enumerate, then set the flags in place. */
  method ReadAndFlag(p: NodeProvider, status: NodeData -> StatusAnswer) returns (nodes: seq<NodeData>)
    requires p.Valid()
    modifies p.regular`cache, p.snapshotless`cache, (p.regular.held + p.snapshotless.held)`isSynced
    ensures nodes == AllShardNodes(old(p.View()), p.shardIds) && WellFiled(old(p.View()))
    ensures p.regular.Filed() && p.snapshotless.Filed()
    ensures SameHoldings(p.regular.allNodes, nodes, false) && SameHoldings(p.snapshotless.allNodes, nodes, true)
    ensures EmptyListsForEmptyShards(p.regular.allNodes, p.regular.cache)
    ensures EmptyListsForEmptyShards(p.snapshotless.allNodes, p.snapshotless.cache)
    ensures Members(nodes) <= p.regular.held + p.snapshotless.held
    ensures Flagged(nodes, status)
  {
    ghost var v := p.View();
    nodes := GetAllNodesWithSyncState(p);
    AllNodesHeld(p, v, nodes);
    SetFlags(p, nodes, status);
  }

  lemma ValidIsWellFiled(p: NodeProvider)
    requires p.Valid()
    ensures WellFiled(p.View())
  {
    forall s ensures WellFiledAt(p.View(), s) {
      assert p.regular.SortedAt(s) && p.snapshotless.SortedAt(s);
    }
  }

  lemma ListedIsHeld(p: NodeProvider, nodes: seq<NodeData>)
    requires p.Valid() && AllListed(p.View(), nodes)
    ensures Members(nodes) <= p.regular.held + p.snapshotless.held
  {
    var v := p.View();
    forall i | 0 <= i < |nodes| ensures nodes[i] in p.regular.held + p.snapshotless.held {
      var s :| nodes[i] in NodesAt(v.regular.nodes, s) || nodes[i] in NodesAt(v.snapshotless.nodes, s);
      assert p.regular.KeptAt(s) && p.snapshotless.KeptAt(s);
    }
  }

  lemma AllNodesHeld(p: NodeProvider, v: Shelves, nodes: seq<NodeData>)
    requires p.Valid() && v == p.View() && nodes == AllShardNodes(v, p.shardIds)
    ensures WellFiled(v)
    ensures SameHoldings(v.regular.nodes, nodes, false) && SameHoldings(v.snapshotless.nodes, nodes, true)
    ensures Members(nodes) <= p.regular.held + p.snapshotless.held
  {
    ValidIsWellFiled(p);
    ReadsEverything(v, p.shardIds);
    AllShardNodesListed(v, p.shardIds);
    ListedIsHeld(p, nodes);
  }

  lemma FlaggedFiled(m: map<Shard, seq<NodeData>>, nodes: seq<NodeData>, snapshotless: bool,
                     status: NodeData -> StatusAnswer)
    requires FiledFrom(m, nodes, snapshotless) && Flagged(nodes, status)
    ensures forall s :: Flagged(NodesAt(m, s), status)
  {
    forall s ensures Flagged(NodesAt(m, s), status) {
      OfShardIncluded(nodes, s, snapshotless);
      assert FiledFromAt(m, nodes, snapshotless, s);
    }
  }

  lemma SameShards(before: Shelf, after: map<Shard, seq<NodeData>>)
    requires Rewritten(before, after)
    ensures forall s :: NodesAt(after, s) == [] <==> NodesAt(before.nodes, s) == []
  {
    forall s ensures NodesAt(after, s) == [] <==> NodesAt(before.nodes, s) == [] {
      assert RewrittenAt(before, after, s);
      SameMultisetIncluded(NodesAt(after, s), NodesAt(before.nodes, s));
    }
  }

  // ----- Whole runs -----

  /** Each holder lists the same nodes under every shard, in whatever order. */
  ghost predicate SameNodes(v: Shelves, v': Shelves) {
    forall s :: SameNodesAt(v, v', s)
  }

  predicate SameNodesAt(v: Shelves, v': Shelves, s: Shard) {
    && multiset(NodesAt(v'.regular.nodes, s)) == multiset(NodesAt(v.regular.nodes, s))
    && multiset(NodesAt(v'.snapshotless.nodes, s)) == multiset(NodesAt(v.snapshotless.nodes, s))
  }

  /** The nodes listed are clones of the nodes configured in one list, each of its own, under the shards of that
      list. */
  ghost predicate MadeFrom(configs: seq<NodeConfig>, ids: seq<Shard>, v: Shelves) {
    forall s :: MadeFromAt(configs, ids, v, s)
  }

  predicate MadeFromAt(configs: seq<NodeConfig>, ids: seq<Shard>, v: Shelves, s: Shard) {
    && (s in ids <==> Filter(InShard(s), configs) != [])
    && multiset(Configs(NodesAt(v.regular.nodes, s))) == multiset(Arranged(configs, false, s))
    && multiset(Configs(NodesAt(v.snapshotless.nodes, s))) == multiset(Arranged(configs, true, s))
  }

  lemma {:induction false} ConfigsRearranged(a: seq<NodeData>, b: seq<NodeData>)
    requires multiset(a) == multiset(b)
    ensures multiset(Configs(a)) == multiset(Configs(b))
    decreases |a|
  {
    if a == [] {
      assert |multiset(b)| == 0;
    } else {
      var init, last := a[..|a| - 1], a[|a| - 1];
      assert a == init + [last];
      var front, back := SplitAtLast(init, last, b);
      ConfigsRearranged(init, front + back);
      ConfigsAround(init, last, []);
      ConfigsAround(front, last, back);
      assert init + [last] + [] == a && init + [] == init;
    }
  }

  lemma ConfigsAround(front: seq<NodeData>, x: NodeData, back: seq<NodeData>)
    ensures multiset(Configs(front + [x] + back)) == multiset(Configs(front + back)) + multiset{x.Config()}
  {
    assert Configs(front + [x] + back) == Configs(front) + [x.Config()] + Configs(back);
    assert Configs(front + back) == Configs(front) + Configs(back);
  }

  lemma StillMadeFrom(configs: seq<NodeConfig>, ids: seq<Shard>, v: Shelves, v': Shelves)
    requires MadeFrom(configs, ids, v) && SameNodes(v, v')
    ensures MadeFrom(configs, ids, v')
  {
    forall s ensures MadeFromAt(configs, ids, v', s) {
      assert MadeFromAt(configs, ids, v, s) && SameNodesAt(v, v', s);
      ConfigsRearranged(NodesAt(v'.regular.nodes, s), NodesAt(v.regular.nodes, s));
      ConfigsRearranged(NodesAt(v'.snapshotless.nodes, s), NodesAt(v.snapshotless.nodes, s));
    }
  }

  lemma FilledIsMadeFrom(configs: seq<NodeConfig>, ids: seq<Shard>, v: Shelves)
    requires FilledFrom(configs, ids, v.regular.nodes, v.snapshotless.nodes)
    ensures MadeFrom(configs, ids, v)
  {
    forall s ensures MadeFromAt(configs, ids, v, s) {
      assert HoldingAt(v.regular.nodes, configs, false, s) && HoldingAt(v.snapshotless.nodes, configs, true, s);
    }
  }

  lemma RewrittenIsSame(v: Shelves, v': Shelves)
    requires Rewritten(v.regular, v'.regular.nodes) && Rewritten(v.snapshotless, v'.snapshotless.nodes)
    ensures SameNodes(v, v')
  {
    forall s ensures SameNodesAt(v, v', s) {
      assert RewrittenAt(v.regular, v'.regular.nodes, s) && RewrittenAt(v.snapshotless, v'.snapshotless.nodes, s);
    }
  }

  /** What may happen to a pool: a sync round with arbitrary answers, a reload with a list that passes the
      checks, or a request for nodes. */
  datatype Event =
    | Round(status: NodeData -> StatusAnswer)
    | Reload(configs: seq<NodeConfig>)
    | Request(shard: Shard, availability: Availability)

  /** The list taken over last. */
  function Latest(configs: seq<NodeConfig>, events: seq<Event>): seq<NodeConfig> {
    if events == [] then configs
    else if events[|events| - 1].Reload? then events[|events| - 1].configs
    else Latest(configs, events[..|events| - 1])
  }

  predicate NoReload(events: seq<Event>) {
    forall i :: 0 <= i < |events| ==> !events[i].Reload?
  }

  ghost function Objects(p: NodeProvider): set<object>
    reads p, p.regular, p.snapshotless
  {
    {p.regular, p.snapshotless} + p.regular.held + p.snapshotless.held
  }

  /** What is listed after a sync round, given what was listed before. */
  ghost predicate RoundLeaves(v: Shelves, status: NodeData -> StatusAnswer, v': Shelves) {
    && Rewritten(v.regular, v'.regular.nodes) && Rewritten(v.snapshotless, v'.snapshotless.nodes)
    && FlagsShown(v', status)
  }

  /** The nodes listed as synced are those whose answers call for it. */
  ghost predicate FlagsShown(v: Shelves, status: NodeData -> StatusAnswer) {
    forall s :: FlagsShownAt(v.regular, status, s) && FlagsShownAt(v.snapshotless, status, s)
  }

  predicate FlagsShownAt(shelf: Shelf, status: NodeData -> StatusAnswer, s: Shard) {
    var nodes := NodesAt(shelf.nodes, s);
    forall i :: 0 <= i < |nodes| ==> (nodes[i] in shelf.synced <==> IsNodeSynced(status(nodes[i])))
  }

  lemma FlagsAreShown(p: NodeProvider, status: NodeData -> StatusAnswer)
    requires p.Valid()
    requires forall s ::
               Flagged(NodesAt(p.regular.allNodes, s), status) && Flagged(NodesAt(p.snapshotless.allNodes, s), status)
    ensures FlagsShown(p.View(), status)
  {
    forall s ensures FlagsShownAt(p.View().regular, status, s) && FlagsShownAt(p.View().snapshotless, status, s) {
      assert p.regular.KeptAt(s) && p.snapshotless.KeptAt(s);
    }
  }

  /** One event: only a reload changes which nodes are held and for which shards. */
  method Happen(p: NodeProvider, e: Event)
    requires p.Valid() && (e.Reload? ==> Accepted(e.configs, p.numOfShards))
    modifies p, Objects(p)
    ensures p.Valid() && fresh(Objects(p) - old(Objects(p)))
    ensures !e.Reload? ==> p.shardIds == old(p.shardIds) && SameNodes(old(p.View()), p.View())
    ensures e.Reload? ==> MadeFrom(e.configs, p.shardIds, p.View())
    ensures e.Round? ==> RoundLeaves(old(p.View()), e.status, p.View())
    ensures e.Request? ==> p.View() == old(p.View())
  {
    match e
    case Round(status) =>
      UpdateNodesWithSync(p, status);
      RewrittenIsSame(old(p.View()), p.View());
      FlagsAreShown(p, status);
    case Reload(configs) =>
      var r := p.InitNodes(configs);
      FilledIsMadeFrom(configs, p.shardIds, p.View());
    case Request(shard, availability) =>
      var nodes := p.GetSyncedNodesForShard(shard, availability);
  }

  /** From any pool made from an accepted list, whatever happens, the pool holds exactly the nodes configured in
      the list taken over last, and every shard of that list is served for both availabilities, by the first
      non-empty tier of its nodes. Without reloads the shards and the nodes are the very same as before. */
  method Run(p: NodeProvider, ghost configs: seq<NodeConfig>, events: seq<Event>)
    requires p.Valid() && MadeFrom(configs, p.shardIds, p.View())
    requires AllAccepted(events, p.numOfShards)
    modifies p, Objects(p)
    ensures p.Valid() && MadeFrom(Latest(configs, events), p.shardIds, p.View())
    ensures forall s, av :: Filter(InShard(s), Latest(configs, events)) != [] ==> Served(p, s, av)
    ensures NoReload(events) ==> p.shardIds == old(p.shardIds) && SameNodes(old(p.View()), p.View())
  {
    HappenAll(p, configs, events);
    PoolServes(p, Latest(configs, events));
  }

  /** A shard has nodes to use: reachable ones of its own, and of full history when that is needed. */
  ghost predicate Served(p: NodeProvider, s: Shard, av: Availability)
    reads p, p.regular, p.snapshotless, p.regular.held, p.snapshotless.held, FirstTier(p.View(), av, s)
  {
    FirstTier(p.View(), av, s) != [] && p.Usable(FirstTier(p.View(), av, s), av, s)
  }

  lemma PoolServes(p: NodeProvider, configs: seq<NodeConfig>)
    requires p.Valid() && MadeFrom(configs, p.shardIds, p.View())
    ensures forall s, av :: Filter(InShard(s), configs) != [] ==> Served(p, s, av)
  {
    forall s, av | Filter(InShard(s), configs) != [] ensures Served(p, s, av) {
      assert MadeFromAt(configs, p.shardIds, p.View(), s);
      p.EveryShardIsServed(av, s);
    }
  }

  method HappenAll(p: NodeProvider, ghost configs: seq<NodeConfig>, events: seq<Event>)
    requires p.Valid() && MadeFrom(configs, p.shardIds, p.View())
    requires AllAccepted(events, p.numOfShards)
    modifies p, Objects(p)
    ensures p.Valid() && fresh(Objects(p) - old(Objects(p)))
    ensures CameTo(configs, events, old(p.shardIds), old(p.View()), p.shardIds, p.View())
  {
    if events == [] {
      NoEvent(configs, p.shardIds, p.View());
    } else {
      var init, last := events[..|events| - 1], events[|events| - 1];
      AcceptedSplits(events, p.numOfShards);
      HappenAll(p, configs, init);
      HappenNext(p, configs, init, last, old(p.shardIds), old(p.View()));
    }
  }

  ghost predicate AllAccepted(events: seq<Event>, numOfShards: nat) {
    forall i :: 0 <= i < |events| && events[i].Reload? ==> Accepted(events[i].configs, numOfShards)
  }

  method HappenNext(p: NodeProvider, ghost configs: seq<NodeConfig>, ghost before: seq<Event>, e: Event,
                    ghost ids0: seq<Shard>, ghost v0: Shelves)
    requires p.Valid() && (e.Reload? ==> Accepted(e.configs, p.numOfShards))
    requires CameTo(configs, before, ids0, v0, p.shardIds, p.View())
    modifies p, Objects(p)
    ensures p.Valid() && fresh(Objects(p) - old(Objects(p)))
    ensures CameTo(configs, before + [e], ids0, v0, p.shardIds, p.View())
  {
    Happen(p, e);
    NextEvent(configs, before, e, ids0, v0, old(p.shardIds), old(p.View()), p.shardIds, p.View());
  }

  /** What a pool has come to after some events. */
  ghost predicate CameTo(configs: seq<NodeConfig>, events: seq<Event>, ids0: seq<Shard>, v0: Shelves,
                         ids: seq<Shard>, v: Shelves) {
    && MadeFrom(Latest(configs, events), ids, v)
    && (NoReload(events) ==> ids == ids0 && SameNodes(v0, v))
  }

  lemma NoEvent(configs: seq<NodeConfig>, ids: seq<Shard>, v: Shelves)
    requires MadeFrom(configs, ids, v)
    ensures CameTo(configs, [], ids, v, ids, v)
  {
    assert forall s :: SameNodesAt(v, v, s);
  }

  lemma AcceptedSplits(events: seq<Event>, numOfShards: nat)
    requires AllAccepted(events, numOfShards) && events != []
    ensures var init, last := events[..|events| - 1], events[|events| - 1];
            && events == init + [last]
            && AllAccepted(init, numOfShards) && (last.Reload? ==> Accepted(last.configs, numOfShards))
  {
  }

  lemma NextEvent(configs: seq<NodeConfig>, events: seq<Event>, e: Event, ids0: seq<Shard>, v0: Shelves,
                  ids: seq<Shard>, v: Shelves, ids': seq<Shard>, v': Shelves)
    requires CameTo(configs, events, ids0, v0, ids, v)
    requires if e.Reload? then MadeFrom(e.configs, ids', v') else ids' == ids && SameNodes(v, v')
    ensures CameTo(configs, events + [e], ids0, v0, ids', v')
  {
    LatestSnoc(configs, events, e);
    if !e.Reload? {
      StillMadeFrom(Latest(configs, events), ids, v, v');
      if NoReload(events) {
        SameThroughout(v0, v, v');
      }
    }
  }

  lemma SameThroughout(v0: Shelves, v: Shelves, v': Shelves)
    requires SameNodes(v0, v) && SameNodes(v, v')
    ensures SameNodes(v0, v')
  {
    forall s ensures SameNodesAt(v0, v', s) {
      assert SameNodesAt(v0, v, s) && SameNodesAt(v, v', s);
    }
  }

  lemma LatestSnoc(configs: seq<NodeConfig>, events: seq<Event>, e: Event)
    ensures Latest(configs, events + [e]) == if e.Reload? then e.configs else Latest(configs, events)
    ensures NoReload(events + [e]) <==> NoReload(events) && !e.Reload?
  {
    assert (events + [e])[..|events|] == events;
    assert forall i :: 0 <= i < |events| ==> (events + [e])[i] == events[i];
    assert (events + [e])[|events|] == e;
  }
}
