/**
 Looking a transaction up across the shards (getTxFromObservers in process/transactionProcessor.go):
 the paths that lead into the collection of smart-contract results, and what holds on every exit.
 */
module TxLookup {
  import opened Basics
  import opened ScResults
  import opened ScrCollection

  /** `body` stands for the fields of a transaction that play no part in the lookup. */
  datatype Tx = Tx(hash: string, sender: string, receiver: string, sourceShard: Shard,
                   results: seq<Scr>, hasLogs: bool, body: string)

  /** What asking the observers of one shard for the transaction gives. */
  datatype FirstAnswer = NoObservers | NotThere | There(tx: Tx)

  /** The outside world of one lookup: `first` is the scan over all shards, `fromSource` and
      `fromDestination` are the follow-up questions to the transaction's own shards. */
  datatype World = World(
    net: Network,
    shardIds: seq<Shard>,
    first: Shard -> FirstAnswer,
    fromSource: Shard -> Option<Tx>,
    fromDestination: Shard -> Option<Tx>)

  datatype Lookup = Found(tx: Tx) | ObserversError | FetchError | NotFound

  /** An address that does not decode counts as shard 0 here. */
  function ShardOrZero(net: Network, address: string): Shard {
    var s := net.shardOf(address);
    if s.Some? then s.value else 0
  }

  lemma UnionCovered(net: Network, scrs: seq<Scr>, union: seq<Scr>, m: ShardMap)
    requires IsUnion(net.eventHash, scrs, union) && Covered(net, scrs, m)
    ensures Covered(net, union, m)
  {
    forall scr | scr in union ensures ShardsOf(net, scr) <= m.Keys {
      assert FieldsFrom(scr, scrs);
      assert ShardsOf(net, scr) == ShardsOf(net, Last(scrs, scr.hash));
    }
  }

  method MergeScResultsFromSourceAndDest(net: Network, source: Tx, dest: Tx, withEvents: bool) returns (merged: Tx)
    ensures merged.(results := dest.results) == dest
    ensures if withEvents then IsUnion(net.eventHash, source.results + dest.results, merged.results)
            else merged == dest
  {
    if !withEvents {
      return dest;
    }
    var union := GetScResultsUnion(net.eventHash, source.results + dest.results);
    merged := dest.(results := union);
  }

  predicate AsksSource(w: World, tx: Tx, withResults: bool) {
    withResults && (tx.results != [] || tx.hasLogs) && w.fromSource(tx.sourceShard).Some?
  }

  /** The result hashes the source shard adds to a transaction found in its destination shard. */
  function FromSource(w: World, tx: Tx, withResults: bool): set<string> {
    if AsksSource(w, tx, withResults) then Hashes(w.fromSource(tx.sourceShard).value.results) else {}
  }

  /** Asks the source shard as well and merges what it says; the source shard then counts as fetched. */
  method AlterTxWithScResultsFromSource(w: World, tx: Tx, withResults: bool, m: ShardMap)
    returns (tx': Tx, m': ShardMap)
    ensures tx'.(results := tx.results) == tx
    ensures Hashes(tx'.results) == Hashes(tx.results) + FromSource(w, tx, withResults)
    ensures AsksSource(w, tx, withResults) ==>
      IsUnion(w.net.eventHash, w.fromSource(tx.sourceShard).value.results + tx.results, tx'.results)
    ensures if AsksSource(w, tx, withResults)
            then m' == m[tx.sourceShard := Fetch(w.fromSource(tx.sourceShard).value.hash, true)]
            else m' == m && tx' == tx
  {
    var source := w.fromSource(tx.sourceShard);
    if !withResults || (tx.results == [] && !tx.hasLogs) || source.None? {
      return tx, m;
    }
    tx' := MergeScResultsFromSourceAndDest(w.net, source.value, tx, withResults);
    m' := m[tx.sourceShard := Fetch(source.value.hash, true)];
    ConcatMeaning(w.net.eventHash, source.value.results, tx.results);
  }

  /** How a lookup may end that completes the results of `tx`, starting from the shards of `m`. */
  ghost predicate Completed(net: Network, tx: Tx, m: ShardMap, r: Lookup, m': ShardMap, asked: seq<Question>) {
    && (r.Found? || r.FetchError?)
    && (r.Found? ==> r.tx.(results := tx.results) == tx)
    && exists results' :: Outcome(net, tx.hash, tx.results, m, r.Found?, results', m', asked)
                          && (r.Found? ==> r.tx.results == results')
  }

  /** The last leg of every path: fetch, and hand the transaction back with its results completed. */
  method Complete(observers: Observers, net: Network, tx: Tx, m: ShardMap) returns (r: Lookup, m': ShardMap)
    requires Covered(net, tx.results, m) || !AllFetched(m)
    modifies observers`log
    ensures old(observers.log) <= observers.log
    ensures Completed(net, tx, m, r, m', observers.Since(|old(observers.log)|))
    ensures NoShardTwice(observers.Since(|old(observers.log)|))
    ensures r.Found? ==>
      && AllFetched(m') && m.Keys <= m'.Keys
      && Covered(net, r.tx.results, m')
      && Hashes(tx.results) <= Hashes(r.tx.results)
    ensures r.FetchError? ==> Failed(tx.hash, m', observers.Since(|old(observers.log)|))
  {
    var ok, results, known := FetchScrsBasedOnShardMap(observers, net, tx.hash, tx.results, m);
    m' := known;
    PoolMembers(tx.results, Answered(ok, observers.Since(|old(observers.log)|)));
    r := if ok then Found(tx.(results := results)) else FetchError;
  }

  // ----- Where the collection starts -----

  /** The transaction that is completed, the results it begins with before they are joined, and which shards
      are known, and fetched, before the joined results are looked at. */
  datatype Beginning = Beginning(tx: Tx, list: seq<Scr>, known: set<Shard>, fetched: set<Shard>)

  /** Nothing to collect: within one shard and without results. */
  predicate IsImmediate(net: Network, tx: Tx) {
    ShardOrZero(net, tx.sender) == ShardOrZero(net, tx.receiver) && tx.results == []
  }

  function BeginningOf(w: World, tx: Tx, observerShard: Shard, withResults: bool): Beginning {
    var snd, rcv := ShardOrZero(w.net, tx.sender), ShardOrZero(w.net, tx.receiver);
    var known := {snd, rcv} + if snd == rcv then Pointed(w.net, tx.results) else {};
    var fetched := if snd == rcv then {snd} else {};
    if rcv == observerShard then
      if AsksSource(w, tx, withResults) then
        Beginning(tx, w.fromSource(tx.sourceShard).value.results + tx.results,
                  known + {tx.sourceShard}, fetched + {tx.sourceShard})
      else
        Beginning(tx, tx.results, known, fetched)
    else
      match w.fromDestination(rcv)
      case None => Beginning(tx, tx.results, known, fetched)
      case Some(dest) =>
        Beginning(dest, if withResults then tx.results + dest.results else dest.results,
                  known + Pointed(w.net, dest.results), fetched)
  }

  /** The transaction and the shards that the collection starts from, whatever the map orders so far. */
  ghost predicate BeginsWith(w: World, tx: Tx, observerShard: Shard, withResults: bool, start: Tx, m: ShardMap) {
    var b := BeginningOf(w, tx, observerShard, withResults);
    && start.(results := b.tx.results) == b.tx
    && Joined(w.net.eventHash, b.list, start.results)
    && (if ShardOrZero(w.net, tx.receiver) == observerShard then m.Keys == b.known + Pointed(w.net, start.results)
        else m.Keys == b.known)
    && Fetched(m) == b.fetched
  }

  lemma UnjoinedIsJoined(hash: EventHash, scrs: seq<Scr>)
    ensures Joined(hash, scrs, scrs)
  {
    assert forall scr :: scr in scrs ==> SeenIn(scrs, scr);
  }

  lemma UnionIsJoined(hash: EventHash, scrs: seq<Scr>, union: seq<Scr>)
    requires IsUnion(hash, scrs, union)
    ensures Joined(hash, scrs, union)
  {
    UnjoinedIsJoined(hash, []);
    assert [] + scrs == scrs;
    UnionJoins(hash, [], [], scrs, union);
  }

  /** The result hashes that the transaction's other shard adds to those of the first answer. */
  function Contributed(w: World, tx: Tx, observerShard: Shard): set<string> {
    var rcv := ShardOrZero(w.net, tx.receiver);
    if IsImmediate(w.net, tx) then {}
    else if rcv == observerShard then FromSource(w, tx, true)
    else
      match w.fromDestination(rcv)
      case None => {}
      case Some(dest) => Hashes(dest.results)
  }

  /** The shards of the transaction itself, and of its results if it stays within one shard. */
  ghost predicate Owns(net: Network, tx: Tx, m: ShardMap) {
    var snd, rcv := ShardOrZero(net, tx.sender), ShardOrZero(net, tx.receiver);
    && m.Keys == {snd, rcv} + (if snd == rcv then Pointed(net, tx.results) else {})
    && Fetched(m) == (if snd == rcv then {snd} else {})
    && (Covered(net, tx.results, m) || snd in m.Keys - Fetched(m))
  }

  method OwnShards(net: Network, tx: Tx) returns (m: ShardMap)
    ensures Owns(net, tx, m)
  {
    var snd, rcv := ShardOrZero(net, tx.sender), ShardOrZero(net, tx.receiver);
    m := map[snd := Fetch(tx.hash, false)];
    m := m[rcv := Fetch(tx.hash, false)];
    if snd == rcv {
      m := m[snd := Fetch(tx.hash, true)];
      var learnt := ExtraShardsFromScrs(net, tx.results, m);
      LearntShards(net, tx.results, m, learnt);
      m := learnt;
    }
  }

  /** What the collection needs of its start, and what the start owes to the answers so far. */
  ghost predicate WellBegun(w: World, tx: Tx, observerShard: Shard, withResults: bool, own: ShardMap,
                            start: Tx, m: ShardMap) {
    && BeginsWith(w, tx, observerShard, withResults, start, m)
    && (Covered(w.net, start.results, m) || !AllFetched(m))
    && own.Keys <= m.Keys
    && (withResults && !IsImmediate(w.net, tx) ==>
          Hashes(tx.results) + Contributed(w, tx, observerShard) <= Hashes(start.results))
  }

  /** The steps before the collection when the first answer came from the destination shard. */
  method PrepareAtDestination(w: World, tx: Tx, observerShard: Shard, withResults: bool, own: ShardMap)
    returns (start: Tx, m: ShardMap)
    requires Owns(w.net, tx, own) && ShardOrZero(w.net, tx.receiver) == observerShard
    ensures WellBegun(w, tx, observerShard, withResults, own, start, m)
  {
    var altered;
    start, altered := AlterTxWithScResultsFromSource(w, tx, withResults, own);
    m := ExtraShardsFromScrs(w.net, start.results, altered);
    LearntShards(w.net, start.results, altered, m);
    if AsksSource(w, tx, withResults) {
      UnionIsJoined(w.net.eventHash, w.fromSource(tx.sourceShard).value.results + tx.results, start.results);
    } else {
      UnjoinedIsJoined(w.net.eventHash, tx.results);
    }
    BegunAtDestination(w, tx, observerShard, withResults, own, altered, start, m);
  }

  lemma BegunAtDestination(w: World, tx: Tx, observerShard: Shard, withResults: bool,
                           own: ShardMap, altered: ShardMap, start: Tx, m: ShardMap)
    requires Owns(w.net, tx, own) && ShardOrZero(w.net, tx.receiver) == observerShard
    requires start.(results := tx.results) == tx
    requires Hashes(start.results) == Hashes(tx.results) + FromSource(w, tx, withResults)
    requires if AsksSource(w, tx, withResults)
             then altered == own[tx.sourceShard := Fetch(w.fromSource(tx.sourceShard).value.hash, true)]
                  && Joined(w.net.eventHash, w.fromSource(tx.sourceShard).value.results + tx.results, start.results)
             else altered == own && Joined(w.net.eventHash, tx.results, start.results)
    requires m.Keys == altered.Keys + Pointed(w.net, start.results) && Fetched(m) == Fetched(altered)
    requires Covered(w.net, start.results, m)
    ensures WellBegun(w, tx, observerShard, withResults, own, start, m)
  {
    if AsksSource(w, tx, withResults) {
      assert Fetched(altered) == Fetched(own) + {tx.sourceShard};
    }
  }

  /** The steps before the collection when the destination shard has to be asked, and has answered. */
  method PrepareFromDestination(w: World, tx: Tx, observerShard: Shard, dest: Tx, withResults: bool, own: ShardMap)
    returns (start: Tx, m: ShardMap)
    requires Owns(w.net, tx, own) && ShardOrZero(w.net, tx.receiver) != observerShard
    requires w.fromDestination(ShardOrZero(w.net, tx.receiver)) == Some(dest)
    ensures WellBegun(w, tx, observerShard, withResults, own, start, m)
  {
    m := ExtraShardsFromScrs(w.net, dest.results, own);
    LearntShards(w.net, dest.results, own, m);
    start := MergeScResultsFromSourceAndDest(w.net, tx, dest, withResults);
    if withResults {
      UnionIsJoined(w.net.eventHash, tx.results + dest.results, start.results);
      ConcatMeaning(w.net.eventHash, tx.results, dest.results);
      if Covered(w.net, tx.results, own) {
        UnionCovered(w.net, tx.results + dest.results, start.results, m);
      }
    } else {
      UnjoinedIsJoined(w.net.eventHash, dest.results);
    }
    BegunFromDestination(w, tx, observerShard, dest, withResults, own, start, m);
  }

  lemma BegunFromDestination(w: World, tx: Tx, observerShard: Shard, dest: Tx, withResults: bool,
                             own: ShardMap, start: Tx, m: ShardMap)
    requires Owns(w.net, tx, own) && ShardOrZero(w.net, tx.receiver) != observerShard
    requires w.fromDestination(ShardOrZero(w.net, tx.receiver)) == Some(dest)
    requires start.(results := dest.results) == dest
    requires Joined(w.net.eventHash, if withResults then tx.results + dest.results else dest.results, start.results)
    requires withResults ==> Hashes(tx.results) + Hashes(dest.results) <= Hashes(start.results)
    requires m.Keys == own.Keys + Pointed(w.net, dest.results) && Fetched(m) == Fetched(own)
    requires Covered(w.net, tx.results, own) || !withResults ==> Covered(w.net, start.results, m)
    ensures WellBegun(w, tx, observerShard, withResults, own, start, m)
  {
    var snd := ShardOrZero(w.net, tx.sender);
    if snd in own.Keys - Fetched(own) {
      assert snd in m && snd !in Fetched(m);
      assert !AllFetched(m);
    }
  }

  lemma BegunAlone(w: World, tx: Tx, observerShard: Shard, withResults: bool, own: ShardMap)
    requires Owns(w.net, tx, own) && ShardOrZero(w.net, tx.receiver) != observerShard
    requires w.fromDestination(ShardOrZero(w.net, tx.receiver)) == None
    ensures WellBegun(w, tx, observerShard, withResults, own, tx, own)
  {
    UnjoinedIsJoined(w.net.eventHash, tx.results);
    var snd := ShardOrZero(w.net, tx.sender);
    assert snd in own.Keys - Fetched(own) ==> !AllFetched(own);
  }

  /** Everything before the collection. */
  method Prepare(w: World, tx: Tx, observerShard: Shard, withResults: bool) returns (start: Tx, m: ShardMap)
    ensures exists own :: Owns(w.net, tx, own) && WellBegun(w, tx, observerShard, withResults, own, start, m)
  {
    var rcv := ShardOrZero(w.net, tx.receiver);
    var own := OwnShards(w.net, tx);
    if rcv == observerShard {
      start, m := PrepareAtDestination(w, tx, observerShard, withResults, own);
      return;
    }
    var dest := w.fromDestination(rcv);
    if dest.Some? {
      start, m := PrepareFromDestination(w, tx, observerShard, dest.value, withResults, own);
      return;
    }
    BegunAlone(w, tx, observerShard, withResults, own);
    return tx, own;
  }

  // ----- The whole lookup -----

  /** How the rest of a lookup may end, once some shard has answered. */
  ghost predicate Looked(w: World, tx: Tx, observerShard: Shard, withResults: bool,
                         r: Lookup, m: ShardMap, asked: seq<Question>) {
    if IsImmediate(w.net, tx) then r == Found(tx) && m.Keys == {ShardOrZero(w.net, tx.sender)} && asked == []
    else exists start, m0 ::
           BeginsWith(w, tx, observerShard, withResults, start, m0) && Completed(w.net, start, m0, r, m, asked)
  }

  /** Once some shard has answered. */
  method LookUpFrom(observers: Observers, w: World, tx: Tx, observerShard: Shard, withResults: bool)
    returns (r: Lookup, m: ShardMap)
    modifies observers`log
    ensures old(observers.log) <= observers.log
    ensures Looked(w, tx, observerShard, withResults, r, m, observers.Since(|old(observers.log)|))
    ensures NoShardTwice(observers.Since(|old(observers.log)|))
    ensures r.Found? || r.FetchError?
    ensures r.Found? ==>
      && AllFetched(m)
      && Covered(w.net, r.tx.results, m)
      && {ShardOrZero(w.net, tx.sender), ShardOrZero(w.net, tx.receiver)} <= m.Keys
      && (withResults ==> Hashes(tx.results) + Contributed(w, tx, observerShard) <= Hashes(r.tx.results))
  {
    var snd, rcv := ShardOrZero(w.net, tx.sender), ShardOrZero(w.net, tx.receiver);
    if snd == rcv && tx.results == [] {
      return Found(tx), map[snd := Fetch(tx.hash, true)];
    }
    var start, known := Prepare(w, tx, observerShard, withResults);
    r, m := Complete(observers, w.net, start, known);
  }

  /** Where the scan of the shards stops. */
  ghost predicate FirstFound(w: World, i: nat, tx: Tx) {
    && i < |w.shardIds|
    && w.first(w.shardIds[i]) == There(tx)
    && forall j :: 0 <= j < i ==> w.first(w.shardIds[j]).NotThere?
  }

  ghost predicate FirstUnserved(w: World, i: nat) {
    && i < |w.shardIds|
    && w.first(w.shardIds[i]).NoObservers?
    && forall j :: 0 <= j < i ==> w.first(w.shardIds[j]).NotThere?
  }

  /** How a lookup may end. */
  ghost predicate LooksUp(w: World, withResults: bool, r: Lookup, m: ShardMap, asked: seq<Question>) {
    && (r.NotFound? <==> forall i :: 0 <= i < |w.shardIds| ==> w.first(w.shardIds[i]).NotThere?)
    && (r.ObserversError? <==> exists i: nat :: FirstUnserved(w, i))
    && (r.Found? || r.FetchError? ==> exists i: nat, tx :: LookedAt(w, i, tx, withResults, r, m, asked))
  }

  ghost predicate LookedAt(w: World, i: nat, tx: Tx, withResults: bool, r: Lookup, m: ShardMap, asked: seq<Question>) {
    FirstFound(w, i, tx) && Looked(w, tx, w.shardIds[i], withResults, r, m, asked)
  }

  /** On every successful exit, every shard known was fetched and every result found, wherever it came
      from, has its sender's shard among them, and its receiver's too when both decode. No result of the
      first answer is lost when results are wanted. */
  method GetTxFromObservers(observers: Observers, w: World, withResults: bool) returns (r: Lookup, m: ShardMap)
    modifies observers`log
    ensures old(observers.log) <= observers.log
    ensures LooksUp(w, withResults, r, m, observers.Since(|old(observers.log)|))
    ensures NoShardTwice(observers.Since(|old(observers.log)|))
    ensures r.ObserversError? ==>
              exists i :: 0 <= i < |w.shardIds| && w.first(w.shardIds[i]) == NoObservers
                          && forall j :: 0 <= j < i ==> w.first(w.shardIds[j]) == NotThere
    ensures r.Found? ==>
      && (forall s :: s in m ==> m[s].fetched)
      && (forall scr, s :: scr in r.tx.results && w.net.shardOf(scr.sender) == Some(s) ==> s in m)
      && (forall scr, s ::
            scr in r.tx.results && w.net.shardOf(scr.sender).Some? && w.net.shardOf(scr.receiver) == Some(s) ==>
              s in m)
      && exists i: nat, tx :: FirstFound(w, i, tx)
           && i < |w.shardIds| && w.first(w.shardIds[i]) == There(tx)
           && (forall j :: 0 <= j < i ==> w.first(w.shardIds[j]) == NotThere)
           && Looked(w, tx, w.shardIds[i], withResults, r, m, observers.Since(|old(observers.log)|))
           && {ShardOrZero(w.net, tx.sender), ShardOrZero(w.net, tx.receiver)} <= m.Keys
           && (withResults ==>
                 Hashes(tx.results) + Contributed(w, tx, w.shardIds[i]) <= Hashes(r.tx.results))
  {
    m := map[];
    for i := 0 to |w.shardIds|
      invariant m == map[] && observers.log == old(observers.log)
      invariant forall j :: 0 <= j < i ==> w.first(w.shardIds[j]).NotThere?
    {
      match w.first(w.shardIds[i])
      case NoObservers =>
        assert FirstUnserved(w, i);
        return ObserversError, m;
      case NotThere =>
      case There(tx) =>
        assert FirstFound(w, i, tx);
        r, m := LookUpFrom(observers, w, tx, w.shardIds[i], withResults);
        FoundStopsTheScan(w, i, tx);
        if r.Found? {
          CoversAddresses(w.net, r.tx.results, m);
        }
        assert LookedAt(w, i, tx, withResults, r, m, observers.Since(|old(observers.log)|));
        return;
    }
    return NotFound, m;
  }

  // ----- Lookups, without the notions above -----

  lemma RestOfLookup(w: World, tx: Tx, observerShard: Shard, withResults: bool,
                     r: Lookup, m: ShardMap, asked: seq<Question>) returns (start: Tx, m0: ShardMap)
    requires Looked(w, tx, observerShard, withResults, r, m, asked) && r.Found? && !IsImmediate(w.net, tx)
    ensures var b := BeginningOf(w, tx, observerShard, withResults);
            && start.(results := b.tx.results) == b.tx && Joined(w.net.eventHash, b.list, start.results)
            && b.known <= m0.Keys && Fetched(m0) == b.fetched
    ensures r.tx == start.(results := r.tx.results)
    ensures Outcome(w.net, start.hash, start.results, m0, true, r.tx.results, m, asked)
  {
    start, m0 :| BeginsWith(w, tx, observerShard, withResults, start, m0)
                 && Completed(w.net, start, m0, r, m, asked);
  }

  /** What a lookup begins with. */
  lemma BeginningInFull(w: World, tx: Tx, observerShard: Shard, withResults: bool, scr: Scr)
    ensures var rcv := if w.net.shardOf(tx.receiver).Some? then w.net.shardOf(tx.receiver).value else 0;
            var b := BeginningOf(w, tx, observerShard, withResults);
            && b.tx == (if rcv != observerShard && w.fromDestination(rcv).Some? then w.fromDestination(rcv).value
                        else tx)
            && (scr in b.list <==> (
                  if rcv == observerShard then
                    || scr in tx.results
                    || (withResults && (tx.results != [] || tx.hasLogs) && w.fromSource(tx.sourceShard).Some?
                        && scr in w.fromSource(tx.sourceShard).value.results)
                  else if w.fromDestination(rcv).Some? then
                    (withResults && scr in tx.results) || scr in w.fromDestination(rcv).value.results
                  else scr in tx.results))
  {
  }

  lemma BeginningShards(w: World, tx: Tx, observerShard: Shard, withResults: bool)
    ensures var snd := if w.net.shardOf(tx.sender).Some? then w.net.shardOf(tx.sender).value else 0;
            var rcv := if w.net.shardOf(tx.receiver).Some? then w.net.shardOf(tx.receiver).value else 0;
            var b := BeginningOf(w, tx, observerShard, withResults);
            && snd in b.known && rcv in b.known
            && (snd == rcv ==> snd in b.fetched)
            && ((rcv == observerShard && withResults && (tx.results != [] || tx.hasLogs)
                 && w.fromSource(tx.sourceShard).Some?) ==> tx.sourceShard in b.fetched)
  {
  }

  /** Which transaction a lookup finds that goes on from the answer `tx` of a shard: that of the destination shard,
      if another shard answered first and the destination has it; otherwise `tx` itself. Within one shard and
      without results nothing is asked. */
  lemma FoundInFull(w: World, tx: Tx, observerShard: Shard, withResults: bool,
                    r: Lookup, m: ShardMap, asked: seq<Question>)
    requires Looked(w, tx, observerShard, withResults, r, m, asked) && r.Found?
    ensures var snd := if w.net.shardOf(tx.sender).Some? then w.net.shardOf(tx.sender).value else 0;
            var rcv := if w.net.shardOf(tx.receiver).Some? then w.net.shardOf(tx.receiver).value else 0;
            if snd == rcv && tx.results == [] then r.tx == tx && asked == []
            else if rcv != observerShard && w.fromDestination(rcv).Some? then
              r.tx == w.fromDestination(rcv).value.(results := r.tx.results)
            else r.tx == tx.(results := r.tx.results)
  {
    if !IsImmediate(w.net, tx) {
      var start, m0 := RestOfLookup(w, tx, observerShard, withResults, r, m, asked);
      BeginningInFull(w, tx, observerShard, withResults, Scr("", "", "", None, ""));
    }
  }

  /** Which shards are asked: the transaction's own are known in the end; its one shard, when it stays within one,
      and the source shard, when it has been asked for the transaction, are not asked again. */
  lemma AskedShardsInFull(w: World, tx: Tx, observerShard: Shard, withResults: bool,
                          r: Lookup, m: ShardMap, asked: seq<Question>)
    requires Looked(w, tx, observerShard, withResults, r, m, asked) && r.Found?
    ensures var snd := if w.net.shardOf(tx.sender).Some? then w.net.shardOf(tx.sender).value else 0;
            var rcv := if w.net.shardOf(tx.receiver).Some? then w.net.shardOf(tx.receiver).value else 0;
            && snd in m && rcv in m
            && (forall i :: 0 <= i < |asked| ==> !(snd == rcv == asked[i].shard))
            && ((rcv == observerShard && withResults && (tx.results != [] || tx.hasLogs)
                 && w.fromSource(tx.sourceShard).Some?) ==>
                  forall i :: 0 <= i < |asked| ==> asked[i].shard != tx.sourceShard)
  {
    if !IsImmediate(w.net, tx) {
      var start, m0 := RestOfLookup(w, tx, observerShard, withResults, r, m, asked);
      BeginningShards(w, tx, observerShard, withResults);
      NoneFetchedBefore(w.net, start.hash, start.results, m0, r.tx.results, m, asked);
    }
  }

  lemma NoneFetchedBefore(net: Network, txHash: string, results: seq<Scr>, m: ShardMap,
                          results': seq<Scr>, m': ShardMap, asked: seq<Question>)
    requires Outcome(net, txHash, results, m, true, results', m', asked)
    ensures forall i :: 0 <= i < |asked| ==> asked[i].shard !in Fetched(m)
    ensures m.Keys <= m'.Keys
  {
    AskedInFull(net, txHash, results, m, true, results', m', asked);
  }

  /** Which results it comes with: those it begins with and those of every answer, */
  lemma ResultsInFull(w: World, tx: Tx, observerShard: Shard, withResults: bool,
                      r: Lookup, m: ShardMap, asked: seq<Question>, scr: Scr) returns (o: Scr)
    requires Looked(w, tx, observerShard, withResults, r, m, asked) && r.Found? && !IsImmediate(w.net, tx)
    requires scr in BeginningOf(w, tx, observerShard, withResults).list || SaidBy(asked, scr)
    ensures o in r.tx.results && o.hash == scr.hash
  {
    var start, m0 := RestOfLookup(w, tx, observerShard, withResults, r, m, asked);
    var p := scr;
    if !SaidBy(asked, scr) {
      p := JoinedAs(w.net.eventHash, BeginningOf(w, tx, observerShard, withResults).list, start.results, scr);
    }
    o := GatheredInFull(w.net, start.hash, start.results, m0, true, r.tx.results, m, asked, p);
  }

  /** and no others. */
  lemma ResultsAreGiven(w: World, tx: Tx, observerShard: Shard, withResults: bool,
                        r: Lookup, m: ShardMap, asked: seq<Question>, scr: Scr) returns (o: Scr)
    requires Looked(w, tx, observerShard, withResults, r, m, asked) && r.Found? && !IsImmediate(w.net, tx)
    requires scr in r.tx.results
    ensures o.hash == scr.hash && o.sender == scr.sender && o.receiver == scr.receiver
    ensures o in BeginningOf(w, tx, observerShard, withResults).list || SaidBy(asked, o)
  {
    var start, m0 := RestOfLookup(w, tx, observerShard, withResults, r, m, asked);
    o := GivenThrough(w.net, start.hash, BeginningOf(w, tx, observerShard, withResults).list, start.results, m0,
                      r.tx.results, m, asked, scr);
  }

  lemma GivenThrough(net: Network, txHash: string, list: seq<Scr>, results: seq<Scr>, m: ShardMap,
                     results': seq<Scr>, m': ShardMap, asked: seq<Question>, scr: Scr) returns (o: Scr)
    requires Joined(net.eventHash, list, results) && scr in results'
    requires Outcome(net, txHash, results, m, true, results', m', asked)
    ensures o.hash == scr.hash && o.sender == scr.sender && o.receiver == scr.receiver
    ensures o in list || SaidBy(asked, o)
  {
    o := GivenInFull(net, txHash, results, m, true, results', m', asked, scr);
    if o in results {
      o := SeenAs(net.eventHash, list, results, o);
    }
  }

  lemma JoinedAs(hash: EventHash, list: seq<Scr>, joined: seq<Scr>, scr: Scr) returns (o: Scr)
    requires Joined(hash, list, joined) && scr in list
    ensures o in joined && o.hash == scr.hash
  {
    assert scr.hash in Hashes(list) && Hashes(list) == Hashes(joined);
    o :| o in joined && o.hash == scr.hash;
  }

  lemma SeenAs(hash: EventHash, list: seq<Scr>, joined: seq<Scr>, scr: Scr) returns (o: Scr)
    requires Joined(hash, list, joined) && scr in joined
    ensures o in list && o.hash == scr.hash && o.sender == scr.sender && o.receiver == scr.receiver
  {
    assert SeenIn(list, scr);
    o :| o in list && o.hash == scr.hash && o.sender == scr.sender && o.receiver == scr.receiver;
  }

  // ----- Confluence of lookups -----

  lemma PointedAlike(net: Network, answers: ShardAnswers, list: seq<Scr>, joined: seq<Scr>)
    requires Joined(net.eventHash, list, joined) && HashFixesAddresses(answers, list)
    ensures Pointed(net, joined) == Pointed(net, list)
  {
    forall s | s in Pointed(net, joined) ensures s in Pointed(net, list) {
      var scr :| scr in joined && s in ShardsOf(net, scr);
      assert SeenIn(list, scr);
      var p :| p in list && p.hash == scr.hash && p.sender == scr.sender && p.receiver == scr.receiver;
      assert s in ShardsOf(net, p);
    }
    forall s | s in Pointed(net, list) ensures s in Pointed(net, joined) {
      var p :| p in list && s in ShardsOf(net, p);
      assert p.hash in Hashes(list) && Hashes(list) == Hashes(joined);
      var scr :| scr in joined && scr.hash == p.hash;
      assert SeenIn(list, scr);
      var q :| q in list && q.hash == scr.hash && q.sender == scr.sender && q.receiver == scr.receiver;
      assert Occurs(answers, list, p) && Occurs(answers, list, q);
      assert s in ShardsOf(net, scr);
    }
  }

  lemma JoinedFixesAddresses(hash: EventHash, answers: ShardAnswers, list: seq<Scr>, a: seq<Scr>, b: seq<Scr>)
    requires HashFixesAddresses(answers, list) && Joined(hash, list, a) && Joined(hash, list, b)
    ensures HashFixesAddresses(answers, a + b)
  {
    forall p, q | Occurs(answers, a + b, p) && Occurs(answers, a + b, q) && p.hash == q.hash
      ensures p.sender == q.sender && p.receiver == q.receiver
    {
      var p' := OccursAs(answers, list, a + b, p);
      var q' := OccursAs(answers, list, a + b, q);
    }
  }

  lemma OccursAs(answers: ShardAnswers, list: seq<Scr>, joined: seq<Scr>, p: Scr) returns (p': Scr)
    requires Occurs(answers, joined, p) && forall scr :: scr in joined ==> SeenIn(list, scr)
    ensures Occurs(answers, list, p') && p'.hash == p.hash && p'.sender == p.sender && p'.receiver == p.receiver
  {
    if p in joined {
      assert SeenIn(list, p);
      p' :| p' in list && p'.hash == p.hash && p'.sender == p.sender && p'.receiver == p.receiver;
    } else {
      p' := p;
    }
  }

  /** The starts of two lookups are the same but for order. */
  lemma BeginningsAgree(w: World, answers: ShardAnswers, tx: Tx, observerShard: Shard, withResults: bool,
                        start1: Tx, m1: ShardMap, start2: Tx, m2: ShardMap)
    requires BeginsWith(w, tx, observerShard, withResults, start1, m1)
    requires BeginsWith(w, tx, observerShard, withResults, start2, m2)
    requires HashFixesAddresses(answers, BeginningOf(w, tx, observerShard, withResults).list)
    ensures start2.(results := start1.results) == start1
    ensures SameStart(w.net, start1.results, m1, start2.results, m2)
    ensures HashFixesAddresses(answers, start1.results + start2.results)
  {
    var list := BeginningOf(w, tx, observerShard, withResults).list;
    PointedAlike(w.net, answers, list, start1.results);
    PointedAlike(w.net, answers, list, start2.results);
    JoinedFixesAddresses(w.net.eventHash, answers, list, start1.results, start2.results);
  }

  /** The same transaction but for the order of results and of the events in their logs. */
  ghost predicate SameLookup(net: Network, r1: Lookup, m1: ShardMap, r2: Lookup, m2: ShardMap) {
    && (r1.Found? <==> r2.Found?) && (!r1.Found? ==> r1 == r2)
    && (r1.Found? ==>
          && r2.tx.(results := r1.tx.results) == r1.tx
          && SameMeaning(net.eventHash, r1.tx.results, r2.tx.results)
          && m1.Keys == m2.Keys)
  }

  lemma CompletionsAgree(w: World, answers: ShardAnswers, start1: Tx, m1: ShardMap, start2: Tx, m2: ShardMap,
                         r1: Lookup, known1: ShardMap, asked1: seq<Question>,
                         r2: Lookup, known2: ShardMap, asked2: seq<Question>)
    requires start2.(results := start1.results) == start1
    requires SameStart(w.net, start1.results, m1, start2.results, m2)
    requires HashFixesAddresses(answers, start1.results + start2.results)
    requires AnsweredBy(asked1, answers) && AnsweredBy(asked2, answers)
    requires Completed(w.net, start1, m1, r1, known1, asked1) && Completed(w.net, start2, m2, r2, known2, asked2)
    ensures SameLookup(w.net, r1, known1, r2, known2)
  {
    var results1 :| Outcome(w.net, start1.hash, start1.results, m1, r1.Found?, results1, known1, asked1)
                    && (r1.Found? ==> r1.tx.results == results1);
    var results2 :| Outcome(w.net, start2.hash, start2.results, m2, r2.Found?, results2, known2, asked2)
                    && (r2.Found? ==> r2.tx.results == results2);
    CollectionIsConfluent(w.net, answers, start1.hash, start1.results, m1, start2.results, m2,
                          r1.Found?, results1, known1, asked1, r2.Found?, results2, known2, asked2);
  }

  /** The same hypotheses as for the collection, on the results that it begins with. */
  ghost predicate FixesAddresses(w: World, answers: ShardAnswers, withResults: bool) {
    forall i: nat, tx :: FirstFound(w, i, tx) ==>
      HashFixesAddresses(answers, BeginningOf(w, tx, w.shardIds[i], withResults).list)
  }

  /** Any two lookups in the same world, whatever the order in which they walk their maps, end alike: with the
      same error, or with the same transaction, result hashes and event keys, and the same shards known. */
  lemma LookupIsConfluent(w: World, answers: ShardAnswers, withResults: bool,
                          r1: Lookup, m1: ShardMap, asked1: seq<Question>,
                          r2: Lookup, m2: ShardMap, asked2: seq<Question>)
    requires FixesAddresses(w, answers, withResults)
    requires AnsweredBy(asked1, answers) && AnsweredBy(asked2, answers)
    requires LooksUp(w, withResults, r1, m1, asked1) && LooksUp(w, withResults, r2, m2, asked2)
    ensures SameLookup(w.net, r1, m1, r2, m2)
  {
    AnsweredOnce(w, withResults, r1, m1, asked1);
    AnsweredOnce(w, withResults, r2, m2, asked2);
    if r1.Found? || r1.FetchError? {
      var i: nat, tx :| LookedAt(w, i, tx, withResults, r1, m1, asked1);
      LookedFromThere(w, i, tx, withResults, r2, m2, asked2);
      RestsAgree(w, answers, tx, w.shardIds[i], withResults, r1, m1, asked1, r2, m2, asked2);
    }
  }

  lemma AnsweredOnce(w: World, withResults: bool, r: Lookup, m: ShardMap, asked: seq<Question>)
    requires LooksUp(w, withResults, r, m, asked)
    ensures r.Found? || r.FetchError? <==> exists i: nat, tx :: FirstFound(w, i, tx)
  {
    if r.Found? || r.FetchError? {
      var i: nat, tx :| LookedAt(w, i, tx, withResults, r, m, asked);
    } else {
      forall i: nat, tx ensures !FirstFound(w, i, tx) {
        if FirstFound(w, i, tx) {
          FoundStopsTheScan(w, i, tx);
        }
      }
    }
  }

  /** Every lookup goes on from the first answer. */
  lemma LookedFromThere(w: World, i: nat, tx: Tx, withResults: bool, r: Lookup, m: ShardMap, asked: seq<Question>)
    requires FirstFound(w, i, tx) && LooksUp(w, withResults, r, m, asked)
    ensures LookedAt(w, i, tx, withResults, r, m, asked)
  {
    AnsweredOnce(w, withResults, r, m, asked);
    var i2: nat, tx2 :| LookedAt(w, i2, tx2, withResults, r, m, asked);
    FoundOnce(w, i, tx, i2, tx2);
  }

  lemma FoundOnce(w: World, i: nat, tx: Tx, i2: nat, tx2: Tx)
    requires FirstFound(w, i, tx) && FirstFound(w, i2, tx2)
    ensures i == i2 && tx == tx2
  {
  }

  lemma RestsAgree(w: World, answers: ShardAnswers, tx: Tx, observerShard: Shard, withResults: bool,
                   r1: Lookup, m1: ShardMap, asked1: seq<Question>, r2: Lookup, m2: ShardMap, asked2: seq<Question>)
    requires HashFixesAddresses(answers, BeginningOf(w, tx, observerShard, withResults).list)
    requires AnsweredBy(asked1, answers) && AnsweredBy(asked2, answers)
    requires Looked(w, tx, observerShard, withResults, r1, m1, asked1)
    requires Looked(w, tx, observerShard, withResults, r2, m2, asked2)
    ensures SameLookup(w.net, r1, m1, r2, m2)
  {
    if IsImmediate(w.net, tx) {
      SameElements(w.net.eventHash, tx.results, tx.results);
    } else {
      var start1, known1 :| BeginsWith(w, tx, observerShard, withResults, start1, known1)
                            && Completed(w.net, start1, known1, r1, m1, asked1);
      var start2, known2 :| BeginsWith(w, tx, observerShard, withResults, start2, known2)
                            && Completed(w.net, start2, known2, r2, m2, asked2);
      BeginningsAgree(w, answers, tx, observerShard, withResults, start1, known1, start2, known2);
      CompletionsAgree(w, answers, start1, known1, start2, known2, r1, m1, asked1, r2, m2, asked2);
    }
  }

  lemma FoundStopsTheScan(w: World, i: nat, tx: Tx)
    requires FirstFound(w, i, tx)
    ensures !exists j: nat :: FirstUnserved(w, j)
    ensures !forall j :: 0 <= j < |w.shardIds| ==> w.first(w.shardIds[j]).NotThere?
  {
  }
}
