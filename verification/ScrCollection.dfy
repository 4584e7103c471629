/**
 Collecting the smart-contract results of a transaction from all the shards they touch
 (fetchSCRSBasedOnShardMap and what feeds it in process/transactionProcessor.go).

 The loop asks every shard it knows of for results and learns new shards from the addresses of the
 results it gets. Observers answer arbitrarily, and the map of shards is walked in arbitrary order.
 */
module ScrCollection {
  import opened Basics
  import opened ScResults

  /** The hash to ask a shard with, and whether the shard has been asked. */
  datatype Fetch = Fetch(hash: string, fetched: bool)
  type ShardMap = map<Shard, Fetch>

  /** The shard of an address, when it decodes, and the key of an event. */
  datatype Network = Network(shardOf: string -> Option<Shard>, eventHash: EventHash)

  /** One question to a shard, with the transaction hash and the result hash it names, and the answer: none when
      the shard has no observers at all. */
  datatype Question = Question(txHash: string, shard: Shard, hash: string, answer: Option<seq<Scr>>)

  /** The observers of all shards. Asking is the only way to learn anything from them, and is written down. */
  class Observers {
    ghost var log: seq<Question>

    /** `fetchSCRs`: any answer at all. */
    method Ask(txHash: string, hash: string, s: Shard) returns (answer: Option<seq<Scr>>)
      modifies this`log
      ensures log == old(log) + [Question(txHash, s, hash, answer)]
    {
      answer := *;
      log := log + [Question(txHash, s, hash, answer)];
    }

    /** The questions asked since the log had a certain length. */
    ghost function Since(start: nat): seq<Question>
      requires start <= |log|
      reads this`log
    {
      log[start..]
    }
  }

  predicate AllFetched(m: ShardMap) {
    forall s :: s in m ==> m[s].fetched
  }

  /** The shards a result points to; a sender that does not decode hides the receiver. */
  function ShardsOf(net: Network, scr: Scr): set<Shard> {
    match net.shardOf(scr.sender)
    case None => {}
    case Some(snd) =>
      match net.shardOf(scr.receiver)
      case None => {snd}
      case Some(rcv) => {snd, rcv}
  }

  /** Every shard that some result points to is known. */
  ghost predicate Covered(net: Network, scrs: seq<Scr>, m: ShardMap) {
    forall scr :: scr in scrs ==> ShardsOf(net, scr) <= m.Keys
  }

  /** Known shards stay known under the same hash, and fetched ones stay fetched. */
  ghost predicate Extends(m: ShardMap, m': ShardMap) {
    forall s :: s in m ==> s in m' && m'[s].hash == m[s].hash && (m[s].fetched ==> m'[s].fetched)
  }

  // ----- Learning shards -----

  function Learn(m: ShardMap, s: Shard, hash: string): ShardMap {
    if s in m then m else m[s := Fetch(hash, false)]
  }

  lemma CoversAddresses(net: Network, scrs: seq<Scr>, m: ShardMap)
    requires Covered(net, scrs, m)
    ensures forall scr, s :: scr in scrs && net.shardOf(scr.sender) == Some(s) ==> s in m
    ensures forall scr, r :: scr in scrs && net.shardOf(scr.sender).Some? && net.shardOf(scr.receiver) == Some(r) ==>
              r in m
  {
  }

  /** `extraShardFromSCRs`: learns the shard of each sender and, if that decodes, of the receiver, and no others. */
  method ExtraShardsFromScrs(net: Network, scrs: seq<Scr>, m: ShardMap) returns (m': ShardMap)
    ensures forall scr, s :: scr in scrs && net.shardOf(scr.sender) == Some(s) ==> s in m'
    ensures forall scr, r :: scr in scrs && net.shardOf(scr.sender).Some? && net.shardOf(scr.receiver) == Some(r) ==>
              r in m'
    ensures forall s :: s in m' && s !in m ==>
              exists scr :: scr in scrs && m'[s] == Fetch(scr.hash, false) && net.shardOf(scr.sender).Some?
                            && (net.shardOf(scr.sender) == Some(s) || net.shardOf(scr.receiver) == Some(s))
    ensures Covered(net, scrs, m')
    ensures forall s :: s in m ==> s in m' && m'[s] == m[s]
    ensures forall s :: s in m' && s !in m ==>
      !m'[s].fetched && exists scr :: scr in scrs && s in ShardsOf(net, scr) && m'[s].hash == scr.hash
  {
    m' := m;
    for i := 0 to |scrs|
      invariant Covered(net, scrs[..i], m')
      invariant forall s :: s in m ==> s in m' && m'[s] == m[s]
      invariant forall s :: s in m' && s !in m ==>
        !m'[s].fetched && exists scr :: scr in scrs && s in ShardsOf(net, scr) && m'[s].hash == scr.hash
    {
      var scr := scrs[i];
      assert scrs[..i + 1] == scrs[..i] + [scr];
      var snd := net.shardOf(scr.sender);
      if snd.Some? {
        m' := Learn(m', snd.value, scr.hash);
        var rcv := net.shardOf(scr.receiver);
        if rcv.Some? {
          m' := Learn(m', rcv.value, scr.hash);
        }
      }
    }
    assert scrs[..|scrs|] == scrs;
    CoversAddresses(net, scrs, m');
    LearntAddresses(net, scrs, m, m');
  }

  lemma LearntAddresses(net: Network, scrs: seq<Scr>, m: ShardMap, m': ShardMap)
    requires forall s :: s in m' && s !in m ==>
      !m'[s].fetched && exists scr :: scr in scrs && s in ShardsOf(net, scr) && m'[s].hash == scr.hash
    ensures forall s :: s in m' && s !in m ==>
              exists scr :: scr in scrs && m'[s] == Fetch(scr.hash, false) && net.shardOf(scr.sender).Some?
                            && (net.shardOf(scr.sender) == Some(s) || net.shardOf(scr.receiver) == Some(s))
  {
  }

  /** All shards that some result points to. */
  function Pointed(net: Network, scrs: seq<Scr>): set<Shard> {
    set scr, s | scr in scrs && s in ShardsOf(net, scr) :: s
  }

  /** Learning from results adds exactly the shards they point to, and fetches none. */
  lemma LearntShards(net: Network, scrs: seq<Scr>, m: ShardMap, m': ShardMap)
    requires Covered(net, scrs, m')
    requires forall s :: s in m ==> s in m' && m'[s] == m[s]
    requires forall s :: s in m' && s !in m ==>
      !m'[s].fetched && exists scr :: scr in scrs && s in ShardsOf(net, scr) && m'[s].hash == scr.hash
    ensures m'.Keys == m.Keys + Pointed(net, scrs) && Fetched(m') == Fetched(m)
  {
    forall s | s in Pointed(net, scrs) ensures s in m' {
      var scr :| scr in scrs && s in ShardsOf(net, scr);
    }
  }

  // ----- What a run has gathered -----

  function Said(q: Question): seq<Scr> {
    if q.answer.Some? then q.answer.value else []
  }

  /** All occurrences of results seen by a run that started with `results` and asked these questions. */
  ghost function Pool(results: seq<Scr>, asked: seq<Question>): seq<Scr> {
    if asked == [] then results else Pool(results, asked[..|asked| - 1]) + Said(asked[|asked| - 1])
  }

  lemma PoolSnoc(results: seq<Scr>, asked: seq<Question>, q: Question)
    ensures Pool(results, asked + [q]) == Pool(results, asked) + Said(q)
  {
    assert (asked + [q])[..|asked|] == asked;
  }

  lemma {:induction false} PoolMembers(results: seq<Scr>, asked: seq<Question>)
    ensures forall scr :: scr in Pool(results, asked) <==> scr in results || exists q :: q in asked && scr in Said(q)
  {
    if asked != [] {
      var init, last := asked[..|asked| - 1], asked[|asked| - 1];
      PoolMembers(results, init);
      assert asked == init + [last];
      assert forall q :: q in asked <==> q in init || q == last;
    }
  }

  predicate NoShardTwice(asked: seq<Question>) {
    forall i, j :: 0 <= i < j < |asked| ==> asked[i].shard != asked[j].shard
  }

  predicate AllAnswered(asked: seq<Question>) {
    forall i :: 0 <= i < |asked| ==> asked[i].answer.Some?
  }

  function ShardsAsked(asked: seq<Question>): set<Shard> {
    set q | q in asked :: q.shard
  }

  predicate FetchedIn(m: ShardMap, s: Shard) {
    s in m && m[s].fetched
  }

  function Fetched(m: ShardMap): set<Shard> {
    set s | s in m && m[s].fetched
  }

  /** `scr` agrees with some occurrence of its hash on the addresses. */
  ghost predicate SeenIn(pool: seq<Scr>, scr: Scr) {
    exists p :: p in pool && p.hash == scr.hash && p.sender == scr.sender && p.receiver == scr.receiver
  }

  /** Every question is about this transaction and names the hash its shard is known under. */
  predicate Proper(txHash: string, m: ShardMap, asked: seq<Question>) {
    forall i :: 0 <= i < |asked| ==>
      asked[i].txHash == txHash && asked[i].shard in m && asked[i].hash == m[asked[i].shard].hash
  }

  /** No shard was asked twice, all answered, and the shards newly marked are exactly those asked. */
  ghost predicate Bookkeeping(txHash: string, m: ShardMap, m': ShardMap, asked: seq<Question>) {
    && Extends(m, m')
    && NoShardTwice(asked) && AllAnswered(asked) && Proper(txHash, m', asked)
    && ShardsAsked(asked) == Fetched(m') - Fetched(m)
  }

  /** The results are exactly the occurrences in the pool, joined by hash. */
  ghost predicate Joined(hash: EventHash, pool: seq<Scr>, results': seq<Scr>) {
    && SameMeaning(hash, results', pool)
    && (forall scr :: scr in results' ==> SeenIn(pool, scr))
  }

  /** What holds after any number of questions, for arbitrary answers. */
  ghost predicate Progress(net: Network, txHash: string, results: seq<Scr>, m: ShardMap,
                           results': seq<Scr>, m': ShardMap, asked: seq<Question>) {
    && Bookkeeping(txHash, m, m', asked)
    && Joined(net.eventHash, Pool(results, asked), results')
  }

  // ----- The least set of shards -----

  /** `K` holds the starting shards and every shard that the starting results, or what its own shards have
      said, point to. */
  ghost predicate ClosedUnder(net: Network, results: seq<Scr>, m: ShardMap, asked: seq<Question>, K: set<Shard>) {
    && m.Keys <= K
    && (forall scr :: scr in results ==> ShardsOf(net, scr) <= K)
    && forall q, scr :: q in asked && q.shard in K && scr in Said(q) ==> ShardsOf(net, scr) <= K
  }

  /** No shard is known without need. */
  ghost predicate Needed(net: Network, results: seq<Scr>, m: ShardMap, asked: seq<Question>, m': ShardMap) {
    forall K :: ClosedUnder(net, results, m, asked, K) ==> m'.Keys <= K
  }

  lemma NeededAfterLearning(net: Network, txHash: string, results: seq<Scr>, m: ShardMap,
                            results': seq<Scr>, m': ShardMap, asked: seq<Question>, m'': ShardMap)
    requires Progress(net, txHash, results, m, results', m', asked) && Needed(net, results, m, asked, m')
    requires forall s :: s in m'' && s !in m' ==> exists scr :: scr in results' && s in ShardsOf(net, scr)
    ensures Needed(net, results, m, asked, m'')
  {
    forall K, s | ClosedUnder(net, results, m, asked, K) && s in m'' ensures s in K {
      if s !in m' {
        var scr :| scr in results' && s in ShardsOf(net, scr);
        SeenPointsInside(net, results, m, asked, K, m', scr);
      }
    }
  }

  /** What any result points to is in every closed set that holds the shards asked. */
  lemma SeenPointsInside(net: Network, results: seq<Scr>, m: ShardMap, asked: seq<Question>, K: set<Shard>,
                         m': ShardMap, scr: Scr)
    requires ClosedUnder(net, results, m, asked, K) && m'.Keys <= K
    requires forall i :: 0 <= i < |asked| ==> asked[i].shard in m'
    requires SeenIn(Pool(results, asked), scr)
    ensures ShardsOf(net, scr) <= K
  {
    PoolMembers(results, asked);
    var p :| p in Pool(results, asked) && p.hash == scr.hash && p.sender == scr.sender && p.receiver == scr.receiver;
    assert ShardsOf(net, p) == ShardsOf(net, scr);
    if p !in results {
      var q :| q in asked && p in Said(q);
      assert q.shard in K;
    }
  }

  lemma NeededAfterAsking(net: Network, results: seq<Scr>, m: ShardMap, asked: seq<Question>, m': ShardMap,
                          q: Question, m'': ShardMap)
    requires Needed(net, results, m, asked, m') && m''.Keys == m'.Keys
    ensures Needed(net, results, m, asked + [q], m'')
  {
    forall K | ClosedUnder(net, results, m, asked + [q], K) ensures m''.Keys <= K {
      assert ClosedUnder(net, results, m, asked, K);
    }
  }

  // ----- The loop -----

  lemma UnionJoins(hash: EventHash, pool: seq<Scr>, results': seq<Scr>, scrs: seq<Scr>, union: seq<Scr>)
    requires IsUnion(hash, results' + scrs, union) && Joined(hash, pool, results')
    ensures Joined(hash, pool + scrs, union)
  {
    SameMeaningConcat(hash, results', pool, scrs, scrs);
    forall scr | scr in union ensures SeenIn(pool + scrs, scr) {
      assert FieldsFrom(scr, results' + scrs);
      var last := Last(results' + scrs, scr.hash);
      if last in results' {
        assert SeenIn(pool, last);
      }
    }
  }

  lemma ShardsAskedSnoc(asked: seq<Question>, q: Question)
    ensures ShardsAsked(asked + [q]) == ShardsAsked(asked) + {q.shard}
    ensures forall i :: 0 <= i < |asked| ==> asked[i].shard in ShardsAsked(asked)
  {
    assert forall x :: x in asked + [q] <==> x in asked || x == q;
  }

  lemma BookkeepingByAsking(txHash: string, m: ShardMap, m': ShardMap, asked: seq<Question>, q: Question)
    requires Bookkeeping(txHash, m, m', asked)
    requires q.shard in m' && !m'[q.shard].fetched
    requires q.txHash == txHash && q.hash == m'[q.shard].hash && q.answer.Some?
    ensures Bookkeeping(txHash, m, m'[q.shard := m'[q.shard].(fetched := true)], asked + [q])
  {
    var m'' := m'[q.shard := m'[q.shard].(fetched := true)];
    ShardsAskedSnoc(asked, q);
    assert q.shard !in Fetched(m') && q.shard !in Fetched(m);
    assert Fetched(m'') == Fetched(m') + {q.shard};
  }

  lemma ProgressByAsking(net: Network, txHash: string, results: seq<Scr>, m: ShardMap,
                         results': seq<Scr>, m': ShardMap, asked: seq<Question>, q: Question, results'': seq<Scr>)
    requires Progress(net, txHash, results, m, results', m', asked)
    requires q.shard in m' && !m'[q.shard].fetched
    requires q.txHash == txHash && q.hash == m'[q.shard].hash && q.answer.Some?
    requires IsUnion(net.eventHash, results' + q.answer.value, results'')
    ensures Progress(net, txHash, results, m, results'', m'[q.shard := m'[q.shard].(fetched := true)], asked + [q])
  {
    BookkeepingByAsking(txHash, m, m', asked, q);
    PoolSnoc(results, asked, q);
    UnionJoins(net.eventHash, Pool(results, asked), results', q.answer.value, results'');
  }

  lemma ProgressByLearning(net: Network, txHash: string, results: seq<Scr>, m: ShardMap,
                           results': seq<Scr>, m': ShardMap, asked: seq<Question>, m'': ShardMap)
    requires Progress(net, txHash, results, m, results', m', asked)
    requires forall s :: s in m' ==> s in m'' && m''[s] == m'[s]
    requires forall s :: s in m'' && s !in m' ==> !m''[s].fetched
    ensures Progress(net, txHash, results, m, results', m'', asked)
  {
    assert Fetched(m'') == Fetched(m');
  }

  /** The last question went to a known shard that was never asked before, and found no observers. */
  ghost predicate Failed(txHash: string, m': ShardMap, asked: seq<Question>) {
    asked != [] &&
    var last := asked[|asked| - 1];
    last.txHash == txHash && last.shard in m' && last.hash == m'[last.shard].hash
    && !m'[last.shard].fetched && last.answer.None?
  }

  /** The questions that were answered: all of them, or all but the last. */
  function Answered(ok: bool, asked: seq<Question>): seq<Question>
    requires ok || asked != []
  {
    if ok then asked else asked[..|asked| - 1]
  }

  /** How a run may end, all its questions being `asked`. */
  ghost predicate Outcome(net: Network, txHash: string, results: seq<Scr>, m: ShardMap,
                          ok: bool, results': seq<Scr>, m': ShardMap, asked: seq<Question>) {
    && (ok || Failed(txHash, m', asked))
    && Progress(net, txHash, results, m, results', m', Answered(ok, asked))
    && Needed(net, results, m, Answered(ok, asked), m')
    && NoShardTwice(asked)
    && (ok ==> AllFetched(m'))
    && (ok && (Covered(net, results, m) || !AllFetched(m)) ==> Covered(net, results', m'))
    && (AllFetched(m) ==> ok && results' == results && m' == m && asked == [])
  }

  lemma FailedOnce(txHash: string, m: ShardMap, m': ShardMap, asked: seq<Question>, q: Question)
    requires Bookkeeping(txHash, m, m', asked) && q.shard in m' && !m'[q.shard].fetched
    ensures NoShardTwice(asked + [q])
  {
    ShardsAskedSnoc(asked, q);
  }

  /** One walk over the map, in any order: every shard not fetched yet is asked, until one fails. The run began
      with `results0` and `m0`, when the log had `start` entries. */
  method AskUnfetchedShards(observers: Observers, net: Network, txHash: string,
                            ghost results0: seq<Scr>, ghost m0: ShardMap, ghost start: nat,
                            results: seq<Scr>, m: ShardMap)
    returns (ok: bool, results': seq<Scr>, m': ShardMap)
    requires start <= |observers.log|
    requires Progress(net, txHash, results0, m0, results, m, observers.Since(start))
    requires Needed(net, results0, m0, observers.Since(start), m)
    modifies observers`log
    ensures old(observers.log) <= observers.log
    ensures m'.Keys == m.Keys
    ensures ok || Failed(txHash, m', observers.Since(start))
    ensures NoShardTwice(observers.Since(start))
    ensures Progress(net, txHash, results0, m0, results', m', Answered(ok, observers.Since(start)))
    ensures Needed(net, results0, m0, Answered(ok, observers.Since(start)), m')
    ensures ok ==> AllFetched(m')
  {
    results', m' := results, m;
    ghost var asked := observers.Since(start);
    var pending := m'.Keys;
    while pending != {}
      invariant old(observers.log) <= observers.log && asked == observers.log[start..]
      invariant pending <= m'.Keys == m.Keys
      invariant forall s :: s in m' && !m'[s].fetched ==> s in pending
      invariant Progress(net, txHash, results0, m0, results', m', asked)
      invariant Needed(net, results0, m0, asked, m')
    {
      var s :| s in pending;
      pending := pending - {s};
      if !m'[s].fetched {
        var answer := observers.Ask(txHash, m'[s].hash, s);
        ghost var q := Question(txHash, s, m'[s].hash, answer);
        assert observers.log[start..] == asked + [q];
        if answer.None? {
          FailedOnce(txHash, m0, m', asked, q);
          assert (asked + [q])[..|asked|] == asked;
          return false, results', m';
        }
        var union := GetScResultsUnion(net.eventHash, results' + answer.value);
        ProgressByAsking(net, txHash, results0, m0, results', m', asked, q, union);
        NeededAfterAsking(net, results0, m0, asked, m', q, m'[s := m'[s].(fetched := true)]);
        results', m' := union, m'[s := m'[s].(fetched := true)];
        asked := asked + [q];
      }
    }
    ok := true;
  }

  /** Between two walks: either nothing has happened yet, or every result's shards are known. */
  ghost predicate Underway(net: Network, txHash: string, results: seq<Scr>, m: ShardMap,
                           results': seq<Scr>, m': ShardMap, asked: seq<Question>) {
    && Progress(net, txHash, results, m, results', m', asked)
    && Needed(net, results, m, asked, m')
    && ((m' == m && results' == results && asked == []) || (!AllFetched(m) && Covered(net, results', m')))
  }

  lemma UnderwayInitially(net: Network, txHash: string, results: seq<Scr>, m: ShardMap)
    ensures Underway(net, txHash, results, m, results, m, [])
  {
    assert forall scr :: scr in results ==> SeenIn(results, scr);
  }

  lemma UnderwayAfterAWalk(net: Network, txHash: string, results: seq<Scr>, m: ShardMap,
                           results': seq<Scr>, m': ShardMap, asked: seq<Question>, learned: ShardMap)
    requires Progress(net, txHash, results, m, results', m', asked) && Needed(net, results, m, asked, m')
    requires !AllFetched(m) && AllFetched(m') && Covered(net, results', learned)
    requires forall s :: s in m' ==> s in learned && learned[s] == m'[s]
    requires forall s :: s in learned && s !in m' ==>
      !learned[s].fetched && exists scr :: scr in results' && s in ShardsOf(net, scr) && learned[s].hash == scr.hash
    ensures Underway(net, txHash, results, m, results', learned, asked)
    ensures AllFetched(learned) || m'.Keys < learned.Keys
  {
    ProgressByLearning(net, txHash, results, m, results', m', asked, learned);
    NeededAfterLearning(net, txHash, results, m, results', m', asked, learned);
    if m'.Keys == learned.Keys {
      assert AllFetched(learned);
    }
  }

  // ----- Outcomes, without the notions above -----

  /** The questions asked: no shard twice, each about this transaction and with the hash its shard is known under,
      none to a shard fetched before; all are answered, but for the one that ends a failing run, and a run that
      ends well has asked every shard it knows. */
  lemma AskedInFull(net: Network, txHash: string, results: seq<Scr>, m: ShardMap,
                    ok: bool, results': seq<Scr>, m': ShardMap, asked: seq<Question>)
    requires Outcome(net, txHash, results, m, ok, results', m', asked)
    ensures forall i, j :: 0 <= i < j < |asked| ==> asked[i].shard != asked[j].shard
    ensures forall i :: 0 <= i < |asked| ==>
              && asked[i].txHash == txHash && asked[i].shard in m' && asked[i].hash == m'[asked[i].shard].hash
              && (asked[i].shard in m ==> !m[asked[i].shard].fetched)
    ensures forall i :: 0 <= i < |asked| ==> (asked[i].answer.None? <==> !ok && i == |asked| - 1)
    ensures !ok ==> asked != []
    ensures ok ==> forall s :: s in m' ==>
              m'[s].fetched && ((s in m && m[s].fetched) || exists i :: 0 <= i < |asked| && asked[i].shard == s)
    ensures forall s :: s in m ==> s in m' && m'[s].hash == m[s].hash
  {
    var answered := Answered(ok, asked);
    forall i | 0 <= i < |answered| ensures answered[i].shard in m ==> !m[answered[i].shard].fetched {
      ShardsAskedSnoc(answered, answered[i]);
      assert answered[i].shard !in Fetched(m);
    }
    if ok {
      forall s | s in m' && !(s in m && m[s].fetched) ensures exists i :: 0 <= i < |asked| && asked[i].shard == s {
        assert s in ShardsAsked(asked);
      }
    }
  }

  /** Some question was answered with this occurrence of a result. */
  ghost predicate SaidBy(asked: seq<Question>, scr: Scr) {
    exists q :: q in asked && q.answer.Some? && scr in q.answer.value
  }

  lemma SaidInPool(results: seq<Scr>, ok: bool, m': ShardMap, txHash: string, asked: seq<Question>, scr: Scr)
    requires ok || Failed(txHash, m', asked)
    ensures scr in Pool(results, Answered(ok, asked)) <==> scr in results || SaidBy(asked, scr)
  {
    var answered := Answered(ok, asked);
    PoolMembers(results, answered);
    if SaidBy(asked, scr) {
      var q :| q in asked && q.answer.Some? && scr in q.answer.value;
      assert q in answered && scr in Said(q);
    }
    if q :| q in answered && scr in Said(q) {
      assert q in asked && q.answer.Some?;
    }
  }

  /** The results gathered: those of the start and of all answers, */
  lemma GatheredInFull(net: Network, txHash: string, results: seq<Scr>, m: ShardMap,
                       ok: bool, results': seq<Scr>, m': ShardMap, asked: seq<Question>, scr: Scr) returns (o: Scr)
    requires Outcome(net, txHash, results, m, ok, results', m', asked)
    requires scr in results || SaidBy(asked, scr)
    ensures o in results' && o.hash == scr.hash
  {
    SaidInPool(results, ok, m', txHash, asked, scr);
    assert scr.hash in Hashes(Pool(results, Answered(ok, asked)));
    o :| o in results' && o.hash == scr.hash;
  }

  /** and no others. */
  lemma GivenInFull(net: Network, txHash: string, results: seq<Scr>, m: ShardMap,
                    ok: bool, results': seq<Scr>, m': ShardMap, asked: seq<Question>, scr: Scr) returns (o: Scr)
    requires Outcome(net, txHash, results, m, ok, results', m', asked) && scr in results'
    ensures o.hash == scr.hash && o.sender == scr.sender && o.receiver == scr.receiver
    ensures o in results || SaidBy(asked, o)
  {
    var pool := Pool(results, Answered(ok, asked));
    assert SeenIn(pool, scr);
    o :| o in pool && o.hash == scr.hash && o.sender == scr.sender && o.receiver == scr.receiver;
    SaidInPool(results, ok, m', txHash, asked, o);
  }

  /** The shards known: a run that does anything, and ends well, knows the shards that its results point to; any
      shard it has come to know is one that some occurrence of a result points to. */
  lemma KnownInFull(net: Network, txHash: string, results: seq<Scr>, m: ShardMap,
                    ok: bool, results': seq<Scr>, m': ShardMap, asked: seq<Question>)
    requires Outcome(net, txHash, results, m, ok, results', m', asked)
    ensures ok && (exists s :: s in m && !m[s].fetched) ==>
              && (forall scr, s :: scr in results' && net.shardOf(scr.sender) == Some(s) ==> s in m')
              && (forall scr, r ::
                    scr in results' && net.shardOf(scr.sender).Some? && net.shardOf(scr.receiver) == Some(r) ==>
                      r in m')
    ensures forall s :: s in m' && s !in m ==>
              exists scr :: (scr in results || SaidBy(asked, scr))
                            && net.shardOf(scr.sender).Some?
                            && (net.shardOf(scr.sender) == Some(s) || net.shardOf(scr.receiver) == Some(s))
  {
    if ok && exists s :: s in m && !m[s].fetched {
      CoversAddresses(net, results', m');
    }
    LearntFromPool(net, results, m, Answered(ok, asked), m');
    forall s | s in m' && s !in m
      ensures exists scr :: (scr in results || SaidBy(asked, scr))
                            && net.shardOf(scr.sender).Some?
                            && (net.shardOf(scr.sender) == Some(s) || net.shardOf(scr.receiver) == Some(s))
    {
      var scr := PointingTo(net, Pool(results, Answered(ok, asked)), s);
      SaidInPool(results, ok, m', txHash, asked, scr);
    }
  }

  lemma LearntFromPool(net: Network, results: seq<Scr>, m: ShardMap, asked: seq<Question>, m': ShardMap)
    requires Needed(net, results, m, asked, m')
    ensures m'.Keys <= m.Keys + Pointed(net, Pool(results, asked))
  {
    var pool := Pool(results, asked);
    var K := m.Keys + Pointed(net, pool);
    PoolMembers(results, asked);
    assert forall scr :: scr in pool ==> ShardsOf(net, scr) <= K;
    assert ClosedUnder(net, results, m, asked, K);
  }

  lemma PointingTo(net: Network, scrs: seq<Scr>, s: Shard) returns (scr: Scr)
    requires s in Pointed(net, scrs)
    ensures scr in scrs && net.shardOf(scr.sender).Some?
    ensures net.shardOf(scr.sender) == Some(s) || net.shardOf(scr.receiver) == Some(s)
  {
    scr :| scr in scrs && s in ShardsOf(net, scr);
  }

  /** Ends for all observers, with one of the outcomes above, said of the questions that the log has gained. On
      success the shards of all addresses are known, and fetched, unless nothing was to be fetched at all. */
  method FetchScrsBasedOnShardMap(observers: Observers, net: Network, txHash: string, results: seq<Scr>, m: ShardMap)
    returns (ok: bool, results': seq<Scr>, m': ShardMap)
    modifies observers`log
    ensures old(observers.log) <= observers.log
    ensures Outcome(net, txHash, results, m, ok, results', m', observers.Since(|old(observers.log)|))
    ensures ok ==> forall s :: s in m' ==> m'[s].fetched
    ensures ok && (exists s :: s in m && !m[s].fetched) ==>
              && (forall scr, s :: scr in results' && net.shardOf(scr.sender) == Some(s) ==> s in m')
              && (forall scr, r ::
                    scr in results' && net.shardOf(scr.sender).Some? && net.shardOf(scr.receiver) == Some(r) ==>
                      r in m')
  {
    results', m' := results, m;
    ghost var start := |observers.log|;
    UnderwayInitially(net, txHash, results, m);
    while !AllFetched(m')
      invariant old(observers.log) <= observers.log
      invariant Underway(net, txHash, results, m, results', m', observers.Since(start))
      decreases AllShards() - m'.Keys, !AllFetched(m')
    {
      ok, results', m' := AskUnfetchedShards(observers, net, txHash, results, m, start, results', m');
      if !ok {
        KnownInFull(net, txHash, results, m, ok, results', m', observers.Since(start));
        return;
      }
      var learned := ExtraShardsFromScrs(net, results', m');
      UnderwayAfterAWalk(net, txHash, results, m, results', m', observers.Since(start), learned);
      m' := learned;
    }
    ok := true;
    KnownInFull(net, txHash, results, m, ok, results', m', observers.Since(start));
  }

  // ----- Confluence -----

  /** What every shard says, whichever result hash it is asked with. */
  type ShardAnswers = Shard -> Option<seq<Scr>>

  ghost predicate AnsweredBy(asked: seq<Question>, answers: ShardAnswers) {
    forall i :: 0 <= i < |asked| ==> asked[i].answer == answers(asked[i].shard)
  }

  function AnswerOf(answers: ShardAnswers, s: Shard): seq<Scr> {
    if answers(s).Some? then answers(s).value else []
  }

  /** `K` holds the starting shards and every shard that the starting results, or the answer of any of its
      shards not fetched beforehand, point to. */
  ghost predicate Closed(net: Network, answers: ShardAnswers, results: seq<Scr>, m: ShardMap, K: set<Shard>) {
    && m.Keys <= K
    && (forall scr :: scr in results ==> ShardsOf(net, scr) <= K)
    && forall s, scr :: s in K && !FetchedIn(m, s) && scr in AnswerOf(answers, s) ==> ShardsOf(net, scr) <= K
  }

  ghost predicate LeastClosed(net: Network, answers: ShardAnswers, results: seq<Scr>, m: ShardMap, K: set<Shard>) {
    && Closed(net, answers, results, m, K)
    && forall K' :: Closed(net, answers, results, m, K') ==> K <= K'
  }

  /** A result hash fixes the addresses of the result, wherever it occurs. */
  ghost predicate HashFixesAddresses(answers: ShardAnswers, results: seq<Scr>) {
    forall p, q :: Occurs(answers, results, p) && Occurs(answers, results, q) && p.hash == q.hash ==>
      p.sender == q.sender && p.receiver == q.receiver
  }

  ghost predicate Occurs(answers: ShardAnswers, results: seq<Scr>, p: Scr) {
    p in results || exists s :: p in AnswerOf(answers, s)
  }

  /** Every shard known after a run, ended well or not, is in every closed set. */
  lemma KnownIsNeeded(net: Network, answers: ShardAnswers, txHash: string, results: seq<Scr>, m: ShardMap,
                      results': seq<Scr>, m': ShardMap, asked: seq<Question>, K: set<Shard>)
    requires Progress(net, txHash, results, m, results', m', asked) && Needed(net, results, m, asked, m')
    requires AnsweredBy(asked, answers) && Closed(net, answers, results, m, K)
    ensures m'.Keys <= K
  {
    forall q, scr | q in asked && q.shard in K && scr in Said(q) ensures ShardsOf(net, scr) <= K {
      assert q.shard in ShardsAsked(asked);
      assert !FetchedIn(m, q.shard) && scr in AnswerOf(answers, q.shard);
    }
    assert ClosedUnder(net, results, m, asked, K);
  }

  /** A run that ends well knows exactly the least closed set of shards. */
  lemma CollectsTheLeastFixpoint(net: Network, answers: ShardAnswers, txHash: string, results: seq<Scr>, m: ShardMap,
                                 results': seq<Scr>, m': ShardMap, asked: seq<Question>)
    requires AnsweredBy(asked, answers) && HashFixesAddresses(answers, results)
    requires Covered(net, results, m) || !AllFetched(m)
    requires Outcome(net, txHash, results, m, true, results', m', asked)
    ensures LeastClosed(net, answers, results, m, m'.Keys)
  {
    forall p | p in Pool(results, asked) ensures ShardsOf(net, p) <= m'.Keys {
      PoolCovered(net, answers, results, results', m', asked, p);
    }
    PoolMembers(results, asked);
    forall s, p | s in m' && !FetchedIn(m, s) && p in AnswerOf(answers, s) ensures ShardsOf(net, p) <= m'.Keys {
      assert s in ShardsAsked(asked);
      var q :| q in asked && q.shard == s;
      assert p in Said(q);
    }
    forall K | Closed(net, answers, results, m, K) ensures m'.Keys <= K {
      KnownIsNeeded(net, answers, txHash, results, m, results', m', asked, K);
    }
  }

  /** Knowing the shards of the joined results is knowing those of every occurrence. */
  lemma PoolCovered(net: Network, answers: ShardAnswers, results: seq<Scr>,
                    results': seq<Scr>, m': ShardMap, asked: seq<Question>, p: Scr)
    requires AnsweredBy(asked, answers) && HashFixesAddresses(answers, results)
    requires Joined(net.eventHash, Pool(results, asked), results') && Covered(net, results', m')
    requires p in Pool(results, asked)
    ensures ShardsOf(net, p) <= m'.Keys
  {
    var pool := Pool(results, asked);
    assert p.hash in Hashes(pool) && Hashes(pool) == Hashes(results');
    var scr :| scr in results' && scr.hash == p.hash;
    assert SeenIn(pool, scr);
    var q :| q in pool && q.hash == scr.hash && q.sender == scr.sender && q.receiver == scr.receiver;
    InPoolOccurs(answers, results, asked, p);
    InPoolOccurs(answers, results, asked, q);
    assert ShardsOf(net, p) == ShardsOf(net, scr);
  }

  lemma InPoolOccurs(answers: ShardAnswers, results: seq<Scr>, asked: seq<Question>, p: Scr)
    requires AnsweredBy(asked, answers) && p in Pool(results, asked)
    ensures Occurs(answers, results, p)
  {
    PoolMembers(results, asked);
    if p !in results {
      var q :| q in asked && p in Said(q);
      assert p in AnswerOf(answers, q.shard);
    }
  }

  /** Two starts that differ only in the order of results, in how they were joined, and in the hashes that the
      shards are known under. */
  ghost predicate SameStart(net: Network, a: seq<Scr>, m: ShardMap, b: seq<Scr>, m': ShardMap) {
    SameMeaning(net.eventHash, a, b) && m.Keys == m'.Keys && Fetched(m) == Fetched(m')
  }

  lemma SameStartSameClosed(net: Network, answers: ShardAnswers, a: seq<Scr>, m: ShardMap, b: seq<Scr>, m': ShardMap,
                            K: set<Shard>)
    requires SameStart(net, a, m, b, m') && HashFixesAddresses(answers, a + b) && Closed(net, answers, a, m, K)
    ensures Closed(net, answers, b, m', K)
  {
    forall scr | scr in b ensures ShardsOf(net, scr) <= K {
      assert scr.hash in Hashes(b) && Hashes(b) == Hashes(a);
      var p :| p in a && p.hash == scr.hash;
      assert Occurs(answers, a + b, p) && Occurs(answers, a + b, scr);
      assert ShardsOf(net, scr) == ShardsOf(net, p);
    }
    forall s, scr | s in K && !FetchedIn(m', s) && scr in AnswerOf(answers, s) ensures ShardsOf(net, scr) <= K {
      assert s !in Fetched(m') && !FetchedIn(m, s);
    }
  }

  lemma FixesAddressesOfPart(answers: ShardAnswers, part: seq<Scr>, all: seq<Scr>)
    requires HashFixesAddresses(answers, all) && forall scr :: scr in part ==> scr in all
    ensures HashFixesAddresses(answers, part)
  {
    forall p, q | Occurs(answers, part, p) && Occurs(answers, part, q) && p.hash == q.hash
      ensures p.sender == q.sender && p.receiver == q.receiver
    {
      assert Occurs(answers, all, p) && Occurs(answers, all, q);
    }
  }

  lemma SameStartTurned(net: Network, answers: ShardAnswers, a: seq<Scr>, m: ShardMap, b: seq<Scr>, m': ShardMap)
    requires SameStart(net, a, m, b, m') && HashFixesAddresses(answers, a + b)
    ensures SameStart(net, b, m', a, m) && HashFixesAddresses(answers, b + a)
    ensures HashFixesAddresses(answers, a) && HashFixesAddresses(answers, b)
    ensures AllFetched(m) <==> AllFetched(m')
  {
    FixesAddressesOfPart(answers, b + a, a + b);
    FixesAddressesOfPart(answers, a, a + b);
    FixesAddressesOfPart(answers, b, a + b);
    assert AllFetched(m) <==> Fetched(m) == m.Keys;
    assert AllFetched(m') <==> Fetched(m') == m'.Keys;
  }

  /** Whatever the order in which maps are walked, any two runs over the same observers, from starts that are the
      same but for order, agree on whether they fail, and when they do not, on the shards known, the result
      hashes, and the event keys of every result. */
  lemma CollectionIsConfluent(net: Network, answers: ShardAnswers, txHash: string,
                              a: seq<Scr>, m: ShardMap, b: seq<Scr>, m': ShardMap,
                              ok1: bool, results1: seq<Scr>, m1: ShardMap, asked1: seq<Question>,
                              ok2: bool, results2: seq<Scr>, m2: ShardMap, asked2: seq<Question>)
    requires SameStart(net, a, m, b, m') && HashFixesAddresses(answers, a + b)
    requires AnsweredBy(asked1, answers) && AnsweredBy(asked2, answers)
    requires Outcome(net, txHash, a, m, ok1, results1, m1, asked1)
    requires Outcome(net, txHash, b, m', ok2, results2, m2, asked2)
    ensures ok1 == ok2
    ensures ok1 ==> m1.Keys == m2.Keys && SameMeaning(net.eventHash, results1, results2)
  {
    SameStartTurned(net, answers, a, m, b, m');
    if !AllFetched(m) {
      if ok1 {
        OtherRunFollows(net, answers, txHash, a, m, b, m', results1, m1, asked1, ok2, results2, m2, asked2);
      }
      if ok2 {
        OtherRunFollows(net, answers, txHash, b, m', a, m, results2, m2, asked2, ok1, results1, m1, asked1);
      }
      if ok1 && ok2 {
        assert Fetched(m1) == m1.Keys && Fetched(m2) == m2.Keys;
        SamePools(net.eventHash, answers, a, b, asked1, asked2);
      }
    }
  }

  /** After a run that ends well, any other run knows no other shards and ends well too. */
  lemma OtherRunFollows(net: Network, answers: ShardAnswers, txHash: string,
                        a: seq<Scr>, m: ShardMap, b: seq<Scr>, m': ShardMap,
                        results1: seq<Scr>, m1: ShardMap, asked1: seq<Question>,
                        ok2: bool, results2: seq<Scr>, m2: ShardMap, asked2: seq<Question>)
    requires SameStart(net, a, m, b, m') && HashFixesAddresses(answers, a + b)
    requires AnsweredBy(asked1, answers) && AnsweredBy(asked2, answers)
    requires Outcome(net, txHash, a, m, true, results1, m1, asked1) && !AllFetched(m)
    requires Outcome(net, txHash, b, m', ok2, results2, m2, asked2)
    ensures ok2 && m2.Keys <= m1.Keys
  {
    SameStartTurned(net, answers, a, m, b, m');
    CollectsTheLeastFixpoint(net, answers, txHash, a, m, results1, m1, asked1);
    SameStartSameClosed(net, answers, a, m, b, m', m1.Keys);
    KnownIsNeeded(net, answers, txHash, b, m', results2, m2, Answered(ok2, asked2), m1.Keys);
    forall s | s in m2 && s !in Fetched(m') ensures answers(s).Some? {
      assert s in ShardsAsked(asked1);
      var q :| q in asked1 && q.shard == s;
    }
  }

  lemma SameElements(hash: EventHash, a: seq<Scr>, b: seq<Scr>)
    requires forall scr :: scr in a <==> scr in b
    ensures SameMeaning(hash, a, b)
  {
  }

  lemma SamePools(hash: EventHash, answers: ShardAnswers, a: seq<Scr>, b: seq<Scr>,
                  asked1: seq<Question>, asked2: seq<Question>)
    requires SameMeaning(hash, a, b) && AnsweredBy(asked1, answers) && AnsweredBy(asked2, answers)
    requires ShardsAsked(asked1) == ShardsAsked(asked2)
    ensures SameMeaning(hash, Pool(a, asked1), Pool(b, asked2))
  {
    PoolIncluded(answers, [], asked1, asked2);
    PoolIncluded(answers, [], asked2, asked1);
    SameElements(hash, Pool([], asked1), Pool([], asked2));
    SameMeaningConcat(hash, a, b, Pool([], asked1), Pool([], asked2));
    PoolSplits(hash, a, asked1);
    PoolSplits(hash, b, asked2);
  }

  lemma PoolSplits(hash: EventHash, results: seq<Scr>, asked: seq<Question>)
    ensures SameMeaning(hash, Pool(results, asked), results + Pool([], asked))
  {
    PoolMembers(results, asked);
    PoolMembers([], asked);
    SameElements(hash, Pool(results, asked), results + Pool([], asked));
  }

  lemma PoolIncluded(answers: ShardAnswers, results: seq<Scr>, asked1: seq<Question>, asked2: seq<Question>)
    requires AnsweredBy(asked1, answers) && AnsweredBy(asked2, answers)
    requires ShardsAsked(asked1) <= ShardsAsked(asked2)
    ensures forall scr :: scr in Pool(results, asked1) ==> scr in Pool(results, asked2)
  {
    PoolMembers(results, asked1);
    PoolMembers(results, asked2);
    forall q1, scr | q1 in asked1 && scr in Said(q1) ensures scr in Pool(results, asked2) {
      assert q1.shard in ShardsAsked(asked1);
      var q2 :| q2 in asked2 && q2.shard == q1.shard;
      assert scr in Said(q2);
    }
  }
}
