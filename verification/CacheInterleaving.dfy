/**
 The cache of a holder under concurrency (getObservers and UpdateNodes in observer/holder/nodesHolder.go
 against the sync round in process/baseProcessor.go). Each lock section is one atomic step: a getter probes
 the cache under the read lock and, when it misses, looks again and fills it under the write lock; in
 between, other getters, the round's flag changes and its write-back may take place. The round reads through
 the same getters.
 */
module CacheInterleaving {
  import opened Basics
  import opened NodeLists
  import opened NodeHolders
  import opened SyncRounds

  datatype Wanted = Wanted(kind: Kind, shard: Shard)

  /** Where the sync round is: not running, reading lists, or rewriting flags; with the lists it was given. */
  datatype Phase = Idle | Reading(taken: map<Wanted, seq<NodeData>>) | Flagging(taken: map<Wanted, seq<NodeData>>)

  /** `waiting` are the getters between probe and fill. `settled` is what the flags were when the last round
      wrote back; it appears in no step's guard and no answer. */
  datatype State = State(
    shelf: Shelf,
    cache: map<string, seq<NodeData>>,
    waiting: map<nat, Wanted>,
    phase: Phase,
    settled: set<NodeData>)

  datatype Action =
    | Probe(thread: nat, want: Wanted)
    | Fill(thread: nat)
    | StartRound
    | StartFlagging
    | SetFlag(node: NodeData, synced: bool)
    | WriteBack(filed: map<Shard, seq<NodeData>>)

  /** The getter thread of the round itself. */
  const ROUND: nat := 0

  function KeyOf(w: Wanted): string {
    CacheKey(w.kind, w.shard)
  }

  /** What is wanted at a step that answers a getter, and the answer. */
  datatype Reply = NoReply | Reply(want: Wanted, nodes: seq<NodeData>)

  function ReplyOf(st: State, a: Action): Reply {
    match a
    case Probe(t, w) => if KeyOf(w) in st.cache then Reply(w, st.cache[KeyOf(w)]) else NoReply
    case Fill(t) =>
      if t !in st.waiting then NoReply
      else
        var w := st.waiting[t];
        Reply(w, if KeyOf(w) in st.cache then st.cache[KeyOf(w)] else Listed(st.shelf, w.kind, w.shard))
    case _ => NoReply
  }

  function Note(phase: Phase, t: nat, reply: Reply): Phase {
    if t == ROUND && phase.Reading? && reply.Reply? then Reading(phase.taken[reply.want := reply.nodes]) else phase
  }

  predicate ReadAll(taken: map<Wanted, seq<NodeData>>, shards: seq<Shard>) {
    forall kind, s :: s in shards ==> Wanted(kind, s) in taken
  }

  function Given(taken: map<Wanted, seq<NodeData>>, kind: Kind, s: Shard): seq<NodeData> {
    if Wanted(kind, s) in taken then taken[Wanted(kind, s)] else []
  }

  function GivenOf(taken: map<Wanted, seq<NodeData>>, s: Shard): seq<NodeData> {
    Given(taken, Synced, s) + Given(taken, OutOfSync, s) +
    Given(taken, SyncedFallback, s) + Given(taken, OutOfSyncFallback, s)
  }

  /** The list that the round writes back: what it was given, shard by shard. */
  function Gathered(taken: map<Wanted, seq<NodeData>>, shards: seq<Shard>): seq<NodeData> {
    if shards == [] then [] else Gathered(taken, shards[..|shards| - 1]) + GivenOf(taken, shards[|shards| - 1])
  }

  /** One atomic step, for a holder of the configured shards and one availability class. */
  ghost predicate Next(shards: seq<Shard>, snapshotless: bool, st: State, a: Action, st': State) {
    match a
    case Probe(t, w) =>
      && t !in st.waiting
      && st' == if KeyOf(w) in st.cache then st.(phase := Note(st.phase, t, ReplyOf(st, a)))
                else st.(waiting := st.waiting[t := w])
    case Fill(t) =>
      && t in st.waiting
      && var w := st.waiting[t];
         st' == st.(waiting := st.waiting - {t},
                    cache := if KeyOf(w) in st.cache then st.cache
                             else st.cache[KeyOf(w) := Listed(st.shelf, w.kind, w.shard)],
                    phase := Note(st.phase, t, ReplyOf(st, a)))
    case StartRound => st.phase.Idle? && st' == st.(phase := Reading(map[]))
    case StartFlagging =>
      st.phase.Reading? && ReadAll(st.phase.taken, shards) && st' == st.(phase := Flagging(st.phase.taken))
    case SetFlag(n, b) =>
      st.phase.Flagging?
      && st' == st.(shelf := st.shelf.(synced := if b then st.shelf.synced + {n} else st.shelf.synced - {n}))
    case WriteBack(filed) =>
      && st.phase.Flagging?
      && var nodes := Gathered(st.phase.taken, shards);
         if nodes == [] then st' == st.(phase := Idle, settled := st.shelf.synced)
         else FiledFrom(filed, nodes, snapshotless)
              && st' == st.(shelf := st.shelf.(nodes := filed), cache := map[], phase := Idle,
                            settled := st.shelf.synced)
  }

  // ----- What every reachable state keeps -----

  /** The lists as they were when the last round wrote back. */
  function SettledShelf(st: State): Shelf {
    st.shelf.(synced := st.settled)
  }

  ghost predicate Invariant(shards: seq<Shard>, snapshotless: bool, st: State) {
    && Increasing(shards)
    && (forall s :: WellPlaced(shards, snapshotless, st.shelf, s))
    && (!st.phase.Flagging? ==> st.shelf.synced == st.settled)
    && (forall w: Wanted :: CacheSettled(st, w))
    && (!st.phase.Idle? ==> TakenAsSettled(st, st.phase.taken))
    && (st.phase.Flagging? ==> ReadAll(st.phase.taken, shards))
  }

  /** A shard lists nodes of its own and of the holder's class, and none if it is not configured. */
  predicate WellPlaced(shards: seq<Shard>, snapshotless: bool, shelf: Shelf, s: Shard) {
    AllOf(NodesAt(shelf.nodes, s), s, snapshotless) && (s !in shards ==> NodesAt(shelf.nodes, s) == [])
  }

  predicate CacheSettled(st: State, w: Wanted) {
    KeyOf(w) in st.cache ==> st.cache[KeyOf(w)] == Listed(SettledShelf(st), w.kind, w.shard)
  }

  /** What the round was given is still cached, and is what the settled flags say. */
  ghost predicate TakenAsSettled(st: State, taken: map<Wanted, seq<NodeData>>) {
    forall w: Wanted :: w in taken ==>
      KeyOf(w) in st.cache && taken[w] == Listed(SettledShelf(st), w.kind, w.shard)
  }

  /** A reply agrees with the plain filter of the nodes of its shard. */
  ghost predicate Agrees(shelf: Shelf, reply: Reply) {
    reply.Reply? ==> reply.nodes == Listed(shelf, reply.want.kind, reply.want.shard)
  }

  lemma ReplyAgrees(shards: seq<Shard>, snapshotless: bool, st: State, a: Action, st': State)
    requires Invariant(shards, snapshotless, st) && Next(shards, snapshotless, st, a, st')
    ensures Agrees(SettledShelf(st), ReplyOf(st, a))
  {
    match a
    case Probe(t, w) => assert CacheSettled(st, w);
    case Fill(t) =>
      var w := st.waiting[t];
      assert CacheSettled(st, w) && WellPlaced(shards, snapshotless, st.shelf, w.shard);
      assert w == Wanted(w.kind, w.shard);
    case _ =>
  }

  lemma SameKeySameWant(w: Wanted, w': Wanted)
    requires KeyOf(w) == KeyOf(w')
    ensures w == w'
  {
    CacheKeyInjective(w.kind, w.shard, w'.kind, w'.shard);
  }

  lemma FillKeepsInvariant(shards: seq<Shard>, snapshotless: bool, st: State, t: nat, st': State)
    requires Invariant(shards, snapshotless, st) && Next(shards, snapshotless, st, Fill(t), st')
    ensures Invariant(shards, snapshotless, st')
  {
    var w := st.waiting[t];
    ReplyAgrees(shards, snapshotless, st, Fill(t), st');
    forall s ensures WellPlaced(shards, snapshotless, st'.shelf, s) {
      assert WellPlaced(shards, snapshotless, st.shelf, s);
    }
    forall w': Wanted ensures CacheSettled(st', w') {
      assert CacheSettled(st, w');
      if KeyOf(w') == KeyOf(w) {
        SameKeySameWant(w, w');
      }
    }
  }

  /** The list that is written back holds, shard by shard, the nodes held before, kind by kind. */
  lemma {:induction false} GatheredOf(shards: seq<Shard>, ids: seq<Shard>, snapshotless: bool, st: State, s: Shard)
    requires Increasing(ids) && st.phase.Flagging?
    requires ReadAll(st.phase.taken, ids) && TakenAsSettled(st, st.phase.taken)
    requires forall s :: WellPlaced(shards, snapshotless, st.shelf, s)
    ensures OfShard(Gathered(st.phase.taken, ids), s, snapshotless) ==
            if s in ids then Regrouped(NodesAt(st.shelf.nodes, s), st.settled) else []
  {
    if ids != [] {
      var init, last := ids[..|ids| - 1], ids[|ids| - 1];
      LastIsNew(ids, s);
      GatheredOf(shards, init, snapshotless, st, s);
      assert WellPlaced(shards, snapshotless, st.shelf, last);
      JoinedWithEmpty(Regrouped(NodesAt(st.shelf.nodes, s), st.settled));
      GivenUniform(snapshotless, st, last);
      OfShardUniform(GivenOf(st.phase.taken, last), last, snapshotless, s, snapshotless);
      OfShardConcat(Gathered(st.phase.taken, init), GivenOf(st.phase.taken, last), s, snapshotless);
    }
  }

  lemma GivenUniform(snapshotless: bool, st: State, id: Shard)
    requires st.phase.Flagging? && ReadAll(st.phase.taken, [id]) && TakenAsSettled(st, st.phase.taken)
    requires AllOf(NodesAt(st.shelf.nodes, id), id, snapshotless)
    ensures GivenOf(st.phase.taken, id) == Regrouped(NodesAt(st.shelf.nodes, id), st.settled)
    ensures AllOf(GivenOf(st.phase.taken, id), id, snapshotless)
  {
    assert forall kind :: Wanted(kind, id) in st.phase.taken by {
      assert id in [id];
    }
    RegroupedIncluded(NodesAt(st.shelf.nodes, id), st.settled);
    AllInAllOf(Regrouped(NodesAt(st.shelf.nodes, id), st.settled), NodesAt(st.shelf.nodes, id), id, snapshotless);
  }

  /** A write-back keeps every shard's nodes; only their order changes. */
  lemma WriteBackConserves(shards: seq<Shard>, snapshotless: bool, st: State, a: Action, st': State, s: Shard)
    requires Invariant(shards, snapshotless, st) && a.WriteBack? && Next(shards, snapshotless, st, a, st')
    ensures multiset(NodesAt(st'.shelf.nodes, s)) == multiset(NodesAt(st.shelf.nodes, s))
    ensures WellPlaced(shards, snapshotless, st'.shelf, s)
  {
    var nodes := Gathered(st.phase.taken, shards);
    assert WellPlaced(shards, snapshotless, st.shelf, s);
    if nodes != [] {
      GatheredOf(shards, shards, snapshotless, st, s);
      RegroupedConserves(NodesAt(st.shelf.nodes, s), st.settled);
      OfShardIncluded(nodes, s, snapshotless);
      assert FiledFromAt(a.filed, nodes, snapshotless, s);
    }
  }

  lemma WriteBackKeepsInvariant(shards: seq<Shard>, snapshotless: bool, st: State, a: Action, st': State)
    requires Invariant(shards, snapshotless, st) && a.WriteBack? && Next(shards, snapshotless, st, a, st')
    ensures Invariant(shards, snapshotless, st')
  {
    forall s ensures WellPlaced(shards, snapshotless, st'.shelf, s) {
      WriteBackConserves(shards, snapshotless, st, a, st', s);
    }
    forall w: Wanted ensures CacheSettled(st', w) {
      assert CacheSettled(st, w);
      if Gathered(st.phase.taken, shards) == [] {
        GatheredOf(shards, shards, snapshotless, st, w.shard);
        RegroupedIncluded(NodesAt(st.shelf.nodes, w.shard), st.settled);
        assert WellPlaced(shards, snapshotless, st.shelf, w.shard);
      }
    }
  }

  lemma StepKeepsInvariant(shards: seq<Shard>, snapshotless: bool, st: State, a: Action, st': State)
    requires Invariant(shards, snapshotless, st) && Next(shards, snapshotless, st, a, st')
    ensures Invariant(shards, snapshotless, st')
  {
    match a
    case Fill(t) => FillKeepsInvariant(shards, snapshotless, st, t, st');
    case WriteBack(filed) => WriteBackKeepsInvariant(shards, snapshotless, st, a, st');
    case Probe(t, w) =>
      assert CacheSettled(st, w);
      ListsStay(shards, snapshotless, st, st');
    case _ => ListsStay(shards, snapshotless, st, st');
  }

  /** Steps that touch neither the nodes listed, nor the settled flags, nor the cache. */
  lemma ListsStay(shards: seq<Shard>, snapshotless: bool, st: State, st': State)
    requires Invariant(shards, snapshotless, st)
    requires st'.shelf.nodes == st.shelf.nodes && st'.settled == st.settled && st'.cache == st.cache
    ensures forall s :: WellPlaced(shards, snapshotless, st'.shelf, s)
    ensures forall w: Wanted :: CacheSettled(st', w)
  {
    forall s ensures WellPlaced(shards, snapshotless, st'.shelf, s) {
      assert WellPlaced(shards, snapshotless, st.shelf, s);
    }
    forall w: Wanted ensures CacheSettled(st', w) {
      assert CacheSettled(st, w);
    }
  }

  // ----- Whole runs -----

  /** A holder just created: nothing cached, no getter under way, no round running. */
  ghost predicate Initial(shards: seq<Shard>, snapshotless: bool, st: State) {
    && Increasing(shards)
    && (forall s :: WellPlaced(shards, snapshotless, st.shelf, s))
    && st.cache == map[] && st.waiting == map[] && st.phase == Idle && st.settled == st.shelf.synced
  }

  ghost predicate IsRun(shards: seq<Shard>, snapshotless: bool, states: seq<State>, actions: seq<Action>) {
    && |states| == |actions| + 1
    && Initial(shards, snapshotless, states[0])
    && forall i :: 0 <= i < |actions| ==> Next(shards, snapshotless, states[i], actions[i], states[i + 1])
  }

  lemma {:induction false} InvariantInRuns(shards: seq<Shard>, snapshotless: bool,
                                           states: seq<State>, actions: seq<Action>, i: nat)
    requires IsRun(shards, snapshotless, states, actions) && i < |states|
    ensures Invariant(shards, snapshotless, states[i])
  {
    if i == 0 {
      assert forall w: Wanted :: CacheSettled(states[0], w);
    } else {
      InvariantInRuns(shards, snapshotless, states, actions, i - 1);
      StepKeepsInvariant(shards, snapshotless, states[i - 1], actions[i - 1], states[i]);
    }
  }

  /** Under every interleaving, every answer is the plain filter of its shard's nodes at the step that gives
      it, by the flags as they are, or, while a round is rewriting them, as they were before it began: no
      getter ever sees a half-rewritten pool. */
  lemma CacheAgreesUnderInterleaving(shards: seq<Shard>, snapshotless: bool,
                                     states: seq<State>, actions: seq<Action>, i: nat)
    requires IsRun(shards, snapshotless, states, actions) && i < |actions|
    ensures Agrees(SettledShelf(states[i]), ReplyOf(states[i], actions[i]))
    ensures !states[i].phase.Flagging? ==> Agrees(states[i].shelf, ReplyOf(states[i], actions[i]))
  {
    InvariantInRuns(shards, snapshotless, states, actions, i);
    ReplyAgrees(shards, snapshotless, states[i], actions[i], states[i + 1]);
  }

  /** Which nodes an answer has: those of the shard, with the settled flags of the kind. */
  lemma AnswersInFull(shards: seq<Shard>, snapshotless: bool, states: seq<State>, actions: seq<Action>, i: nat,
                      n: NodeData)
    requires IsRun(shards, snapshotless, states, actions) && i < |actions| && ReplyOf(states[i], actions[i]).Reply?
    ensures var reply := ReplyOf(states[i], actions[i]);
            n in reply.nodes <==>
              && reply.want.shard in states[i].shelf.nodes && n in states[i].shelf.nodes[reply.want.shard]
              && (n in states[i].settled <==> reply.want.kind == Synced || reply.want.kind == SyncedFallback)
              && (n.isFallback <==> reply.want.kind == SyncedFallback || reply.want.kind == OutOfSyncFallback)
  {
    var reply := ReplyOf(states[i], actions[i]);
    CacheAgreesUnderInterleaving(shards, snapshotless, states, actions, i);
    SelectMember(reply.want.kind, NodesAt(states[i].shelf.nodes, reply.want.shard), states[i].settled, n);
  }

  /** However getters and rounds interleave, no shard ever gains, loses or duplicates a node. */
  lemma {:induction false} NodesConserved(shards: seq<Shard>, snapshotless: bool,
                                          states: seq<State>, actions: seq<Action>, i: nat, s: Shard)
    requires IsRun(shards, snapshotless, states, actions) && i < |states|
    ensures multiset(NodesAt(states[i].shelf.nodes, s)) == multiset(NodesAt(states[0].shelf.nodes, s))
  {
    if i > 0 {
      NodesConserved(shards, snapshotless, states, actions, i - 1, s);
      InvariantInRuns(shards, snapshotless, states, actions, i - 1);
      assert Next(shards, snapshotless, states[i - 1], actions[i - 1], states[i]);
      if actions[i - 1].WriteBack? {
        WriteBackConserves(shards, snapshotless, states[i - 1], actions[i - 1], states[i], s);
      }
    }
  }
}
