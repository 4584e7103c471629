/**
 Whole runs of the rotating provider (observer/circularQueueNodesProvider.go): requests for any shards and
 availabilities, and sync rounds, in any order, and what one shard's answers have in common.
 */
module RotationRuns {
  import opened Basics
  import opened NodeHolders
  import opened NodeProviders
  import opened SyncRounds
  import opened Rotation
  import opened RoundRobin

  datatype Step =
    | AskShard(shard: Shard, availability: Availability)
    | AskAll(of: Availability)
    | Round(status: NodeData -> StatusAnswer)

  ghost predicate StepFollows(before: Shelves, step: Step, after: Shelves) {
    if step.Round? then RoundLeaves(before, step.status, after) else after == before
  }

  /** What is listed before, between and after the steps. */
  ghost predicate IsTrace(steps: seq<Step>, trace: seq<Shelves>) {
    |trace| == |steps| + 1 && forall k :: 0 <= k < |steps| ==> FollowsAt(steps, trace, k)
  }

  ghost predicate FollowsAt(steps: seq<Step>, trace: seq<Shelves>, k: nat)
    requires k < |steps| < |trace|
  {
    StepFollows(trace[k], steps[k], trace[k + 1])
  }

  // ----- The answers for one shard and availability, as values -----

  /** The lists to rotate at the requests for the shard, one after the other. */
  function TiersAsked(steps: seq<Step>, trace: seq<Shelves>, av: Availability, s: Shard): seq<seq<NodeData>>
    requires |steps| <= |trace|
  {
    if steps == [] then []
    else
      var n := |steps| - 1;
      TiersAsked(steps[..n], trace, av, s) +
      if steps[n] == AskShard(s, av) then [FirstTier(trace[n], av, s)] else []
  }

  function NextFor(p: Uint32, chosen: seq<NodeData>): Uint32 {
    if Length32(chosen) == 0 then p else NextPosition(p, Length32(chosen))
  }

  function PositionFrom(p: Uint32, tiers: seq<seq<NodeData>>): Uint32 {
    if tiers == [] then p else NextFor(PositionFrom(p, tiers[..|tiers| - 1]), tiers[|tiers| - 1])
  }

  function AnswerFor(p: Uint32, chosen: seq<NodeData>): Option<seq<NodeData>> {
    if Length32(chosen) == 0 || NextFor(p, chosen) > |chosen| then None else Some(Rotate(chosen, NextFor(p, chosen)))
  }

  /** The answers that a counter at `p` gives for these lists. */
  function AnswersFrom(p: Uint32, tiers: seq<seq<NodeData>>): (answers: seq<Option<seq<NodeData>>>)
    ensures |answers| == |tiers|
  {
    if tiers == [] then []
    else
      var init := tiers[..|tiers| - 1];
      AnswersFrom(p, init) + [AnswerFor(PositionFrom(p, init), tiers[|tiers| - 1])]
  }

  lemma AnswersSnoc(p: Uint32, tiers: seq<seq<NodeData>>, chosen: seq<NodeData>)
    ensures AnswersFrom(p, tiers + [chosen]) == AnswersFrom(p, tiers) + [AnswerFor(PositionFrom(p, tiers), chosen)]
    ensures PositionFrom(p, tiers + [chosen]) == NextFor(PositionFrom(p, tiers), chosen)
  {
    assert (tiers + [chosen])[..|tiers|] == tiers;
  }

  lemma {:induction false} TiersOfPrefix(steps: seq<Step>, trace: seq<Shelves>, trace': seq<Shelves>,
                                         av: Availability, s: Shard)
    requires |steps| <= |trace| && trace <= trace'
    ensures TiersAsked(steps, trace, av, s) == TiersAsked(steps, trace', av, s)
  {
    if steps != [] {
      TiersOfPrefix(steps[..|steps| - 1], trace, trace', av, s);
    }
  }

  function TierAsked(step: Step, at: Shelves, av: Availability, s: Shard): seq<seq<NodeData>> {
    if step == AskShard(s, av) then [FirstTier(at, av, s)] else []
  }

  lemma TiersSnoc(steps: seq<Step>, step: Step, trace: seq<Shelves>, now: Shelves, av: Availability, s: Shard)
    requires |trace| == |steps| + 1
    ensures TiersAsked(steps + [step], trace + [now], av, s) ==
            TiersAsked(steps, trace, av, s) + TierAsked(step, trace[|steps|], av, s)
  {
    assert (steps + [step])[..|steps|] == steps;
    TiersOfPrefix(steps, trace, trace + [now], av, s);
  }

  // ----- A run -----

  /** What a step does to the counters of the shards, and answers. */
  ghost predicate Moves(step: Step, at: Shelves, before: Positions, after: Positions, r: Option<seq<NodeData>>) {
    if step.AskShard?
    then RotatedForShard(FirstTier(at, step.availability, step.shard), step.availability, step.shard, before, after, r)
    else after == before
  }

  /** What a request for one list leaves of the counter of another. */
  lemma RotatedIsAnswer(chosen: seq<NodeData>, av: Availability, s: Shard, before: Positions, after: Positions,
                        r: Option<seq<NodeData>>, av': Availability, s': Shard)
    requires RotatedForShard(chosen, av, s, before, after, r)
    ensures PositionAt(after, av', s') ==
            if av' == av && s' == s then NextFor(PositionAt(before, av, s), chosen) else PositionAt(before, av', s')
    ensures r == AnswerFor(PositionAt(before, av, s), chosen)
  {
  }

  lemma MovesIsAnswer(step: Step, at: Shelves, before: Positions, after: Positions, r: Option<seq<NodeData>>,
                      av: Availability, s: Shard)
    requires Moves(step, at, before, after, r)
    ensures if step == AskShard(s, av)
            then var chosen := FirstTier(at, av, s);
                 && PositionAt(after, av, s) == NextFor(PositionAt(before, av, s), chosen)
                 && r == AnswerFor(PositionAt(before, av, s), chosen)
            else PositionAt(after, av, s) == PositionAt(before, av, s)
  {
    if step.AskShard? {
      RotatedIsAnswer(FirstTier(at, step.availability, step.shard), step.availability, step.shard,
                      before, after, r, av, s);
    }
  }

  /** The answers for one shard and availability are the first tiers of the shard at the moments of its requests,
      each rotated to where the shard's counter has moved on to, whatever happens in between. */
  ghost predicate Served(steps: seq<Step>, trace: seq<Shelves>, av: Availability, s: Shard, p: Uint32,
                         answers: seq<Option<seq<NodeData>>>, position: Uint32) {
    && IsTrace(steps, trace)
    && answers == AnswersFrom(p, TiersAsked(steps, trace, av, s))
    && position == PositionFrom(p, TiersAsked(steps, trace, av, s))
  }

  lemma TraceSnoc(steps: seq<Step>, step: Step, trace: seq<Shelves>, now: Shelves)
    requires IsTrace(steps, trace) && StepFollows(trace[|steps|], step, now)
    ensures IsTrace(steps + [step], trace + [now])
  {
    var steps', trace' := steps + [step], trace + [now];
    forall k | 0 <= k < |steps'| ensures FollowsAt(steps', trace', k) {
      if k < |steps| {
        assert FollowsAt(steps, trace, k);
        assert trace'[k] == trace[k] && trace'[k + 1] == trace[k + 1] && steps'[k] == steps[k];
      }
    }
  }

  lemma ServedNext(steps: seq<Step>, step: Step, trace: seq<Shelves>, now: Shelves, av: Availability, s: Shard,
                   p: Uint32, answers: seq<Option<seq<NodeData>>>, before: Positions, after: Positions,
                   r: Option<seq<NodeData>>)
    requires Served(steps, trace, av, s, p, answers, PositionAt(before, av, s))
    requires StepFollows(trace[|steps|], step, now) && Moves(step, trace[|steps|], before, after, r)
    ensures Served(steps + [step], trace + [now], av, s, p,
                   if step == AskShard(s, av) then answers + [r] else answers, PositionAt(after, av, s))
  {
    TraceSnoc(steps, step, trace, now);
    TiersSnoc(steps, step, trace, now, av, s);
    AnsweredNext(step, trace[|steps|], av, s, p, TiersAsked(steps, trace, av, s), answers, before, after, r);
  }

  lemma AnsweredNext(step: Step, at: Shelves, av: Availability, s: Shard, p: Uint32, tiers: seq<seq<NodeData>>,
                     answers: seq<Option<seq<NodeData>>>, before: Positions, after: Positions, r: Option<seq<NodeData>>)
    requires answers == AnswersFrom(p, tiers) && PositionAt(before, av, s) == PositionFrom(p, tiers)
    requires Moves(step, at, before, after, r)
    ensures AnswersFrom(p, tiers + TierAsked(step, at, av, s)) ==
            if step == AskShard(s, av) then answers + [r] else answers
    ensures PositionAt(after, av, s) == PositionFrom(p, tiers + TierAsked(step, at, av, s))
  {
    MovesIsAnswer(step, at, before, after, r, av, s);
    if step == AskShard(s, av) {
      AnswersSnoc(p, tiers, FirstTier(at, av, s));
    } else {
      assert tiers + TierAsked(step, at, av, s) == tiers;
    }
  }

  /** One step; only a request for a shard moves a counter of a shard. */
  method ServeOne(q: CircularQueueNodesProvider, step: Step) returns (r: Option<seq<NodeData>>)
    requires q.nodes.Valid() && q.positionsHolder.Valid()
    modifies Objects(q.nodes), q.positionsHolder`view, q.positionsHolder.countersMap.Values
    ensures q.nodes.Valid() && q.positionsHolder.Valid() && Objects(q.nodes) <= old(Objects(q.nodes))
    ensures StepFollows(old(q.nodes.View()), step, q.nodes.View())
    ensures Moves(step, old(q.nodes.View()), old(q.positionsHolder.view), q.positionsHolder.view, r)
  {
    if step.Round? {
      UpdateNodesWithSync(q.nodes, step.status);
      FlagsAreShown(q.nodes, step.status);
      r := None;
    } else {
      r := ServeRequest(q, step);
    }
  }

  method ServeRequest(q: CircularQueueNodesProvider, step: Step) returns (r: Option<seq<NodeData>>)
    requires q.nodes.Valid() && q.positionsHolder.Valid() && !step.Round?
    modifies q.nodes.regular`cache, q.nodes.snapshotless`cache
    modifies q.positionsHolder`view, q.positionsHolder.countersMap.Values
    ensures q.nodes.Valid() && q.positionsHolder.Valid() && q.nodes.View() == old(q.nodes.View())
    ensures Moves(step, old(q.nodes.View()), old(q.positionsHolder.view), q.positionsHolder.view, r)
  {
    match step
    case AskShard(s, av) => r := q.GetNodesByShardId(s, av);
    case AskAll(av) =>
      assert q.positionsHolder.MirroredAt(av, 0);
      r := q.GetAllNodes(av);
  }

  lemma NothingServed(now: Shelves, av: Availability, s: Shard, p: Uint32)
    ensures Served([], [now], av, s, p, [], p)
  {
  }

  /** Serves a run; returns the answers for one shard and availability, and what was listed all along. */
  method Serve(q: CircularQueueNodesProvider, steps: seq<Step>, av: Availability, s: Shard)
    returns (answers: seq<Option<seq<NodeData>>>, ghost trace: seq<Shelves>)
    requires q.nodes.Valid() && q.positionsHolder.Valid()
    modifies Objects(q.nodes), q.positionsHolder`view, q.positionsHolder.countersMap.Values
    ensures q.nodes.Valid() && q.positionsHolder.Valid() && Objects(q.nodes) <= old(Objects(q.nodes))
    ensures Served(steps, trace, av, s, PositionAt(old(q.positionsHolder.view), av, s), answers,
                   PositionAt(q.positionsHolder.view, av, s))
    ensures trace[0] == old(q.nodes.View()) && trace[|steps|] == q.nodes.View()
  {
    if steps == [] {
      NothingServed(q.nodes.View(), av, s, PositionAt(q.positionsHolder.view, av, s));
      return [], [q.nodes.View()];
    }
    var init, last := steps[..|steps| - 1], steps[|steps| - 1];
    assert init + [last] == steps;
    answers, trace := Serve(q, init, av, s);
    answers, trace := ServeLast(q, init, last, av, s, PositionAt(old(q.positionsHolder.view), av, s), answers, trace);
  }

  method ServeLast(q: CircularQueueNodesProvider, ghost init: seq<Step>, last: Step, av: Availability, s: Shard,
                   ghost p: Uint32, before: seq<Option<seq<NodeData>>>, ghost earlier: seq<Shelves>)
    returns (answers: seq<Option<seq<NodeData>>>, ghost trace: seq<Shelves>)
    requires q.nodes.Valid() && q.positionsHolder.Valid()
    requires Served(init, earlier, av, s, p, before, PositionAt(q.positionsHolder.view, av, s))
    requires earlier[|init|] == q.nodes.View()
    modifies Objects(q.nodes), q.positionsHolder`view, q.positionsHolder.countersMap.Values
    ensures q.nodes.Valid() && q.positionsHolder.Valid() && Objects(q.nodes) <= old(Objects(q.nodes))
    ensures Served(init + [last], trace, av, s, p, answers, PositionAt(q.positionsHolder.view, av, s))
    ensures trace == earlier + [q.nodes.View()]
  {
    var r := ServeOne(q, last);
    answers := if last == AskShard(s, av) then before + [r] else before;
    trace := earlier + [q.nodes.View()];
    ServedNext(init, last, earlier, q.nodes.View(), av, s, p, before,
               old(q.positionsHolder.view), q.positionsHolder.view, r);
  }

  // ----- Fairness of the answers -----

  /** The requests for the shard find the same list to rotate. */
  ghost predicate Unchanged(steps: seq<Step>, trace: seq<Shelves>, av: Availability, s: Shard, chosen: seq<NodeData>)
    requires |steps| <= |trace|
  {
    forall k :: 0 <= k < |steps| && steps[k] == AskShard(s, av) ==> FirstTier(trace[k], av, s) == chosen
  }

  ghost predicate AllAre(tiers: seq<seq<NodeData>>, chosen: seq<NodeData>) {
    forall j :: 0 <= j < |tiers| ==> tiers[j] == chosen
  }

  lemma {:induction false} UnchangedTiers(steps: seq<Step>, trace: seq<Shelves>, av: Availability, s: Shard,
                                          chosen: seq<NodeData>)
    requires |steps| <= |trace| && Unchanged(steps, trace, av, s, chosen)
    ensures AllAre(TiersAsked(steps, trace, av, s), chosen)
  {
    if steps != [] {
      UnchangedTiers(steps[..|steps| - 1], trace, av, s, chosen);
    }
  }

  lemma NextExactly(q: Uint32, chosen: seq<NodeData>)
    requires 0 < |chosen| < TWO_32 && q < TWO_32 - 1
    ensures NextFor(q, chosen) == (q + 1) % |chosen|
    ensures AnswerFor(q, chosen) == Some(Rotate(chosen, (q + 1) % |chosen|))
  {
    NextPositionExact(q, |chosen|);
  }

  lemma {:induction false} UnchangedPosition(p: Uint32, tiers: seq<seq<NodeData>>, chosen: seq<NodeData>)
    requires AllAre(tiers, chosen) && 0 < |chosen| < TWO_32 && p < TWO_32 - 1
    ensures PositionFrom(p, tiers) < TWO_32 - 1
    ensures (PositionFrom(p, tiers) + 1) % |chosen| == (p + 1 + |tiers|) % |chosen|
  {
    if tiers != [] {
      var init, n := tiers[..|tiers| - 1], |chosen|;
      UnchangedPosition(p, init, chosen);
      NextExactly(PositionFrom(p, init), chosen);
      assert PositionFrom(p, tiers) == (p + |tiers|) % n;
      ModShift(p + |tiers|, 1, n);
    }
  }

  lemma {:induction false} UnchangedAnswer(p: Uint32, tiers: seq<seq<NodeData>>, chosen: seq<NodeData>, j: nat)
    requires AllAre(tiers, chosen) && 0 < |chosen| < TWO_32 && p < TWO_32 - 1 && j < |tiers|
    ensures AnswersFrom(p, tiers)[j] == Some(Rotate(chosen, (p + 1 + j) % |chosen|))
  {
    var init := tiers[..|tiers| - 1];
    if j < |init| {
      UnchangedAnswer(p, init, chosen, j);
    } else {
      UnchangedPosition(p, init, chosen);
      NextExactly(PositionFrom(p, init), chosen);
    }
  }

  /** How often a node is at place `i` of the answers. */
  ghost function TimesAt(answers: seq<Option<seq<NodeData>>>, i: nat, x: NodeData): nat {
    if answers == [] then 0
    else
      var last := answers[|answers| - 1];
      TimesAt(answers[..|answers| - 1], i, x) + if last.Some? && i < |last.value| && last.value[i] == x then 1 else 0
  }

  /** How often the list has the node at these indices, of those below `m`. */
  ghost function TimesBelow(chosen: seq<NodeData>, indices: seq<nat>, m: nat, x: NodeData): nat
    requires m <= |chosen|
  {
    if m == 0 then 0
    else TimesBelow(chosen, indices, m - 1, x) + if chosen[m - 1] == x then CountOf(indices, m - 1) else 0
  }

  /** What is at place `i` of an answer is at index `indices[j]` of the list. */
  ghost predicate IndexedBy(answers: seq<Option<seq<NodeData>>>, i: nat, chosen: seq<NodeData>, indices: seq<nat>) {
    && |answers| == |indices|
    && forall j :: 0 <= j < |indices| ==>
         && indices[j] < |chosen| && answers[j].Some? && i < |answers[j].value|
         && answers[j].value[i] == chosen[indices[j]]
  }

  lemma {:induction false} BelowSnoc(chosen: seq<NodeData>, indices: seq<nat>, k: nat, m: nat, x: NodeData)
    requires m <= |chosen|
    ensures TimesBelow(chosen, indices + [k], m, x) ==
            TimesBelow(chosen, indices, m, x) + if k < m && chosen[k] == x then 1 else 0
  {
    if m > 0 {
      BelowSnoc(chosen, indices, k, m - 1, x);
      assert (indices + [k])[..|indices|] == indices;
    }
  }

  lemma {:induction false} BelowNothing(chosen: seq<NodeData>, m: nat, x: NodeData)
    requires m <= |chosen|
    ensures TimesBelow(chosen, [], m, x) == 0
  {
    if m > 0 {
      BelowNothing(chosen, m - 1, x);
    }
  }

  lemma {:induction false} TimesByIndex(answers: seq<Option<seq<NodeData>>>, i: nat, chosen: seq<NodeData>,
                                        indices: seq<nat>, x: NodeData)
    requires IndexedBy(answers, i, chosen, indices)
    ensures TimesAt(answers, i, x) == TimesBelow(chosen, indices, |chosen|, x)
  {
    if answers == [] {
      BelowNothing(chosen, |chosen|, x);
    } else {
      var init, k := indices[..|indices| - 1], indices[|indices| - 1];
      TimesByIndex(answers[..|answers| - 1], i, chosen, init, x);
      assert indices == init + [k];
      BelowSnoc(chosen, init, k, |chosen|, x);
    }
  }

  ghost predicate Between(indices: seq<nat>, n: nat, low: nat, high: nat) {
    forall k :: 0 <= k < n ==> low <= CountOf(indices, k) <= high
  }

  lemma {:induction false} BelowIsFair(chosen: seq<NodeData>, indices: seq<nat>, low: nat, high: nat, m: nat,
                                       x: NodeData)
    requires m <= |chosen| && Between(indices, |chosen|, low, high)
    ensures multiset(chosen[..m])[x] * low <= TimesBelow(chosen, indices, m, x) <= multiset(chosen[..m])[x] * high
  {
    if m > 0 {
      BelowIsFair(chosen, indices, low, high, m - 1, x);
      OneMore(multiset(chosen[..m - 1])[x], low, TimesBelow(chosen, indices, m - 1, x), high, CountOf(indices, m - 1));
      assert chosen[..m] == chosen[..m - 1] + [chosen[m - 1]];
    }
  }

  lemma OneMore(many: nat, low: nat, times: nat, high: nat, here: nat)
    requires many * low <= times <= many * high && low <= here <= high
    ensures (many + 1) * low <= times + here <= (many + 1) * high
  {
  }

  /** The answers are the list, rotated by one more each time. */
  ghost predicate TurnsBy(answers: seq<Option<seq<NodeData>>>, chosen: seq<NodeData>, a: nat) {
    chosen != [] && forall j :: 0 <= j < |answers| ==> answers[j] == Some(Rotate(chosen, (a + j) % |chosen|))
  }

  function CountUp(a: nat, w: nat, n: nat): (xs: seq<nat>)
    requires n > 0
    ensures |xs| == w
  {
    seq(w, j requires 0 <= j < w => (a + j) % n)
  }

  lemma CountUpIsBetween(a: nat, w: nat, n: nat, low: nat, high: nat)
    requires n > 0 && low == w / n && high == (w + n - 1) / n
    ensures Between(CountUp(a, w, n), n, low, high)
  {
    forall k | 0 <= k < n ensures low <= CountOf(CountUp(a, w, n), k) <= high {
      CountIsHits(CountUp(a, w, n), a, n, k);
      WindowIsFair(a, w, n, k);
    }
  }

  lemma PlaceIndex(chosen: seq<NodeData>, a: nat, i: nat)
    requires i < |chosen|
    ensures |Rotate(chosen, a % |chosen|)| == |chosen|
    ensures Rotate(chosen, a % |chosen|)[i] == chosen[(a + i) % |chosen|]
  {
    RotatePermutes(chosen, a % |chosen|);
    ModShift(a, i, |chosen|);
  }

  lemma WindowIsIndexed(answers: seq<Option<seq<NodeData>>>, chosen: seq<NodeData>, a: nat, from: nat, w: nat, i: nat)
    requires i < |chosen| && from + w <= |answers| && TurnsBy(answers, chosen, a)
    ensures IndexedBy(answers[from..from + w], i, chosen, CountUp(a + from + i, w, |chosen|))
  {
    var window, indices := answers[from..from + w], CountUp(a + from + i, w, |chosen|);
    forall j | 0 <= j < w
      ensures window[j].Some? && i < |window[j].value| && window[j].value[i] == chosen[indices[j]]
    {
      assert window[j] == answers[from + j];
      PlaceIndex(chosen, a + from + j, i);
      assert indices[j] == (a + from + j + i) % |chosen|;
    }
  }

  lemma IndexedIsFair(answers: seq<Option<seq<NodeData>>>, i: nat, chosen: seq<NodeData>, indices: seq<nat>,
                      low: nat, high: nat, x: NodeData)
    requires IndexedBy(answers, i, chosen, indices) && Between(indices, |chosen|, low, high)
    ensures multiset(chosen)[x] * low <= TimesAt(answers, i, x) <= multiset(chosen)[x] * high
  {
    TimesByIndex(answers, i, chosen, indices, x);
    assert chosen[..|chosen|] == chosen;
    BelowIsFair(chosen, indices, low, high, |chosen|, x);
  }

  lemma WindowIsFairAt(answers: seq<Option<seq<NodeData>>>, chosen: seq<NodeData>, a: nat, from: nat, w: nat, i: nat,
                       x: NodeData, low: nat, high: nat)
    requires i < |chosen| && from + w <= |answers| && TurnsBy(answers, chosen, a)
    requires low == w / |chosen| && high == (w + |chosen| - 1) / |chosen|
    ensures multiset(chosen)[x] * low <= TimesAt(answers[from..from + w], i, x) <= multiset(chosen)[x] * high
  {
    WindowIsIndexed(answers, chosen, a, from, w, i);
    CountUpIsBetween(a + from + i, w, |chosen|, low, high);
    IndexedIsFair(answers[from..from + w], i, chosen, CountUp(a + from + i, w, |chosen|), low, high, x);
  }
  /** The node is at place `i` of the `w` answers `w / n` times, rounded down or up, for each time it is in the list
      of `n` nodes. */
  ghost predicate FairAt(answers: seq<Option<seq<NodeData>>>, chosen: seq<NodeData>, i: nat, x: NodeData)
    requires chosen != []
  {
    var w, n, many := |answers|, |chosen|, multiset(chosen)[x];
    many * (w / n) <= TimesAt(answers, i, x) <= many * ((w + n - 1) / n)
  }

  lemma WindowFairAt(answers: seq<Option<seq<NodeData>>>, chosen: seq<NodeData>, a: nat, from: nat, w: nat, i: nat,
                     x: NodeData)
    requires i < |chosen| && from + w <= |answers| && TurnsBy(answers, chosen, a)
    ensures FairAt(answers[from..from + w], chosen, i, x)
  {
    WindowIsFairAt(answers, chosen, a, from, w, i, x, w / |chosen|, (w + |chosen| - 1) / |chosen|);
  }

  /** While the list to rotate stays the same, each answer is the list, rotated by one more than the one before. */
  lemma UnchangedTurns(steps: seq<Step>, trace: seq<Shelves>, av: Availability, s: Shard, p: Uint32,
                       answers: seq<Option<seq<NodeData>>>, position: Uint32, chosen: seq<NodeData>)
    requires Served(steps, trace, av, s, p, answers, position) && p < TWO_32 - 1
    requires Unchanged(steps, trace, av, s, chosen) && 0 < |chosen| < TWO_32
    ensures TurnsBy(answers, chosen, p + 1) && position < TWO_32 - 1
  {
    var tiers := TiersAsked(steps, trace, av, s);
    UnchangedTiers(steps, trace, av, s, chosen);
    UnchangedPosition(p, tiers, chosen);
    forall j | 0 <= j < |answers| ensures answers[j] == Some(Rotate(chosen, (p + 1 + j) % |chosen|)) {
      UnchangedAnswer(p, tiers, chosen, j);
    }
  }

  /** Fairness of a whole run: while the list to rotate for one shard and availability stays the same, under any
      interleaving with other requests and with rounds, every such request is answered by all the nodes of the list,
      and in any window of answers every node is at every place as often as any other, up to one. */
  lemma ServedFairly(steps: seq<Step>, trace: seq<Shelves>, av: Availability, s: Shard, p: Uint32,
                     answers: seq<Option<seq<NodeData>>>, position: Uint32, chosen: seq<NodeData>,
                     from: nat, w: nat, i: nat, x: NodeData)
    requires Served(steps, trace, av, s, p, answers, position) && p < TWO_32 - 1
    requires Unchanged(steps, trace, av, s, chosen) && i < |chosen| < TWO_32
    requires from + w <= |answers|
    ensures forall j :: 0 <= j < |answers| ==> answers[j].Some? && multiset(answers[j].value) == multiset(chosen)
    ensures FairAt(answers[from..from + w], chosen, i, x)
    ensures position < TWO_32 - 1
  {
    UnchangedTurns(steps, trace, av, s, p, answers, position, chosen);
    WindowFairAt(answers, chosen, p + 1, from, w, i, x);
    TurnsPermute(answers, chosen, p + 1);
  }

  lemma TurnsPermute(answers: seq<Option<seq<NodeData>>>, chosen: seq<NodeData>, a: nat)
    requires TurnsBy(answers, chosen, a)
    ensures forall j :: 0 <= j < |answers| ==> answers[j].Some? && multiset(answers[j].value) == multiset(chosen)
  {
    forall j | 0 <= j < |answers| ensures multiset(answers[j].value) == multiset(chosen) {
      RotatePermutes(chosen, (a + j) % |chosen|);
    }
  }
}
