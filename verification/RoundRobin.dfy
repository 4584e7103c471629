/**
 Round-robin rotation of the chosen nodes (observer/circularQueueNodesProvider.go) driven by position
 counters per availability and shard (observer/mapCounters).
 */
module Rotation {

  /** The list starting at a position, wrapped around. */
  function Rotate<T>(xs: seq<T>, p: nat): seq<T>
    requires p <= |xs|
  {
    xs[p..] + xs[..p]
  }

  /** Rotation permutes; place `i` goes to the element `i` further on. */
  lemma RotatePermutes<T>(xs: seq<T>, p: nat)
    requires p < |xs|
    ensures multiset(Rotate(xs, p)) == multiset(xs) && |Rotate(xs, p)| == |xs|
    ensures forall i :: 0 <= i < |xs| ==> Rotate(xs, p)[i] == xs[(p + i) % |xs|]
  {
    assert xs == xs[..p] + xs[p..];
    forall i | 0 <= i < |xs| ensures Rotate(xs, p)[i] == xs[(p + i) % |xs|] {
      if p + i < |xs| {
        DivModUnique(p + i, |xs|, 0, p + i);
      } else {
        DivModUnique(p + i, |xs|, 1, p + i - |xs|);
      }
    }
  }

  /** The positions count up modulo `n`, beginning at `a`. */
  predicate CountsUp(leaders: seq<nat>, a: nat, n: nat)
    requires n > 0
  {
    forall j :: 0 <= j < |leaders| ==> leaders[j] == (a + j) % n
  }

  lemma WindowCountsUp(leaders: seq<nat>, a: nat, n: nat, from: nat, w: nat)
    requires n > 0 && from + w <= |leaders| && CountsUp(leaders, a, n)
    ensures CountsUp(leaders[from..from + w], a + from, n)
  {
    var window := leaders[from..from + w];
    forall j | 0 <= j < |window| ensures window[j] == (a + from + j) % n {
      assert window[j] == leaders[from + j];
    }
  }

  predicate Below(leaders: seq<nat>, n: nat) {
    forall j :: 0 <= j < |leaders| ==> leaders[j] < n
  }

  /** Who comes at place `i` of the answers, one after the other, when they start at these positions. */
  function AtPlace<T>(chosen: seq<T>, leaders: seq<nat>, i: nat): (takers: seq<T>)
    requires i < |chosen| && Below(leaders, |chosen|)
    ensures |takers| == |leaders|
    ensures forall j :: 0 <= j < |leaders| ==> takers[j] == Rotate(chosen, leaders[j])[i]
  {
    seq(|leaders|, j requires 0 <= j < |leaders| => Rotate(chosen, leaders[j])[i])
  }

  /** When the positions count up modulo the length, over as many answers as there are elements, the elements at
      any one place are again a rotation of the list: each element once. */
  lemma PlaceIsRotation<T>(chosen: seq<T>, leaders: seq<nat>, a: nat, i: nat)
    requires i < |chosen| == |leaders| && CountsUp(leaders, a, |chosen|)
    ensures Below(leaders, |chosen|)
    ensures AtPlace(chosen, leaders, i) == Rotate(chosen, (a + i) % |chosen|)
    ensures multiset(AtPlace(chosen, leaders, i)) == multiset(chosen)
  {
    var n := |chosen|;
    forall j | 0 <= j < n ensures leaders[j] < n && Rotate(chosen, leaders[j])[i] == Rotate(chosen, (a + i) % n)[j] {
      SameElement(chosen, leaders[j], a, i, j);
    }
    RotatePermutes(chosen, (a + i) % n);
    assert AtPlace(chosen, leaders, i) == Rotate(chosen, (a + i) % n);
  }

  lemma SameElement<T>(chosen: seq<T>, p: nat, a: nat, i: nat, j: nat)
    requires i < |chosen| && j < |chosen| && p == (a + j) % |chosen|
    ensures p < |chosen| && Rotate(chosen, p)[i] == Rotate(chosen, (a + i) % |chosen|)[j]
  {
    var n := |chosen|;
    RotatePermutes(chosen, p);
    RotatePermutes(chosen, (a + i) % n);
    SameIndex(p, (a + i) % n, a + j, a + i, i, j, n);
  }

  lemma SameIndex(p: int, q: int, x: int, y: int, i: int, j: int, n: int)
    requires n > 0 && p == x % n && q == y % n && x + i == y + j
    ensures (p + i) % n == (q + j) % n
  {
    ModShift(x, i, n);
    ModShift(y, j, n);
  }

  // ----- Division -----

  lemma MulGap(a: int, b: int, n: int)
    requires a > b && n > 0
    ensures a * n >= b * n + n
  {
    var d := a - b - 1;
    assert d * n >= 0;
    assert a * n == b * n + n + d * n;
  }

  lemma DivModUnique(x: int, n: int, q: int, r: int)
    requires n > 0 && x == q * n + r && 0 <= r < n
    ensures x / n == q && x % n == r
  {
    var q', r' := x / n, x % n;
    DivModExact(x, n);
    if q > q' {
      MulGap(q, q', n);
    } else if q < q' {
      MulGap(q', q, n);
    }
  }

  lemma DivModExact(x: int, n: int)
    requires n > 0
    ensures x == (x / n) * n + x % n
  {
  }

  lemma ModShift(x: int, y: int, n: int)
    requires n > 0
    ensures (x % n + y) % n == (x + y) % n
  {
    var q := (x % n + y) / n;
    assert x + y == (x / n + q) * n + (x % n + y) % n;
    DivModUnique(x + y, n, x / n + q, (x % n + y) % n);
  }

  lemma DivStep(x: int, n: int)
    requires n > 0
    ensures (x + 1) / n == x / n + if (x + 1) % n == 0 then 1 else 0
  {
    var q, r := x / n, x % n;
    if r == n - 1 {
      assert x + 1 == (q + 1) * n;
      DivModUnique(x + 1, n, q + 1, 0);
    } else {
      DivModUnique(x + 1, n, q, r + 1);
    }
  }

  lemma DivMonotone(x: int, y: int, n: int)
    requires n > 0 && x <= y
    ensures x / n <= y / n
  {
    DivModExact(x, n);
    DivModExact(y, n);
    if x / n > y / n {
      MulGap(x / n, y / n, n);
    }
  }

  // ----- Fairness of counting modulo n -----

  /** How often `k` comes up in `a % n`, `(a + 1) % n`, ..., `w` terms in all. */
  function Hits(a: nat, w: nat, n: nat, k: nat): nat
    requires n > 0
  {
    if w == 0 then 0 else Hits(a, w - 1, n, k) + if (a + w - 1) % n == k then 1 else 0
  }

  /** The distance from `a` to the next number that is `k` modulo `n`. */
  function Distance(a: nat, n: nat, k: nat): (d: nat)
    requires k < n
    ensures d < n
  {
    (k + n - a % n) % n
  }

  lemma HitsAtDistance(a: nat, w: nat, n: nat, k: nat)
    requires k < n
    ensures (a + w) % n == k <==> (w + n - Distance(a, n, k)) % n == 0
  {
    var r, d := a % n, Distance(a, n, k);
    ModShift(a, w, n);
    var x := w % n;
    ModShift(w, r, n);
    ModShift(w, n - d, n);
    assert (a + w) % n == (x + r) % n;
    assert (w + n - d) % n == (x + n - d) % n;
    // Both sides depend on x and r only; compare them within one period.
    if k >= r {
      DivModUnique(k + n - r, n, 1, k - r);
    } else {
      DivModUnique(k + n - r, n, 0, k + n - r);
    }
    DivModUnique(x + r, n, if x + r < n then 0 else 1, if x + r < n then x + r else x + r - n);
    DivModUnique(x + n - d, n, if x < d then 0 else 1, if x < d then x + n - d else x - d);
  }

  lemma {:induction false} HitsClosedForm(a: nat, w: nat, n: nat, k: nat)
    requires k < n
    ensures Hits(a, w, n, k) == (w + n - 1 - Distance(a, n, k)) / n
  {
    var d := Distance(a, n, k);
    if w == 0 {
      DivModUnique(n - 1 - d, n, 0, n - 1 - d);
    } else {
      HitsClosedForm(a, w - 1, n, k);
      HitsAtDistance(a, w - 1, n, k);
      DivStep(w - 1 + n - 1 - d, n);
    }
  }

  /** In any window every residue comes up as often as any other, up to one. */
  lemma WindowIsFair(a: nat, w: nat, n: nat, k: nat)
    requires k < n
    ensures w / n <= Hits(a, w, n, k) <= (w + n - 1) / n
    ensures w == n ==> Hits(a, w, n, k) == 1
  {
    HitsClosedForm(a, w, n, k);
    DivMonotone(w, w + n - 1 - Distance(a, n, k), n);
    DivMonotone(w + n - 1 - Distance(a, n, k), w + n - 1, n);
    if w == n {
      DivModUnique(2 * n - 1 - Distance(a, n, k), n, 1, n - 1 - Distance(a, n, k));
    }
  }
}

module RoundRobin {
  import opened Basics
  import opened NodeHolders
  import opened NodeProviders
  import opened Rotation

  // ----- The counters as values -----

  /** The next position in a list of `numNodes` nodes, counting with 32-bit wrap-around. */
  function NextPosition(p: Uint32, numNodes: Uint32): Uint32
    requires numNodes > 0
  {
    ((p + 1) % TWO_32) % numNodes
  }

  /** One counter per availability and shard; those not used yet are at zero. */
  type Positions = map<(Availability, Shard), Uint32>

  function PositionAt(m: Positions, av: Availability, s: Shard): Uint32 {
    if (av, s) in m then m[(av, s)] else 0
  }

  /** A request for a shard's nodes, at a moment when the list to rotate has `numNodes` nodes. */
  datatype Call = Call(availability: Availability, shard: Shard, numNodes: Uint32)

  function Advance(m: Positions, c: Call): Positions
    requires c.numNodes > 0
  {
    m[(c.availability, c.shard) := NextPosition(PositionAt(m, c.availability, c.shard), c.numNodes)]
  }

  predicate Proper(calls: seq<Call>) {
    forall i :: 0 <= i < |calls| ==> calls[i].numNodes > 0
  }

  function After(m: Positions, calls: seq<Call>): Positions
    requires Proper(calls)
  {
    if calls == [] then m else Advance(After(m, calls[..|calls| - 1]), calls[|calls| - 1])
  }

  /** How many of the calls are for this list. */
  function CallsFor(calls: seq<Call>, av: Availability, s: Shard): nat {
    if calls == [] then 0
    else
      var last := calls[|calls| - 1];
      CallsFor(calls[..|calls| - 1], av, s) + if last.availability == av && last.shard == s then 1 else 0
  }

  /** The calls for this list find `n` nodes in it. */
  predicate SameLength(calls: seq<Call>, av: Availability, s: Shard, n: nat) {
    forall i :: 0 <= i < |calls| && calls[i].availability == av && calls[i].shard == s ==> calls[i].numNodes == n
  }

  /** No counter is at the very end of the 32-bit range, so that counting up never wraps around. */
  predicate NoOverflow(m: Positions) {
    forall k :: k in m ==> m[k] < TWO_32 - 1
  }

  lemma {:induction false} NeverOverflows(m: Positions, calls: seq<Call>)
    requires NoOverflow(m) && Proper(calls)
    ensures NoOverflow(After(m, calls))
  {
    if calls != [] {
      NeverOverflows(m, calls[..|calls| - 1]);
    }
  }

  /** While one shard's list has `n` nodes, its position after any calls, for whatever shards and
      availabilities and with lists of whatever lengths in between, counts its own calls modulo `n`. */
  lemma {:induction false} PositionCounts(m: Positions, calls: seq<Call>, av: Availability, s: Shard, n: Uint32)
    requires NoOverflow(m) && Proper(calls) && n > 0
    requires SameLength(calls, av, s, n)
    ensures CallsFor(calls, av, s) > 0 ==>
              PositionAt(After(m, calls), av, s) == (PositionAt(m, av, s) + CallsFor(calls, av, s)) % n
    ensures CallsFor(calls, av, s) == 0 ==> PositionAt(After(m, calls), av, s) == PositionAt(m, av, s)
  {
    if calls != [] {
      var init, last := calls[..|calls| - 1], calls[|calls| - 1];
      PositionCounts(m, init, av, s, n);
      NeverOverflows(m, init);
      if last.availability == av && last.shard == s {
        var p := PositionAt(After(m, init), av, s);
        NextPositionExact(p, n);
        ModShift(PositionAt(m, av, s) + CallsFor(init, av, s), 1, n);
      }
    }
  }

  lemma NextPositionExact(p: Uint32, n: Uint32)
    requires p < TWO_32 - 1 && n > 0
    ensures NextPosition(p, n) == (p + 1) % n
  {
  }

  /** The indices handed out first by the calls for one list, in the order of these calls. */
  function Leaders(m: Positions, calls: seq<Call>, av: Availability, s: Shard): (leaders: seq<nat>)
    requires Proper(calls)
    ensures |leaders| == CallsFor(calls, av, s)
  {
    if calls == [] then []
    else
      var init, last := calls[..|calls| - 1], calls[|calls| - 1];
      Leaders(m, init, av, s) +
      if last.availability == av && last.shard == s then [PositionAt(After(m, calls), av, s)] else []
  }

  lemma {:induction false} LeadersCount(m: Positions, calls: seq<Call>, av: Availability, s: Shard, n: Uint32, j: nat)
    requires NoOverflow(m) && Proper(calls) && n > 0
    requires SameLength(calls, av, s, n)
    requires j < CallsFor(calls, av, s)
    ensures Leaders(m, calls, av, s)[j] == (PositionAt(m, av, s) + j + 1) % n
  {
    var init := calls[..|calls| - 1];
    if j < CallsFor(init, av, s) {
      LeadersCount(m, init, av, s, n, j);
    } else {
      PositionCounts(m, calls, av, s, n);
    }
  }

  function CountOf(xs: seq<nat>, k: nat): nat {
    if xs == [] then 0 else CountOf(xs[..|xs| - 1], k) + if xs[|xs| - 1] == k then 1 else 0
  }

  lemma {:induction false} CountIsHits(xs: seq<nat>, a: nat, n: nat, k: nat)
    requires n > 0 && CountsUp(xs, a, n)
    ensures CountOf(xs, k) == Hits(a, |xs|, n, k)
  {
    if xs != [] {
      CountIsHits(xs[..|xs| - 1], a, n, k);
    }
  }

  /** Fairness: in any window of `w` consecutive calls for a list of `n` nodes, under any interleaving with
      other calls, each node leads `w / n` times, rounded down or up. */
  lemma EveryNodeLeads(m: Positions, calls: seq<Call>, av: Availability, s: Shard, n: Uint32, from: nat, w: nat, k: nat)
    requires NoOverflow(m) && Proper(calls) && k < n
    requires SameLength(calls, av, s, n)
    requires from + w <= CallsFor(calls, av, s)
    ensures var window := Leaders(m, calls, av, s)[from..from + w];
            && w / n <= CountOf(window, k) <= (w + n - 1) / n
            && (w == n ==> CountOf(window, k) == 1)
  {
    var window := Leaders(m, calls, av, s)[from..from + w];
    var a := PositionAt(m, av, s) + from + 1;
    WindowCounts(m, calls, av, s, n, from, w);
    CountIsHits(window, a, n, k);
    WindowIsFair(a, w, n, k);
  }

  /** Over `n` consecutive calls for a list of `n` nodes, the nodes at any one place of the answers are the nodes of
      the list, each as often as it is in there: every node takes every place exactly once. */
  lemma EveryNodeTakesEveryPlace<T>(m: Positions, calls: seq<Call>, av: Availability, s: Shard, chosen: seq<T>,
                                    from: nat, i: nat)
    requires NoOverflow(m) && Proper(calls) && i < |chosen| < TWO_32
    requires SameLength(calls, av, s, |chosen|)
    requires from + |chosen| <= CallsFor(calls, av, s)
    ensures var window := Leaders(m, calls, av, s)[from..from + |chosen|];
            Below(window, |chosen|) && multiset(AtPlace(chosen, window, i)) == multiset(chosen)
  {
    var window := Leaders(m, calls, av, s)[from..from + |chosen|];
    WindowCounts(m, calls, av, s, |chosen|, from, |chosen|);
    PlaceIsRotation(chosen, window, PositionAt(m, av, s) + from + 1, i);
  }

  /** A window of leaders counts up modulo the length. */
  lemma WindowCounts(m: Positions, calls: seq<Call>, av: Availability, s: Shard, n: Uint32, from: nat, w: nat)
    requires NoOverflow(m) && Proper(calls) && n > 0
    requires SameLength(calls, av, s, n)
    requires from + w <= CallsFor(calls, av, s)
    ensures CountsUp(Leaders(m, calls, av, s)[from..from + w], PositionAt(m, av, s) + from + 1, n)
  {
    var leaders, a := Leaders(m, calls, av, s), PositionAt(m, av, s) + 1;
    forall j | 0 <= j < |leaders| ensures leaders[j] == (a + j) % n {
      LeadersCount(m, calls, av, s, n, j);
    }
    WindowCountsUp(leaders, a, n, from, w);
  }

  // ----- The counter over all nodes -----

  /** How many nodes were last rotated, and to where. */
  datatype Turn = Turn(numNodes: Uint32, position: Uint32)

  const UNTURNED := Turn(0, 0)

  /** The position starts anew whenever the number of nodes changes. */
  function StartOf(t: Turn, numNodes: Uint32): Uint32 {
    if t.numNodes == numNodes then t.position else 0
  }

  function NextTurn(t: Turn, numNodes: Uint32): Turn
    requires numNodes > 0
  {
    Turn(numNodes, NextPosition(StartOf(t, numNodes), numNodes))
  }

  /** After requests for any numbers of nodes. */
  function AfterTurns(t: Turn, ns: seq<Uint32>): Turn
    requires forall i :: 0 <= i < |ns| ==> ns[i] > 0
  {
    if ns == [] then t else NextTurn(AfterTurns(t, ns[..|ns| - 1]), ns[|ns| - 1])
  }

  /** The common counter never overflows either. */
  lemma {:induction false} TurnsNeverOverflow(t: Turn, ns: seq<Uint32>)
    requires t.position < TWO_32 - 1 && forall i :: 0 <= i < |ns| ==> ns[i] > 0
    ensures AfterTurns(t, ns).position < TWO_32 - 1
  {
  }

  lemma OneModulo(n: Uint32)
    requires n > 0
    ensures 1 % n == if n == 1 then 0 else 1
  {
    DivModUnique(1, n, if n == 1 then 1 else 0, if n == 1 then 0 else 1);
  }

  /** A request for as many nodes as the one before goes on from its position; any other starts anew. */
  lemma NextTurnInFull(t: Turn, n: Uint32)
    requires t.position < TWO_32 - 1 && n > 0
    ensures NextTurn(t, n).numNodes == n
    ensures t.numNodes == n ==> NextTurn(t, n).position == (t.position + 1) % n
    ensures t.numNodes != n ==> NextTurn(t, n).position == if n == 1 then 0 else 1
  {
    var start := StartOf(t, n);
    NextPositionExact(start, n);
    if t.numNodes != n {
      OneModulo(n);
    }
  }

  /** The count compared with is that of the request before. */
  lemma LastTurn(ns: seq<Uint32>)
    requires ns != [] && forall i :: 0 <= i < |ns| ==> ns[i] > 0
    ensures AfterTurns(UNTURNED, ns).numNodes == ns[|ns| - 1]
  {
  }

  /** The indices handed out first by `w` requests for the same number of nodes. */
  function TurnLeaders(t: Turn, numNodes: Uint32, w: nat): (leaders: seq<nat>)
    requires numNodes > 0
    ensures |leaders| == w
    decreases w
  {
    if w == 0 then []
    else [NextTurn(t, numNodes).position] + TurnLeaders(NextTurn(t, numNodes), numNodes, w - 1)
  }

  lemma {:induction false} TurnsCount(t: Turn, n: Uint32, w: nat, j: nat)
    requires n > 0 && t.position < TWO_32 - 1 && j < w
    ensures TurnLeaders(t, n, w)[j] == (StartOf(t, n) + j + 1) % n
    decreases j
  {
    NextPositionExact(StartOf(t, n), n);
    if j > 0 {
      TurnsCount(NextTurn(t, n), n, w - 1, j - 1);
      ModShift(StartOf(t, n) + 1, j, n);
    }
  }

  lemma TurnsCountUp(t: Turn, n: Uint32, w: nat)
    requires n > 0 && t.position < TWO_32 - 1
    ensures CountsUp(TurnLeaders(t, n, w), StartOf(t, n) + 1, n)
  {
    forall j | 0 <= j < w ensures TurnLeaders(t, n, w)[j] == (StartOf(t, n) + 1 + j) % n {
      TurnsCount(t, n, w, j);
    }
  }

  /** The rotation over all nodes is as fair as that over one shard's, while their number stays the same,
      whatever was requested before. */
  lemma EveryNodeLeadsAll(ns: seq<Uint32>, n: Uint32, w: nat, k: nat)
    requires k < n && forall i :: 0 <= i < |ns| ==> ns[i] > 0
    ensures var leaders := TurnLeaders(AfterTurns(UNTURNED, ns), n, w);
            && w / n <= CountOf(leaders, k) <= (w + n - 1) / n
            && (w == n ==> CountOf(leaders, k) == 1)
  {
    var t := AfterTurns(UNTURNED, ns);
    var leaders, a := TurnLeaders(t, n, w), StartOf(t, n) + 1;
    TurnsNeverOverflow(UNTURNED, ns);
    TurnsCountUp(t, n, w);
    CountIsHits(leaders, a, n, k);
    WindowIsFair(a, w, n, k);
  }

  lemma EveryNodeTakesEveryPlaceAll<T>(ns: seq<Uint32>, chosen: seq<T>, i: nat)
    requires i < |chosen| < TWO_32 && forall i :: 0 <= i < |ns| ==> ns[i] > 0
    ensures var leaders := TurnLeaders(AfterTurns(UNTURNED, ns), |chosen|, |chosen|);
            Below(leaders, |chosen|) && multiset(AtPlace(chosen, leaders, i)) == multiset(chosen)
  {
    var t, n := AfterTurns(UNTURNED, ns), |chosen|;
    TurnsNeverOverflow(UNTURNED, ns);
    TurnsCountUp(t, n, n);
    PlaceIsRotation(chosen, TurnLeaders(t, n, n), StartOf(t, n) + 1, i);
  }

  // ----- The counters in place -----

  class MapCounter {
    var positions: map<Shard, Uint32>
    var allNodesCount: Uint32
    var allNodesPosition: Uint32

    constructor ()
      ensures positions == map[] && allNodesCount == allNodesPosition == 0
    {
      positions, allNodesCount, allNodesPosition := map[], 0, 0;
    }

    method ComputePositionForShard(shard: Shard, numNodes: Uint32) returns (position: Uint32)
      requires numNodes > 0
      modifies this`positions
      ensures position == NextPosition(if shard in old(positions) then old(positions)[shard] else 0, numNodes)
      ensures positions == old(positions)[shard := position]
    {
      if shard !in positions {
        positions := positions[shard := 0];
      }
      positions := positions[shard := (positions[shard] + 1) % TWO_32];
      positions := positions[shard := positions[shard] % numNodes];
      return positions[shard];
    }

    function Current(): Turn
      reads this`allNodesCount, this`allNodesPosition
    {
      Turn(allNodesCount, allNodesPosition)
    }

    method ComputePositionForAllNodes(numNodes: Uint32) returns (position: Uint32)
      requires numNodes > 0
      modifies this`allNodesCount, this`allNodesPosition
      ensures Current() == NextTurn(old(Current()), numNodes) && position == allNodesPosition
    {
      if numNodes != allNodesCount {
        allNodesCount := numNodes;
        allNodesPosition := 0;
      }
      allNodesPosition := (allNodesPosition + 1) % TWO_32;
      allNodesPosition := allNodesPosition % numNodes;
      return allNodesPosition;
    }
  }

  /** `uint32(len(nodes))`, which truncates. */
  function Length32(nodes: seq<NodeData>): Uint32 {
    |nodes| % TWO_32
  }

  class MapCountersHolder {
    const countersMap: map<Availability, MapCounter>
    ghost var view: Positions

    ghost predicate Valid()
      reads this, countersMap.Values
    {
      && All in countersMap && Recent in countersMap
      && countersMap[All] != countersMap[Recent]
      && forall av, s :: MirroredAt(av, s)
    }

    ghost predicate MirroredAt(av: Availability, s: Shard)
      reads this, countersMap.Values
    {
      && av in countersMap
      && ((av, s) in view <==> s in countersMap[av].positions)
      && ((av, s) in view ==> view[(av, s)] == countersMap[av].positions[s])
    }

    constructor ()
      ensures Valid() && view == map[] && fresh(countersMap.Values)
    {
      var all := new MapCounter();
      var recent := new MapCounter();
      countersMap, view := map[All := all, Recent := recent], map[];
      new;
      forall av: Availability, s ensures MirroredAt(av, s) {
        match av
        case All =>
        case Recent =>
      }
    }

    /** An error when there is nothing to rotate. */
    method ComputeShardPosition(av: Availability, shard: Shard, numNodes: Uint32) returns (position: Option<Uint32>)
      requires Valid()
      modifies this`view, countersMap.Values`positions
      ensures Valid()
      ensures position.Some? <==> numNodes > 0
      ensures numNodes == 0 ==> view == old(view)
      ensures numNodes > 0 ==>
        view == Advance(old(view), Call(av, shard, numNodes)) && position.value == PositionAt(view, av, shard)
    {
      if numNodes == 0 {
        return None;
      }
      assert MirroredAt(av, shard);
      var p := countersMap[av].ComputePositionForShard(shard, numNodes);
      view := view[(av, shard) := p];
      forall a: Availability, s ensures MirroredAt(a, s) {
        assert old(MirroredAt(a, s));
        assert a == All || a == Recent;
      }
      return Some(p);
    }

    method ComputeAllNodesPosition(av: Availability, numNodes: Uint32) returns (position: Option<Uint32>)
      requires Valid()
      modifies {countersMap[av]}`allNodesCount, {countersMap[av]}`allNodesPosition
      ensures Valid()
      ensures position.Some? <==> numNodes > 0
      ensures numNodes == 0 ==> countersMap[av].Current() == old(countersMap[av].Current())
      ensures numNodes > 0 ==>
        && countersMap[av].Current() == NextTurn(old(countersMap[av].Current()), numNodes)
        && position.value == countersMap[av].allNodesPosition
    {
      if numNodes == 0 {
        return None;
      }
      var p := countersMap[av].ComputePositionForAllNodes(numNodes);
      forall a: Availability, s ensures MirroredAt(a, s) {
        assert old(MirroredAt(a, s));
      }
      return Some(p);
    }

    method RotateForShard(chosen: seq<NodeData>, av: Availability, s: Shard) returns (r: Option<seq<NodeData>>)
      requires Valid()
      modifies this`view, countersMap.Values`positions
      ensures Valid() && RotatedForShard(chosen, av, s, old(view), view, r)
    {
      var position := ComputeShardPosition(av, s, Length32(chosen));
      if position.None? {
        return None;
      }
      return Some(Rotate(chosen, position.value));
    }

    method RotateAll(chosen: seq<NodeData>, av: Availability) returns (r: Option<seq<NodeData>>)
      requires Valid()
      modifies {countersMap[av]}`allNodesCount, {countersMap[av]}`allNodesPosition
      ensures Valid() && RotatedAll(chosen, old(countersMap[av].Current()), countersMap[av].Current(), r)
    {
      var position := ComputeAllNodesPosition(av, Length32(chosen));
      if position.None? {
        return None;
      }
      return Some(Rotate(chosen, position.value));
    }
  }

  class CircularQueueNodesProvider {
    const nodes: NodeProvider
    const positionsHolder: MapCountersHolder

    constructor (nodes: NodeProvider)
      requires nodes.Valid()
      ensures this.nodes == nodes && nodes.Valid() && positionsHolder.Valid() && positionsHolder.view == map[]
    {
      this.nodes := nodes;
      positionsHolder := new MapCountersHolder();
    }

    /** The nodes chosen for a shard, rotated to the next position of its counter. */
    method GetNodesByShardId(s: Shard, av: Availability) returns (r: Option<seq<NodeData>>)
      requires nodes.Valid() && positionsHolder.Valid()
      modifies nodes.regular`cache, nodes.snapshotless`cache
      modifies positionsHolder`view, positionsHolder.countersMap.Values`positions
      ensures nodes.Valid() && positionsHolder.Valid() && nodes.View() == old(nodes.View())
      ensures r.Some? ==> s in nodes.shardIds
      ensures RotatedForShard(FirstTier(old(nodes.View()), av, s), av, s,
                              old(positionsHolder.view), positionsHolder.view, r)
    {
      var chosen := nodes.GetSyncedNodesForShard(s, av);
      if chosen.None? {
        return None;
      }
      r := positionsHolder.RotateForShard(chosen.value, av, s);
    }

    /** The nodes chosen for all shards, rotated. */
    method GetAllNodes(av: Availability) returns (r: Option<seq<NodeData>>)
      requires nodes.Valid() && positionsHolder.Valid()
      modifies nodes.regular`cache, nodes.snapshotless`cache
      modifies {positionsHolder.countersMap[av]}`allNodesCount, {positionsHolder.countersMap[av]}`allNodesPosition
      ensures nodes.Valid() && positionsHolder.Valid() && nodes.View() == old(nodes.View())
      ensures nodes.shardIds != [] ==>
        RotatedAll(FirstTiers(old(nodes.View()), av, nodes.shardIds),
                   old(positionsHolder.countersMap[av].Current()), positionsHolder.countersMap[av].Current(), r)
      ensures nodes.shardIds == [] ==>
        r == None && positionsHolder.countersMap[av].Current() == old(positionsHolder.countersMap[av].Current())
    {
      var chosen := nodes.GetSyncedNodes(av);
      if chosen.None? {
        return None;
      }
      r := positionsHolder.RotateAll(chosen.value, av);
    }
  }

  /** The answer for a shard: its list, rotated to where its own counter has moved on to. */
  ghost predicate RotatedForShard(chosen: seq<NodeData>, av: Availability, s: Shard, before: Positions,
                                  after: Positions, r: Option<seq<NodeData>>) {
    if Length32(chosen) == 0 then r == None && after == before
    else
      && after == Advance(before, Call(av, s, Length32(chosen)))
      && PositionAt(after, av, s) < |chosen|
      && r == Some(Rotate(chosen, PositionAt(after, av, s)))
  }

  /** The answer for all shards: the chosen nodes, rotated to where their common counter has moved on to. */
  ghost predicate RotatedAll(chosen: seq<NodeData>, before: Turn, after: Turn, r: Option<seq<NodeData>>) {
    if Length32(chosen) == 0 then r == None && after == before
    else
      && after == NextTurn(before, Length32(chosen))
      && after.position < |chosen|
      && r == Some(Rotate(chosen, after.position))
  }
}
