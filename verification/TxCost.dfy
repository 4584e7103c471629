/**
 Resolving the cost of a transaction (process/txcost): the cost request is executed on the sender's and
 the receiver's shard, and every smart-contract result in an answer is executed in turn on its own
 shard. The remote side is a finite tree of responses; maps are walked in arbitrary order, also while
 the walk itself inserts into them.
 */
module TxCost {
  import opened Basics

  /** What a shard says about a request: nothing to ask, no usable answer, or a response. */
  datatype Answer = NoObservers | RequestFailed | Answered(response: Response)

  /** `tooMuchGas` says whether a log event of the response carries the "too much gas provided" topic. */
  datatype Response = Response(cost: Uint64, retMessage: string, tooMuchGas: bool, results: map<string, ScResult>)

  /** A result, with what its own shard would answer. `convertible` says whether the fields that must be
      decoded to execute it do decode. */
  datatype ScResult = ScResult(
    sender: string, receiver: string, functionName: string, hasTokens: bool, directCall: bool, isRefund: bool,
    convertible: bool, gasLimit: Uint64, answer: Answer)

  /** The shard of an address, when it decodes. */
  type ShardOf = string -> Option<Shard>

  /** Sender and receiver shard of the request that led to a response. */
  datatype Route = Route(sender: Shard, receiver: Shard)

  function RouteOf(shardOf: ShardOf, sender: string, receiver: string): Option<Route> {
    match shardOf(sender)
    case None => None
    case Some(snd) =>
      match shardOf(receiver)
      case None => None
      case Some(rcv) => Some(Route(snd, rcv))
  }

  /** Whether a result of a response to `route` is skipped. */
  predicate ShouldIgnore(route: Route, own: Route, scr: ScResult) {
    || route.receiver == own.receiver
    || (own.receiver == route.sender && scr.directCall)
    || own.sender == METACHAIN
    || (scr.functionName == "" && scr.hasTokens)
  }

  predicate IsExecuted(shardOf: ShardOf, route: Route, scr: ScResult) {
    var own := RouteOf(shardOf, scr.sender, scr.receiver);
    own.Some? && !ShouldIgnore(route, own.value, scr) && scr.convertible
  }

  /** Which results are executed: both addresses decode, the result leaves the shard that answered, it is no direct
      call back to the request's own shard, it is not sent by the metachain, it is no bare transfer of tokens, and
      its fields decode. */
  lemma ExecutedInFull(shardOf: ShardOf, route: Route, scr: ScResult)
    ensures IsExecuted(shardOf, route, scr) <==>
            && shardOf(scr.sender).Some? && shardOf(scr.receiver).Some?
            && shardOf(scr.receiver) != Some(route.receiver)
            && (shardOf(scr.receiver) == Some(route.sender) ==> !scr.directCall)
            && shardOf(scr.sender) != Some(0xFFFF_FFFF)
            && (scr.functionName == "" ==> !scr.hasTokens)
            && scr.convertible
  {
  }

  // ----- Totals over a response tree -----

  datatype Measure = Costs | GasLimits | Executions

  /** Total over a response and all the responses to results executed below it. */
  ghost function Total(what: Measure, shardOf: ShardOf, route: Route, r: Response): int
    decreases r, 1
  {
    (if what == Costs then r.cost else 0) + TotalOver(what, shardOf, route, r, r.results.Keys)
  }

  ghost function TotalOver(what: Measure, shardOf: ShardOf, route: Route, r: Response, keys: set<string>): int
    requires keys <= r.results.Keys
    decreases r, 0, keys
  {
    if keys == {} then 0
    else
      var k :| k in keys;
      TotalOf(what, shardOf, route, r.results[k]) + TotalOver(what, shardOf, route, r, keys - {k})
  }

  /** What one result of a response to `route` adds. */
  ghost function TotalOf(what: Measure, shardOf: ShardOf, route: Route, scr: ScResult): int
    decreases scr
  {
    if !IsExecuted(shardOf, route, scr) then 0
    else
      (match what case Costs => 0 case GasLimits => scr.gasLimit case Executions => 1) +
      (if scr.answer.Answered? then Total(what, shardOf, OwnRoute(shardOf, scr), scr.answer.response) else 0)
  }

  function OwnRoute(shardOf: ShardOf, scr: ScResult): Route
    requires RouteOf(shardOf, scr.sender, scr.receiver).Some?
  {
    RouteOf(shardOf, scr.sender, scr.receiver).value
  }

  /** The total does not depend on which key is taken first. */
  lemma {:induction false} TotalOverTake(what: Measure, shardOf: ShardOf, route: Route, r: Response,
                                         keys: set<string>, k: string)
    requires keys <= r.results.Keys && k in keys
    ensures TotalOver(what, shardOf, route, r, keys) ==
            TotalOf(what, shardOf, route, r.results[k]) + TotalOver(what, shardOf, route, r, keys - {k})
    decreases keys
  {
    var k' :| k' in keys && TotalOver(what, shardOf, route, r, keys) ==
      TotalOf(what, shardOf, route, r.results[k']) + TotalOver(what, shardOf, route, r, keys - {k'});
    if k' != k {
      TotalOverTake(what, shardOf, route, r, keys - {k'}, k);
      TotalOverTake(what, shardOf, route, r, keys - {k}, k');
      assert keys - {k'} - {k} == keys - {k} - {k'};
    }
  }

  /** All hashes a response may hold once it has been processed. */
  ghost function AllHashes(shardOf: ShardOf, route: Route, r: Response): set<string>
    decreases r
  {
    r.results.Keys + set k, h | k in r.results && h in HashesOf(shardOf, route, r.results[k]) :: h
  }

  /** The hashes that come back from executing a result. */
  ghost function HashesOf(shardOf: ShardOf, route: Route, scr: ScResult): set<string>
    decreases scr
  {
    if IsExecuted(shardOf, route, scr) && scr.answer.Answered?
    then AllHashes(shardOf, OwnRoute(shardOf, scr), scr.answer.response)
    else {}
  }

  /** No return message, every result that is executed is answered, and nothing that comes back carries a
      hash of the results it comes back to. */
  ghost predicate Clean(shardOf: ShardOf, route: Route, r: Response)
    decreases r
  {
    && r.retMessage == ""
    && forall k :: k in r.results ==>
         CleanResult(shardOf, route, r.results[k]) && HashesOf(shardOf, route, r.results[k]) !! r.results.Keys
  }

  ghost predicate CleanResult(shardOf: ShardOf, route: Route, scr: ScResult)
    decreases scr
  {
    IsExecuted(shardOf, route, scr) ==>
      scr.answer.Answered? && Clean(shardOf, OwnRoute(shardOf, scr), scr.answer.response)
  }

  // ----- What the processor has written down -----

  /** A result as held by a response being processed. */
  datatype Entry = Entry(scr: ScResult, used: bool)

  datatype Recorded = Recorded(cost: Uint64, retMessage: string, tooMuchGas: bool, results: map<string, Entry>)

  function Record(r: Response): Recorded {
    Recorded(r.cost, r.retMessage, r.tooMuchGas, map k | k in r.results :: Entry(r.results[k], false))
  }

  /** The fields of the cost processor. */
  datatype Book = Book(responses: seq<Recorded>, scrs: seq<ScResult>, hasExecutedScr: bool)

  function Sum(xs: seq<int>): int {
    if xs == [] then 0 else Sum(xs[..|xs| - 1]) + xs[|xs| - 1]
  }

  function CostsOf(rs: seq<Recorded>): seq<int> {
    seq(|rs|, i requires 0 <= i < |rs| => rs[i].cost)
  }

  function GasOf(scrs: seq<ScResult>): seq<int> {
    seq(|scrs|, i requires 0 <= i < |scrs| => scrs[i].gasLimit)
  }

  lemma SumSnoc(xs: seq<int>, x: int)
    ensures Sum(xs + [x]) == Sum(xs) + x
  {
    assert (xs + [x])[..|xs|] == xs;
  }

  predicate Silent(rs: seq<Recorded>) {
    forall i :: 0 <= i < |rs| ==> rs[i].retMessage == ""
  }

  function FirstMessage(rs: seq<Recorded>): (message: string)
    ensures message == "" <==> Silent(rs)
  {
    if rs == [] then "" else if rs[0].retMessage != "" then rs[0].retMessage else FirstMessage(rs[1..])
  }

  /** For arbitrary answers: the lists only grow; of the responses added, all but `roots` answer a result
      that was put up for execution; and if there is any such, an execution has been noted. */
  ghost predicate Grew(before: Book, after: Book, roots: nat) {
    && before.responses <= after.responses
    && before.scrs <= after.scrs
    && |after.responses| - |before.responses| <= |after.scrs| - |before.scrs| + roots
    && (before.hasExecutedScr ==> after.hasExecutedScr)
    && (|after.responses| > |before.responses| + roots ==> after.hasExecutedScr)
  }

  /** For clean answers: exactly these costs, gas limits and executions were added. */
  ghost predicate Added(before: Book, after: Book, roots: nat, costs: int, gas: int, executions: int) {
    && Sum(CostsOf(after.responses)) == Sum(CostsOf(before.responses)) + costs
    && Sum(GasOf(after.scrs)) == Sum(GasOf(before.scrs)) + gas
    && |after.scrs| == |before.scrs| + executions
    && |after.responses| == |before.responses| + executions + roots
    && (Silent(before.responses) ==> Silent(after.responses))
  }

  lemma AddedThen(b0: Book, b1: Book, b2: Book, roots1: nat, roots2: nat,
                  c1: int, g1: int, n1: int, c2: int, g2: int, n2: int)
    requires Added(b0, b1, roots1, c1, g1, n1) && Added(b1, b2, roots2, c2, g2, n2)
    ensures Added(b0, b2, roots1 + roots2, c1 + c2, g1 + g2, n1 + n2)
  {
  }

  /** Writing back the results of a response changes no cost and no message. */
  lemma WriteBack(before: Book, b: Book, i: nat, results: map<string, Entry>, roots: nat, c: int, g: int, n: int)
    requires i < |b.responses| && Added(before, b, roots, c, g, n)
    ensures Added(before, b.(responses := b.responses[i := b.responses[i].(results := results)]), roots, c, g, n)
  {
    var rs := b.responses[i := b.responses[i].(results := results)];
    assert CostsOf(rs) == CostsOf(b.responses);
    assert forall j :: 0 <= j < |rs| ==> rs[j].retMessage == b.responses[j].retMessage;
  }

  lemma AddResponse(b: Book, r: Response)
    ensures r.retMessage == "" ==> Added(b, b.(responses := b.responses + [Record(r)]), 1, r.cost, 0, 0)
  {
    assert CostsOf(b.responses + [Record(r)]) == CostsOf(b.responses) + [r.cost];
    SumSnoc(CostsOf(b.responses), r.cost);
  }

  lemma AddScr(b: Book, scr: ScResult)
    ensures var b' := b.(scrs := b.scrs + [scr]);
            && |b'.scrs| == |b.scrs| + 1
            && Sum(GasOf(b'.scrs)) == Sum(GasOf(b.scrs)) + scr.gasLimit
  {
    assert GasOf(b.scrs + [scr]) == GasOf(b.scrs) + [scr.gasLimit];
    SumSnoc(GasOf(b.scrs), scr.gasLimit);
  }

  /** `mergeResponses`: the other results are taken over, all marked as used. */
  function Merge(into: map<string, Entry>, from: map<string, Entry>): map<string, Entry> {
    into + map k | k in from :: from[k].(used := true)
  }

  /** The results of `r` still to be looked at. */
  ghost function Unused(results: map<string, Entry>): set<string> {
    set k | k in results && !results[k].used
  }

  // ----- The walk over the results of one response -----

  /** The results held while the response is walked: the original ones are all still there, and an entry not
      used yet is an original one. */
  ghost predicate Walked(shardOf: ShardOf, route: Route, r: Response, results: map<string, Entry>) {
    && r.results.Keys <= results.Keys <= AllHashes(shardOf, route, r)
    && Unused(results) <= r.results.Keys
    && forall k :: k in Unused(results) ==> results[k].scr == r.results[k]
  }

  /** Nothing was merged in. */
  ghost predicate Untouched(r: Response, results: map<string, Entry>) {
    && results.Keys == r.results.Keys
    && forall k :: k in r.results ==> results[k].scr == r.results[k]
  }

  /** The results after visiting an unused entry, given what came back for it, if anything. */
  function Visited(results: map<string, Entry>, k: string, back: Option<map<string, Entry>>): map<string, Entry>
    requires k in results
  {
    var marked := results[k := results[k].(used := true)];
    if back.Some? then Merge(marked, back.value) else marked
  }

  lemma VisitedIsWalked(shardOf: ShardOf, route: Route, r: Response, results: map<string, Entry>,
                        k: string, back: Option<map<string, Entry>>)
    requires Walked(shardOf, route, r, results) && k in Unused(results)
    requires back.Some? ==> back.value.Keys <= HashesOf(shardOf, route, r.results[k])
    ensures Walked(shardOf, route, r, Visited(results, k, back))
    ensures Unused(Visited(results, k, back)) <= Unused(results) - {k}
    ensures Clean(shardOf, route, r) ==> Unused(Visited(results, k, back)) == Unused(results) - {k}
  {
    assert HashesOf(shardOf, route, r.results[k]) <= AllHashes(shardOf, route, r);
  }

  /** What is still to come from the results not looked at yet. */
  ghost function Rest(what: Measure, shardOf: ShardOf, route: Route, r: Response, todo: set<string>): int
    requires todo <= r.results.Keys
  {
    Total(what, shardOf, route, r) - TotalOver(what, shardOf, route, r, todo)
  }

  /** The book while the response recorded at `index` is walked. */
  ghost predicate Walking(shardOf: ShardOf, route: Route, r: Response, before: Book, b: Book,
                          results: map<string, Entry>)
    requires Walked(shardOf, route, r, results)
  {
    var index, todo := |before.responses|, Unused(results);
    && index < |b.responses|
    && b.responses[index] == Record(r).(results := results)
    && Grew(before, b, 1)
    && (|b.responses| == index + 1 ==> Untouched(r, results))
    && (Clean(shardOf, route, r) ==>
          Added(before, b, 1, Rest(Costs, shardOf, route, r, todo), Rest(GasLimits, shardOf, route, r, todo),
                Rest(Executions, shardOf, route, r, todo)))
  }

  lemma WalkStarts(shardOf: ShardOf, route: Route, r: Response, before: Book)
    ensures Walked(shardOf, route, r, Record(r).results)
    ensures Unused(Record(r).results) == r.results.Keys
    ensures Walking(shardOf, route, r, before, before.(responses := before.responses + [Record(r)]), Record(r).results)
  {
    AddResponse(before, r);
    assert Unused(Record(r).results) == r.results.Keys;
  }

  /** One visit: the result was processed, leading from `b` to `b'`, and the results are written back. */
  lemma WalkGoesOn(shardOf: ShardOf, route: Route, r: Response, before: Book, b: Book, b': Book,
                   results: map<string, Entry>, k: string, back: Option<map<string, Entry>>)
    requires Walked(shardOf, route, r, results) && Walking(shardOf, route, r, before, b, results)
    requires k in Unused(results)
    requires Grew(b, b', 0) && (back.None? ==> |b'.responses| == |b.responses|)
    requires |b'.responses| == |b.responses| ==> back.None?
    requires back.Some? ==> back.value.Keys <= HashesOf(shardOf, route, r.results[k])
    requires CleanResult(shardOf, route, r.results[k]) ==>
      Added(b, b', 0, TotalOf(Costs, shardOf, route, r.results[k]), TotalOf(GasLimits, shardOf, route, r.results[k]),
            TotalOf(Executions, shardOf, route, r.results[k]))
    ensures var results', i := Visited(results, k, back), |before.responses|;
            && Walked(shardOf, route, r, results')
            && i < |b'.responses|
            && Walking(shardOf, route, r, before,
                       b'.(responses := b'.responses[i := b'.responses[i].(results := results')]), results')
  {
    var results', i, todo := Visited(results, k, back), |before.responses|, Unused(results);
    VisitedIsWalked(shardOf, route, r, results, k, back);
    assert b'.responses[i] == b.responses[i];
    if Clean(shardOf, route, r) {
      var scr := r.results[k];
      AddedThen(before, b, b', 1, 0,
                Rest(Costs, shardOf, route, r, todo), Rest(GasLimits, shardOf, route, r, todo),
                Rest(Executions, shardOf, route, r, todo),
                TotalOf(Costs, shardOf, route, scr), TotalOf(GasLimits, shardOf, route, scr),
                TotalOf(Executions, shardOf, route, scr));
      TotalOverTake(Costs, shardOf, route, r, todo, k);
      TotalOverTake(GasLimits, shardOf, route, r, todo, k);
      TotalOverTake(Executions, shardOf, route, r, todo, k);
      WriteBack(before, b', i, results', 1, Rest(Costs, shardOf, route, r, todo - {k}),
                Rest(GasLimits, shardOf, route, r, todo - {k}), Rest(Executions, shardOf, route, r, todo - {k}));
    }
    GrewThen(before, b, b', i, results');
  }

  /** What processing a response does to the book. */
  ghost predicate Processed(shardOf: ShardOf, route: Route, r: Response, before: Book, after: Book) {
    var index := |before.responses|;
    && Grew(before, after, 1)
    && index < |after.responses|
    && var recorded := after.responses[index];
    && recorded == Record(r).(results := recorded.results)
    && recorded.results.Keys <= AllHashes(shardOf, route, r)
    && (|after.responses| == index + 1 ==> Untouched(r, recorded.results))
    && (r.retMessage != "" ==> |after.responses| == index + 1)
    && (Clean(shardOf, route, r) ==>
          Added(before, after, 1, Total(Costs, shardOf, route, r), Total(GasLimits, shardOf, route, r),
                Total(Executions, shardOf, route, r)))
  }

  lemma WalkEnds(shardOf: ShardOf, route: Route, r: Response, before: Book, b: Book, results: map<string, Entry>)
    requires Walked(shardOf, route, r, results) && Walking(shardOf, route, r, before, b, results)
    requires if r.retMessage == "" then Unused(results) == {} else |b.responses| == |before.responses| + 1
    ensures Processed(shardOf, route, r, before, b)
  {
  }

  lemma GrewThen(before: Book, b: Book, b': Book, i: nat, results: map<string, Entry>)
    requires Grew(before, b, 1) && Grew(b, b', 0) && i == |before.responses| < |b.responses|
    ensures Grew(before, b'.(responses := b'.responses[i := b'.responses[i].(results := results)]), 1)
  {
  }

  // ----- A whole request -----

  datatype Resolution = Resolved(data: Recorded) | AddressError | RequestError

  const EMPTY := Book([], [], false)

  predicate IsCross(route: Route) {
    route.sender != route.receiver
  }

  /** How many responses answer the request itself: one, or two when it crosses shards. */
  function Roots(route: Route): nat {
    if IsCross(route) then 2 else 1
  }

  function Wrap(x: int): Uint64 {
    x % TWO_64
  }

  lemma WrapAdd(a: int, b: int)
    ensures Wrap(Wrap(a) + Wrap(b)) == Wrap(a + b)
    ensures Wrap(Wrap(a) + b) == Wrap(a + b)
  {
  }

  lemma WrapSmall(x: Uint64)
    ensures Wrap(x) == x
  {
  }

  /** Whether a response reports an operation that the estimation does not support. */
  predicate Unsupported(txSender: string, r: Recorded) {
    r.tooMuchGas || exists k :: k in r.results && r.results[k].scr.isRefund && r.results[k].scr.receiver == txSender
  }

  ghost predicate CleanRequest(shardOf: ShardOf, route: Route, source: Answer, destination: Answer) {
    && destination.Answered? && Clean(shardOf, route, destination.response)
    && (IsCross(route) ==> source.Answered? && Clean(shardOf, route, source.response))
  }

  ghost function RequestTotal(what: Measure, shardOf: ShardOf, route: Route, source: Answer, destination: Answer): int
    requires CleanRequest(shardOf, route, source, destination)
  {
    Total(what, shardOf, route, destination.response) +
    if IsCross(route) then Total(what, shardOf, route, source.response) else 0
  }

  /** All response costs but the source shard's own, less all gas limits of executed results. */
  ghost function ExpectedCost(shardOf: ShardOf, route: Route, source: Answer, destination: Answer): int
    requires CleanRequest(shardOf, route, source, destination)
  {
    RequestTotal(Costs, shardOf, route, source, destination)
    - (if IsCross(route) then source.response.cost else 0)
    - RequestTotal(GasLimits, shardOf, route, source, destination)
  }

  /** Nothing was executed and the source shard reports an unsupported operation. */
  ghost predicate SourceRefuses(shardOf: ShardOf, route: Route, txSender: string, source: Answer, destination: Answer)
    requires CleanRequest(shardOf, route, source, destination)
  {
    && IsCross(route)
    && RequestTotal(Executions, shardOf, route, source, destination) == 0
    && Unsupported(txSender, Record(source.response))
  }

  /** The source shard's message ends the request early. */
  predicate StopsAtSource(route: Route, source: Answer) {
    IsCross(route) && source.Answered? && source.response.retMessage != ""
  }

  /** The request comes back with a response: the source shard's message, or what the destination says. */
  predicate GetsAnswer(route: Route, source: Answer, destination: Answer) {
    StopsAtSource(route, source) || (destination.Answered? && (IsCross(route) ==> source.Answered?))
  }

  /** The response handed out when nothing that was executed answered: the destination's, unless the source
      shard reports an unsupported operation. */
  predicate HandedOut(route: Route, txSender: string, source: Answer, destination: Answer, data: Recorded)
    requires GetsAnswer(route, source, destination) && !StopsAtSource(route, source)
  {
    if IsCross(route) && Unsupported(txSender, Record(source.response)) then IsRecordOf(source.response, data)
    else IsRecordOf(destination.response, data)
  }

  /** What the requests leave behind: `res` is where the response to hand out is recorded. */
  ghost predicate Requested(shardOf: ShardOf, route: Route, source: Answer, destination: Answer, b: Book, res: nat) {
    if StopsAtSource(route, source) then
      |b.responses| == 1 && res == 0 && IsRecordOf(source.response, b.responses[0])
    else
      && destination.Answered? && (IsCross(route) ==> source.Answered?)
      && Grew(EMPTY, b, Roots(route))
      && Roots(route) <= |b.responses|
      && res < |b.responses|
      && IsRecordOf(destination.response, b.responses[res])
      && (IsCross(route) ==> IsRecordOf(source.response, b.responses[0]))
      && (|b.responses| == Roots(route) ==>
            && res == |b.responses| - 1
            && (IsCross(route) ==> Untouched(source.response, b.responses[0].results)))
      && (CleanRequest(shardOf, route, source, destination) ==>
            Added(EMPTY, b, Roots(route), RequestTotal(Costs, shardOf, route, source, destination),
                  RequestTotal(GasLimits, shardOf, route, source, destination),
                  RequestTotal(Executions, shardOf, route, source, destination)))
  }

  predicate IsRecordOf(r: Response, recorded: Recorded) {
    recorded == Record(r).(results := recorded.results)
  }

  lemma RequestedBoth(shardOf: ShardOf, route: Route, source: Answer, destination: Response, middle: Book, b: Book)
    requires if IsCross(route)
             then
                && source.Answered? && source.response.retMessage == ""
                && Processed(shardOf, route, source.response, EMPTY, middle)
             else middle == EMPTY
    requires Processed(shardOf, route, destination, middle, b)
    ensures Requested(shardOf, route, source, Answered(destination), b, |middle.responses|)
  {
    if IsCross(route) {
      assert b.responses[0] == middle.responses[0];
      if CleanRequest(shardOf, route, source, Answered(destination)) {
        AddedThen(EMPTY, middle, b, 1, 1,
                  Total(Costs, shardOf, route, source.response), Total(GasLimits, shardOf, route, source.response),
                  Total(Executions, shardOf, route, source.response),
                  Total(Costs, shardOf, route, destination), Total(GasLimits, shardOf, route, destination),
                  Total(Executions, shardOf, route, destination));
      }
    }
  }

  /** The sum of the first `n` differences, as an integer. */
  ghost function Differences(extra: nat, b: Book, n: nat): int
    requires extra + n <= |b.responses| && n <= |b.scrs|
  {
    Sum(CostsOf(b.responses)[extra..extra + n]) - Sum(GasOf(b.scrs)[..n])
  }

  lemma NextDifference(extra: nat, b: Book, n: nat)
    requires extra + n < |b.responses| && n < |b.scrs|
    ensures Differences(extra, b, n + 1) ==
            Differences(extra, b, n) + b.responses[extra + n].cost - b.scrs[n].gasLimit
  {
    var costs, gas := CostsOf(b.responses), GasOf(b.scrs);
    SumSnoc(costs[extra..extra + n], costs[extra + n]);
    SumSnoc(gas[..n], gas[n]);
    assert costs[extra..extra + n + 1] == costs[extra..extra + n] + [costs[extra + n]];
    assert gas[..n + 1] == gas[..n] + [gas[n]];
  }

  lemma NextWrappedDifference(extra: nat, b: Book, n: nat, gasUsed: Uint64)
    requires extra + n < |b.responses| && n < |b.scrs|
    requires gasUsed == Wrap(Differences(extra, b, n))
    ensures Wrap(gasUsed + Wrap(b.responses[extra + n].cost - b.scrs[n].gasLimit)) == Wrap(Differences(extra, b, n + 1))
  {
    NextDifference(extra, b, n);
    WrapAdd(Differences(extra, b, n), b.responses[extra + n].cost - b.scrs[n].gasLimit);
  }

  /** What the final loop adds up, before wrapping. */
  ghost function GasSum(extra: nat, b: Book): int
    requires 1 + extra <= |b.responses| <= 1 + extra + |b.scrs|
  {
    Differences(extra, b, |b.responses| - 1 - extra) + b.responses[|b.responses| - 1].cost
  }

  lemma {:induction false} SumFirst(xs: seq<int>)
    requires xs != []
    ensures Sum(xs) == xs[0] + Sum(xs[1..])
  {
    var n := |xs| - 1;
    if n > 0 {
      SumFirst(xs[..n]);
      assert xs[1..][..n - 1] == xs[..n][1..];
    }
  }

  lemma GasSumOfOne(extra: nat, b: Book)
    requires |b.responses| == 1 + extra
    ensures GasSum(extra, b) == b.responses[extra].cost
  {
    assert CostsOf(b.responses)[extra..extra] == [] && GasOf(b.scrs)[..0] == [];
  }

  /** A sum, with its first term, if that is to be left out, and its last one apart. */
  lemma SumApart(xs: seq<int>, extra: nat)
    requires extra <= 1 && extra < |xs|
    ensures Sum(xs) == (if extra == 1 then xs[0] else 0) + Sum(xs[extra..|xs| - 1]) + xs[|xs| - 1]
  {
    var init := xs[..|xs| - 1];
    assert xs[extra..|xs| - 1] == init[extra..];
    if extra == 1 {
      SumFirst(init);
    } else {
      assert init[0..] == init;
    }
  }

  /** When every result put up for execution was answered, all lists are used up. */
  lemma GasSumOfAll(extra: nat, b: Book)
    requires extra <= 1 && |b.responses| == 1 + extra + |b.scrs|
    ensures GasSum(extra, b) ==
            Sum(CostsOf(b.responses)) - (if extra == 1 then b.responses[0].cost else 0) - Sum(GasOf(b.scrs))
  {
    var n := |b.responses| - 1;
    SumApart(CostsOf(b.responses), extra);
    assert GasOf(b.scrs)[..n - extra] == GasOf(b.scrs);
  }

  /** On clean answers the pairwise differences add up to the difference of the totals. */
  lemma GasSumIsExpected(shardOf: ShardOf, route: Route, source: Answer, destination: Answer, b: Book, res: nat)
    requires CleanRequest(shardOf, route, source, destination) && Requested(shardOf, route, source, destination, b, res)
    ensures |b.responses| == Roots(route) + |b.scrs|
    ensures GasSum(Roots(route) - 1, b) == ExpectedCost(shardOf, route, source, destination)
  {
    AddedToNothing(b, Roots(route), RequestTotal(Costs, shardOf, route, source, destination),
                   RequestTotal(GasLimits, shardOf, route, source, destination),
                   RequestTotal(Executions, shardOf, route, source, destination));
    GasSumOfAll(Roots(route) - 1, b);
  }

  lemma AddedToNothing(b: Book, roots: nat, costs: int, gas: int, executions: int)
    requires Added(EMPTY, b, roots, costs, gas, executions)
    ensures Sum(CostsOf(b.responses)) == costs && Sum(GasOf(b.scrs)) == gas
    ensures |b.scrs| == executions && |b.responses| == roots + executions && Silent(b.responses)
  {
    assert CostsOf([]) == [] && GasOf([]) == [];
  }

  /** What a clean request must resolve to. */
  ghost predicate CorrectCost(shardOf: ShardOf, route: Route, txSender: string, source: Answer, destination: Answer,
                              data: Recorded) {
    CleanRequest(shardOf, route, source, destination) ==>
      && data.retMessage == ""
      && data.cost == if SourceRefuses(shardOf, route, txSender, source, destination) then source.response.cost
                      else Wrap(ExpectedCost(shardOf, route, source, destination))
  }

  /** Which response is handed out, and with which message: the source shard's own message ends the request; a
      longer exchange gives the first message of any response in place of the cost. */
  predicate CorrectMessage(route: Route, txSender: string, source: Answer, destination: Answer,
                           responses: seq<Recorded>, data: Recorded)
    requires GetsAnswer(route, source, destination)
  {
    if StopsAtSource(route, source) then IsRecordOf(source.response, data)
    else if |responses| <= Roots(route) then HandedOut(route, txSender, source, destination, data)
    else
      && IsRecordOf(destination.response, data.(cost := destination.response.cost,
                                               retMessage := destination.response.retMessage))
      && data.retMessage == FirstMessage(responses)
      && (data.retMessage != "" ==> data.cost == 0)
  }

  /** Giving a response the first message leaves that message the first. */
  lemma {:induction false} FirstMessageStays(rs: seq<Recorded>, i: nat, r: Recorded)
    requires i < |rs| && r.retMessage == FirstMessage(rs)
    ensures FirstMessage(rs[i := r]) == FirstMessage(rs)
  {
    var rs' := rs[i := r];
    if i == 0 {
      assert rs'[1..] == rs[1..];
    } else {
      assert rs'[1..] == rs[1..][i - 1 := r];
      if rs[0].retMessage == "" {
        FirstMessageStays(rs[1..], i - 1, r);
      }
    }
  }

  /** Without executions the expected cost is the destination's own. */
  lemma NothingExecuted(shardOf: ShardOf, route: Route, source: Answer, destination: Answer, b: Book, res: nat)
    requires CleanRequest(shardOf, route, source, destination) && Requested(shardOf, route, source, destination, b, res)
    requires |b.responses| <= Roots(route)
    ensures |b.responses| == Roots(route) && Silent(b.responses)
    ensures RequestTotal(Executions, shardOf, route, source, destination) == 0
    ensures ExpectedCost(shardOf, route, source, destination) == b.responses[|b.responses| - 1].cost
  {
    GasSumIsExpected(shardOf, route, source, destination, b, res);
    AddedToNothing(b, Roots(route), RequestTotal(Costs, shardOf, route, source, destination),
                   RequestTotal(GasLimits, shardOf, route, source, destination),
                   RequestTotal(Executions, shardOf, route, source, destination));
    GasSumOfOne(Roots(route) - 1, b);
  }

  /** A response into which nothing was merged is as unsupported as it was when it came. */
  lemma UntouchedUnsupported(txSender: string, r: Response, recorded: Recorded)
    requires IsRecordOf(r, recorded) && Untouched(r, recorded.results)
    ensures Unsupported(txSender, Record(r)) <==> Unsupported(txSender, recorded)
  {
    var original := Record(r).results;
    assert forall k :: k in original <==> k in recorded.results;
    assert forall k :: k in original ==> original[k].scr == recorded.results[k].scr;
  }

  lemma ShortExchange(shardOf: ShardOf, route: Route, txSender: string, source: Answer, destination: Answer,
                      b: Book, res: nat, chosen: nat)
    requires Requested(shardOf, route, source, destination, b, res)
    requires 1 <= |b.responses| <= Roots(route) && res == |b.responses| - 1
    requires chosen == if |b.responses| == 2 && Unsupported(txSender, b.responses[0]) then 0 else res
    ensures CorrectCost(shardOf, route, txSender, source, destination, b.responses[chosen])
    ensures CorrectMessage(route, txSender, source, destination, b.responses, b.responses[chosen])
  {
    if !StopsAtSource(route, source) && IsCross(route) {
      UntouchedUnsupported(txSender, source.response, b.responses[0]);
    }
    if CleanRequest(shardOf, route, source, destination) {
      NothingExecuted(shardOf, route, source, destination, b, res);
      WrapSmall(b.responses[res].cost);
      if IsCross(route) {
        UntouchedUnsupported(txSender, source.response, b.responses[0]);
      }
    }
  }

  lemma LongExchange(shardOf: ShardOf, route: Route, txSender: string, source: Answer, destination: Answer,
                     b: Book, res: nat, data: Recorded)
    requires Requested(shardOf, route, source, destination, b, res)
    requires Roots(route) < |b.responses| <= Roots(route) + |b.scrs| && res < |b.responses|
    requires Silent(b.responses) ==> data == b.responses[res].(cost := Wrap(GasSum(Roots(route) - 1, b)))
    ensures CorrectCost(shardOf, route, txSender, source, destination, data)
  {
    if CleanRequest(shardOf, route, source, destination) {
      GasSumIsExpected(shardOf, route, source, destination, b, res);
      AddedToNothing(b, Roots(route), RequestTotal(Costs, shardOf, route, source, destination),
                     RequestTotal(GasLimits, shardOf, route, source, destination),
                     RequestTotal(Executions, shardOf, route, source, destination));
    }
  }

  // ----- Costs, without totals -----

  ghost predicate NoneExecuted(shardOf: ShardOf, route: Route, r: Response, keys: set<string>)
    requires keys <= r.results.Keys
  {
    forall k :: k in keys ==> !IsExecuted(shardOf, route, r.results[k])
  }

  lemma {:induction false} NothingAdded(what: Measure, shardOf: ShardOf, route: Route, r: Response, keys: set<string>)
    requires keys <= r.results.Keys && NoneExecuted(shardOf, route, r, keys)
    ensures TotalOver(what, shardOf, route, r, keys) == 0
    decreases keys
  {
    if keys != {} {
      var k :| k in keys;
      TotalOverTake(what, shardOf, route, r, keys, k);
      NothingAdded(what, shardOf, route, r, keys - {k});
    }
  }

  /** Nothing is executed below a response without a message all of whose results stay where it was given. */
  lemma Staying(shardOf: ShardOf, route: Route, r: Response)
    requires r.retMessage == ""
    requires forall k :: k in r.results ==> shardOf(r.results[k].receiver) == Some(route.receiver)
    ensures Clean(shardOf, route, r) && AllHashes(shardOf, route, r) == r.results.Keys
    ensures Total(Costs, shardOf, route, r) == r.cost
    ensures Total(GasLimits, shardOf, route, r) == Total(Executions, shardOf, route, r) == 0
  {
    forall k | k in r.results ensures !IsExecuted(shardOf, route, r.results[k]) {
      ExecutedInFull(shardOf, route, r.results[k]);
    }
    NothingAdded(Costs, shardOf, route, r, r.results.Keys);
    NothingAdded(GasLimits, shardOf, route, r, r.results.Keys);
    NothingAdded(Executions, shardOf, route, r, r.results.Keys);
  }

  /** When no result leaves the destination shard, the cost is the destination's own, unless the source shard reports
      an operation that is not supported. */
  lemma StayingCost(shardOf: ShardOf, route: Route, txSender: string, source: Answer, destination: Answer,
                    data: Recorded)
    requires CorrectCost(shardOf, route, txSender, source, destination, data)
    requires destination.Answered? && destination.response.retMessage == ""
    requires forall k :: k in destination.response.results ==>
               shardOf(destination.response.results[k].receiver) == Some(route.receiver)
    requires route.sender != route.receiver ==>
               && source.Answered? && source.response.retMessage == ""
               && forall k :: k in source.response.results ==>
                    shardOf(source.response.results[k].receiver) == Some(route.receiver)
    ensures var unsupported := route.sender != route.receiver
                               && (|| source.response.tooMuchGas
                                   || exists k :: k in source.response.results && source.response.results[k].isRefund
                                                  && source.response.results[k].receiver == txSender);
            && data.retMessage == ""
            && data.cost == if unsupported then source.response.cost else destination.response.cost
  {
    Staying(shardOf, route, destination.response);
    if route.sender != route.receiver {
      Staying(shardOf, route, source.response);
      RecordedUnsupported(txSender, source.response);
    }
    WrapSmall(destination.response.cost);
  }

  /** When one result leaves the destination shard, and all results of executing it stay in its own, the cost is the
      destination's and that of the execution, less its gas limit, modulo 2^64. */
  lemma OneExecutionCost(shardOf: ShardOf, route: Route, txSender: string, source: Answer, destination: Answer,
                         data: Recorded, k: string)
    requires CorrectCost(shardOf, route, txSender, source, destination, data)
    requires destination.Answered? && destination.response.retMessage == "" && k in destination.response.results
    requires forall k' :: k' in destination.response.results && k' != k ==>
               shardOf(destination.response.results[k'].receiver) == Some(route.receiver)
    requires var scr := destination.response.results[k];
             && shardOf(scr.sender).Some? && shardOf(scr.receiver).Some?
             && shardOf(scr.receiver) != Some(route.receiver)
             && (shardOf(scr.receiver) == Some(route.sender) ==> !scr.directCall)
             && shardOf(scr.sender) != Some(0xFFFF_FFFF)
             && (scr.functionName == "" ==> !scr.hasTokens)
             && scr.convertible
             && scr.answer.Answered? && scr.answer.response.retMessage == ""
             && scr.answer.response.results.Keys !! destination.response.results.Keys
             && forall j :: j in scr.answer.response.results ==>
                  shardOf(scr.answer.response.results[j].receiver) == shardOf(scr.receiver)
    requires route.sender != route.receiver ==>
               && source.Answered? && source.response.retMessage == ""
               && forall j :: j in source.response.results ==>
                    shardOf(source.response.results[j].receiver) == Some(route.receiver)
    ensures var scr := destination.response.results[k];
            && data.retMessage == ""
            && data.cost == (destination.response.cost + scr.answer.response.cost - scr.gasLimit)
                            % 0x1_0000_0000_0000_0000
  {
    OneExecutionClean(shardOf, route, destination.response, k);
    OneExecutionTotal(Costs, shardOf, route, destination.response, k);
    OneExecutionTotal(GasLimits, shardOf, route, destination.response, k);
    OneExecutionTotal(Executions, shardOf, route, destination.response, k);
    if route.sender != route.receiver {
      Staying(shardOf, route, source.response);
    }
  }

  /** One result leaves the shard that answered, and the results of executing it stay in its own. */
  ghost predicate OneLeaves(shardOf: ShardOf, route: Route, r: Response, k: string) {
    && r.retMessage == "" && k in r.results && IsExecuted(shardOf, route, r.results[k])
    && (forall k' :: k' in r.results && k' != k ==> shardOf(r.results[k'].receiver) == Some(route.receiver))
    && var scr := r.results[k];
    && scr.answer.Answered? && scr.answer.response.retMessage == ""
    && scr.answer.response.results.Keys !! r.results.Keys
    && forall j :: j in scr.answer.response.results ==>
         shardOf(scr.answer.response.results[j].receiver) == shardOf(scr.receiver)
  }

  lemma OneExecutionClean(shardOf: ShardOf, route: Route, r: Response, k: string)
    requires OneLeaves(shardOf, route, r, k)
    ensures Clean(shardOf, route, r)
  {
    Staying(shardOf, OwnRoute(shardOf, r.results[k]), r.results[k].answer.response);
    OthersStay(shardOf, route, r, k);
    forall k' | k' in r.results
      ensures CleanResult(shardOf, route, r.results[k']) && HashesOf(shardOf, route, r.results[k']) !! r.results.Keys
    {
      if k' != k {
        assert k' in r.results.Keys - {k};
      }
    }
  }

  lemma OneExecutionTotal(what: Measure, shardOf: ShardOf, route: Route, r: Response, k: string)
    requires OneLeaves(shardOf, route, r, k)
    ensures Total(what, shardOf, route, r) ==
            match what
            case Costs => r.cost + r.results[k].answer.response.cost
            case GasLimits => r.results[k].gasLimit
            case Executions => 1
  {
    Staying(shardOf, OwnRoute(shardOf, r.results[k]), r.results[k].answer.response);
    OthersStay(shardOf, route, r, k);
    TotalOverTake(what, shardOf, route, r, r.results.Keys, k);
    NothingAdded(what, shardOf, route, r, r.results.Keys - {k});
  }

  lemma OthersStay(shardOf: ShardOf, route: Route, r: Response, k: string)
    requires forall k' :: k' in r.results && k' != k ==> shardOf(r.results[k'].receiver) == Some(route.receiver)
    ensures NoneExecuted(shardOf, route, r, r.results.Keys - {k})
  {
    forall k' | k' in r.results && k' != k ensures !IsExecuted(shardOf, route, r.results[k']) {
      ExecutedInFull(shardOf, route, r.results[k']);
    }
  }

  /** What a resolved request gives in the two simple cases: a message of the source shard, and results that stay. */
  lemma ResolvedInFull(shardOf: ShardOf, route: Route, txSender: string, source: Answer, destination: Answer,
                       responses: seq<Recorded>, data: Recorded)
    requires GetsAnswer(route, source, destination)
    requires CorrectCost(shardOf, route, txSender, source, destination, data)
    requires CorrectMessage(route, txSender, source, destination, responses, data)
    ensures route.sender != route.receiver && source.response.retMessage != "" ==>
              data.retMessage == source.response.retMessage && data.cost == source.response.cost
    ensures && destination.Answered? && destination.response.retMessage == ""
            && (forall k :: k in destination.response.results ==>
                  shardOf(destination.response.results[k].receiver) == Some(route.receiver))
            && (route.sender != route.receiver ==>
                  && source.response.retMessage == "" && !source.response.tooMuchGas
                  && forall k :: k in source.response.results ==>
                       && shardOf(source.response.results[k].receiver) == Some(route.receiver)
                       && !(source.response.results[k].isRefund && source.response.results[k].receiver == txSender))
            ==> data.retMessage == "" && data.cost == destination.response.cost
  {
    if && destination.Answered? && destination.response.retMessage == ""
       && (forall k :: k in destination.response.results ==>
             shardOf(destination.response.results[k].receiver) == Some(route.receiver))
       && (route.sender != route.receiver ==>
             && source.response.retMessage == "" && !source.response.tooMuchGas
             && forall k :: k in source.response.results ==>
                  && shardOf(source.response.results[k].receiver) == Some(route.receiver)
                  && !(source.response.results[k].isRefund && source.response.results[k].receiver == txSender))
    {
      StayingCost(shardOf, route, txSender, source, destination, data);
    }
  }

  lemma RecordedUnsupported(txSender: string, r: Response)
    ensures Unsupported(txSender, Record(r)) <==>
            r.tooMuchGas || exists k :: k in r.results && r.results[k].isRefund && r.results[k].receiver == txSender
  {
    var recorded := Record(r).results;
    assert forall k :: k in r.results <==> k in recorded;
    assert forall k :: k in r.results ==> recorded[k].scr == r.results[k];
  }

  class TransactionCostProcessor {
    const shardOf: ShardOf
    var responses: seq<Recorded>
    var scrsToExecute: seq<ScResult>
    var hasExecutedScr: bool

    ghost function View(): Book
      reads this
    {
      Book(responses, scrsToExecute, hasExecutedScr)
    }

    constructor (shardOf: ShardOf)
      ensures this.shardOf == shardOf && View() == Book([], [], false)
    {
      this.shardOf := shardOf;
      responses, scrsToExecute, hasExecutedScr := [], [], false;
    }

    /** Records a response and executes its results; returns the index it is recorded at. */
    method ProcessResponse(route: Route, r: Response) returns (index: nat)
      modifies this
      ensures index == |old(responses)|
      ensures Processed(shardOf, route, r, old(View()), View())
      decreases r, 2
    {
      ghost var before := View();
      WalkStarts(shardOf, route, r, before);
      index := |responses|;
      responses := responses + [Record(r)];
      if |r.results| == 0 || r.retMessage != "" {
        WalkEnds(shardOf, route, r, before, View(), responses[index].results);
        return;
      }
      WalkResults(route, r, before, index, responses[index].results);
    }

    method WalkResults(route: Route, r: Response, ghost before: Book, index: nat, initial: map<string, Entry>)
      requires Walked(shardOf, route, r, initial) && Walking(shardOf, route, r, before, View(), initial)
      requires initial.Keys == r.results.Keys && index == |before.responses| && r.retMessage == ""
      modifies this
      ensures Processed(shardOf, route, r, before, View())
      decreases r, 1
    {
      var results, pending := initial, initial.Keys;
      while pending != {}
        invariant Walked(shardOf, route, r, results) && Walking(shardOf, route, r, before, View(), results)
        invariant Unused(results) <= pending <= results.Keys
        decreases Unused(results), pending
      {
        var k :| k in pending;
        pending := pending - {k};
        if !results[k].used {
          var visited := Visit(route, r, before, index, results, k);
          // An entry inserted during the walk may or may not be reached by it.
          var reached :| reached <= visited.Keys - results.Keys;
          pending, results := pending + reached, visited;
        }
      }
      WalkEnds(shardOf, route, r, before, View(), results);
    }

    /** Processes one unused result of the response being walked and merges in what comes back. */
    method Visit(route: Route, r: Response, ghost before: Book, index: nat,
                 results: map<string, Entry>, k: string)
      returns (visited: map<string, Entry>)
      requires Walked(shardOf, route, r, results) && Walking(shardOf, route, r, before, View(), results)
      requires k in Unused(results) && index == |before.responses|
      modifies this
      ensures Walked(shardOf, route, r, visited) && Walking(shardOf, route, r, before, View(), visited)
      ensures results.Keys <= visited.Keys && Unused(visited) <= Unused(results) - {k}
      decreases r, 0
    {
      ghost var b := View();
      assert results[k].scr == r.results[k];
      var answer := ProcessScResult(route, results[k].scr);
      var back := if answer.Some? then Some(responses[answer.value].results) else None;
      WalkGoesOn(shardOf, route, r, before, b, View(), results, k, back);
      VisitedIsWalked(shardOf, route, r, results, k, back);
      visited := Visited(results, k, back);
      WriteResults(index, visited);
    }

    method WriteResults(index: nat, results: map<string, Entry>)
      requires index < |responses|
      modifies this`responses
      ensures responses == old(responses)[index := old(responses)[index].(results := results)]
    {
      responses := responses[index := responses[index].(results := results)];
    }

    /** Executes one result on its own shard, unless it is to be skipped or cannot be executed; returns the
        index its response is recorded at. */
    method ProcessScResult(route: Route, scr: ScResult) returns (answer: Option<nat>)
      modifies this
      ensures Grew(old(View()), View(), 0)
      ensures answer.Some? <==> |responses| > |old(responses)|
      ensures answer.Some? ==>
        && answer.value == |old(responses)|
        && responses[answer.value].results.Keys <= HashesOf(shardOf, route, scr)
      ensures CleanResult(shardOf, route, scr) ==>
        Added(old(View()), View(), 0, TotalOf(Costs, shardOf, route, scr), TotalOf(GasLimits, shardOf, route, scr),
              TotalOf(Executions, shardOf, route, scr))
      ensures if && shardOf(scr.sender).Some? && shardOf(scr.receiver).Some?
                 && shardOf(scr.receiver) != Some(route.receiver)
                 && (shardOf(scr.receiver) == Some(route.sender) ==> !scr.directCall)
                 && shardOf(scr.sender) != Some(0xFFFF_FFFF)
                 && (scr.functionName == "" ==> !scr.hasTokens)
                 && scr.convertible
              then
                && |old(scrsToExecute)| < |scrsToExecute| && scrsToExecute[|old(scrsToExecute)|] == scr
                && (answer.Some? <==> scr.answer.Answered?)
                && (answer.Some? ==> responses[answer.value] ==
                                     Record(scr.answer.response).(results := responses[answer.value].results))
              else answer.None? && View() == old(View())
      decreases scr
    {
      var own := RouteOf(shardOf, scr.sender, scr.receiver);
      if own.None? || ShouldIgnore(route, own.value, scr) || !scr.convertible {
        return None;
      }
      AddScr(View(), scr);
      scrsToExecute := scrsToExecute + [scr];
      if !scr.answer.Answered? {
        return None;
      }
      var index := ProcessResponse(own.value, scr.answer.response);
      hasExecutedScr := true;
      return Some(index);
    }

    /** `doCostRequests`, on a fresh processor: the source shard first when it is another one, then the
        destination. Returns the index of the response to hand out. */
    method DoCostRequests(route: Route, source: Answer, destination: Answer) returns (result: Option<nat>)
      requires View() == EMPTY
      modifies this
      ensures result.Some? ==> Requested(shardOf, route, source, destination, View(), result.value)
      ensures result.Some? <==> GetsAnswer(route, source, destination)
    {
      if route.sender != route.receiver && |responses| == 0 {
        if !source.Answered? {
          return None;
        }
        var i := ProcessResponse(route, source.response);
        if responses[i].retMessage != "" {
          return Some(i);
        }
      }
      if !destination.Answered? {
        return None;
      }
      ghost var middle := View();
      var i := ProcessResponse(route, destination.response);
      RequestedBoth(shardOf, route, source, destination.response, middle, View());
      return Some(i);
    }

    /** Adds up the gas: every difference and every sum wraps at 64 bits. */
    method ComputeResponsesGasUsed(extra: nat, res: nat)
      requires extra <= 1 && 1 + extra <= |responses| <= 1 + extra + |scrsToExecute| && res < |responses|
      modifies this`responses
      ensures responses == old(responses)[res := old(responses)[res].(cost := Wrap(GasSum(extra, old(View()))))]
    {
      var numResponses := |responses|;
      var to := numResponses - 1 - extra;
      var gasUsed: Uint64 := 0;
      assert CostsOf(responses)[extra..extra] == [] && GasOf(scrsToExecute)[..0] == [];
      for idx := 0 to to
        invariant responses == old(responses)
        invariant gasUsed == Wrap(Differences(extra, View(), idx))
      {
        if numResponses - 1 < idx + extra || |scrsToExecute| - 1 < idx {
          assert false; // "something went wrong" cannot be reached
        }
        var diff := Wrap(responses[idx + extra].cost - scrsToExecute[idx].gasLimit);
        NextWrappedDifference(extra, View(), idx, gasUsed);
        gasUsed := Wrap(gasUsed + diff);
      }
      var gasForLastResponse := responses[numResponses - 1].cost;
      WrapAdd(Differences(extra, View(), to), gasForLastResponse);
      responses := responses[res := responses[res].(cost := Wrap(gasUsed + gasForLastResponse))];
    }

    /** `extractCorrectResponse`. */
    method ExtractCorrectResponse(txSender: string, current: nat) returns (chosen: nat)
      requires 1 <= |responses| <= 2 && current == |responses| - 1
      ensures chosen == if |responses| == 2 && Unsupported(txSender, responses[0]) then 0 else current
    {
      if |responses| == 1 {
        return current;
      }
      for i := 0 to |responses|
        invariant forall j :: 0 <= j < i ==> !Unsupported(txSender, responses[j])
      {
        if Unsupported(txSender, responses[i]) {
          return i;
        }
      }
      return current;
    }

    /** Resolves a cost request on a fresh processor. When all answers are clean, the cost is the total of
        all response costs but the source shard's own, less the gas limits of all results executed, modulo
        2^64, and so exact whenever that fits; the one exception is an unsupported operation reported by
        the source shard when nothing was executed. A return message on any response of a longer exchange
        takes the place of the cost. */
    method ResolveCostRequest(sender: string, receiver: string, source: Answer, destination: Answer)
      returns (r: Resolution)
      requires View() == EMPTY
      modifies this
      ensures r.AddressError? <==> RouteOf(shardOf, sender, receiver).None?
      ensures !r.AddressError? ==>
        var route := RouteOf(shardOf, sender, receiver).value;
        && (r.Resolved? <==> GetsAnswer(route, source, destination))
        && (r.Resolved? ==> CorrectCost(shardOf, route, sender, source, destination, r.data))
        && (r.Resolved? ==> CorrectMessage(route, sender, source, destination, responses, r.data))
      ensures r.Resolved? <==>
        && shardOf(sender).Some? && shardOf(receiver).Some?
        && if shardOf(sender) == shardOf(receiver) then destination.Answered?
           else source.Answered? && (source.response.retMessage != "" || destination.Answered?)
      // A message of the source shard ends the request.
      ensures r.Resolved? && shardOf(sender) != shardOf(receiver) && source.response.retMessage != "" ==>
        r.data.retMessage == source.response.retMessage && r.data.cost == source.response.cost
      // When no result leaves the destination shard and the source shard objects to nothing, the destination's cost.
      ensures
        && shardOf(sender).Some? && shardOf(receiver).Some?
        && destination.Answered? && destination.response.retMessage == ""
        && (forall k :: k in destination.response.results ==>
              shardOf(destination.response.results[k].receiver) == shardOf(receiver))
        && (shardOf(sender) != shardOf(receiver) ==>
              && source.Answered? && source.response.retMessage == "" && !source.response.tooMuchGas
              && forall k :: k in source.response.results ==>
                   && shardOf(source.response.results[k].receiver) == shardOf(receiver)
                   && !(source.response.results[k].isRefund && source.response.results[k].receiver == sender))
        ==> r.Resolved? && r.data.retMessage == "" && r.data.cost == destination.response.cost
    {
      var route := RouteOf(shardOf, sender, receiver);
      if route.None? {
        return AddressError;
      }
      r := ResolveOnRoute(route.value, sender, source, destination);
      if r.Resolved? {
        ResolvedInFull(shardOf, route.value, sender, source, destination, responses, r.data);
      }
    }

    /** The request between two shards. */
    method ResolveOnRoute(route: Route, sender: string, source: Answer, destination: Answer) returns (r: Resolution)
      requires View() == EMPTY
      modifies this
      ensures !r.AddressError?
      ensures r.Resolved? <==> GetsAnswer(route, source, destination)
      ensures r.Resolved? ==> CorrectCost(shardOf, route, sender, source, destination, r.data)
      ensures r.Resolved? ==> CorrectMessage(route, sender, source, destination, responses, r.data)
    {
      var res := DoCostRequests(route, source, destination);
      if res.None? {
        return RequestError;
      }
      var isCross := route.sender != route.receiver;
      var shouldReturn := |responses| == 1 || (|responses| == 2 && isCross);
      if shouldReturn {
        var chosen := ExtractCorrectResponse(sender, res.value);
        ShortExchange(shardOf, route, sender, source, destination, View(), res.value, chosen);
        return Resolved(responses[chosen]);
      }
      ghost var b := View();
      var data := PostProcess(sender, if isCross then 1 else 0, res.value);
      LongExchange(shardOf, route, sender, source, destination, b, res.value, data);
      return Resolved(data);
    }

    /** The loop over all responses, and the sum when none carries a message. */
    method PostProcess(txSender: string, extra: nat, res: nat) returns (data: Recorded)
      requires extra <= 1 && 1 + extra < |responses| <= 1 + extra + |scrsToExecute| && res < |responses|
      requires hasExecutedScr
      modifies this`responses
      ensures |responses| == |old(responses)| && FirstMessage(responses) == FirstMessage(old(responses))
      ensures Silent(old(responses)) ==>
        data == old(responses)[res].(cost := Wrap(GasSum(extra, old(View()))))
      ensures !Silent(old(responses)) ==>
        data == old(responses)[res].(cost := 0, retMessage := FirstMessage(old(responses)))
    {
      for i := 0 to |responses|
        invariant responses == old(responses) && Silent(responses[..i])
        invariant FirstMessage(responses) == FirstMessage(responses[i..])
      {
        if Unsupported(txSender, responses[i]) && !hasExecutedScr {
          assert false; // some result has been executed by now
        }
        if responses[i].retMessage != "" {
          var message := responses[i].retMessage;
          FirstMessageStays(responses, res, responses[res].(retMessage := message, cost := 0));
          responses := responses[res := responses[res].(retMessage := message, cost := 0)];
          return responses[res];
        }
      }
      ComputeResponsesGasUsed(extra, res);
      return responses[res];
    }
  }
}
