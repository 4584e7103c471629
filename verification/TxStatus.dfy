/**
 The verdict on a processed transaction (computeTransactionStatus and its helpers in
 process/transactionProcessor.go). Asking the observers for one smart-contract result is an arbitrary
 function from its hash to an answer.
 */
module TxStatus {
  import opened Basics
  import opened ScResults
  import opened ScrCollection
  import Lookups = TxLookup

  /** The fields of a transaction, or of a result fetched as one, that the verdict reads. */
  datatype Transaction = Transaction(
    status: string,
    kind: string,
    value: string,
    returnMessage: string,
    processingOnSource: string,
    processingOnDestination: string,
    notarizedAtSource: Uint64,
    notarizedAtDestination: Uint64,
    sender: string,
    logs: Option<ApiLog>,
    results: seq<Scr>)

  /** What asking for a result gives: an error, no transaction without an error, or the transaction. */
  datatype Answer = Failed | Missing | Delivered(tx: Transaction)

  type Asking = string -> Answer

  datatype Verdict = Verdict(status: string, reason: string)

  const SUCCESS := "success"
  const FAIL := "fail"
  const PENDING := "pending"
  const INVALID := "invalid"
  const UNKNOWN := "unknown"

  const VM_ERRORS := "internalVMErrors"
  const SIGNAL_ERROR := "signalError"
  const COMPLETED := "completedTxEvent"
  const DEPLOYED := "SCDeploy"
  const REFUND := "gas refund for relayer"
  const UNSIGNED := "unsigned"

  const MOVE_BALANCE := "MoveBalance"
  const RELAYED_V1 := "RelayedTx"
  const RELAYED_V2 := "RelayedTxV2"
  const RELAYED_V3 := "RelayedTxV3"

  // ----- The helpers that only read -----

  predicate IsNotarized(tx: Transaction) {
    tx.notarizedAtSource > 0 && tx.notarizedAtDestination > 0
  }

  predicate IsProcessedAs(tx: Transaction, descriptor: string) {
    tx.processingOnSource == descriptor && tx.processingOnDestination == descriptor
  }

  predicate IsMoveBalanceNotarized(tx: Transaction) {
    IsNotarized(tx) && IsProcessedAs(tx, MOVE_BALANCE)
  }

  predicate IsRelayedV3Notarized(tx: Transaction) {
    IsNotarized(tx) && IsProcessedAs(tx, RELAYED_V3)
  }

  predicate IsRelayedNotarized(tx: Transaction) {
    IsNotarized(tx) && (IsProcessedAs(tx, RELAYED_V1) || IsProcessedAs(tx, RELAYED_V2))
  }

  predicate IsZeroValue(value: string) {
    value == "" || value == "0"
  }

  /** A return message on a transfer of nothing, other than the refund to a relayer. */
  predicate HasFailingMessage(tx: Transaction) {
    tx.returnMessage != "" && IsZeroValue(tx.value) && tx.returnMessage != REFUND
  }

  /** `findIdentifierInSingleLog`: the data of the first such event. */
  function FindInEvents(events: seq<Event>, identifier: string): (r: Option<string>)
    ensures r.Some? <==> exists e :: e in events && e.identifier == identifier
    ensures r.Some? ==> Event(identifier, r.value, "") in Stripped(events)
  {
    if events == [] then None
    else if events[0].identifier == identifier then Some(events[0].data)
    else FindInEvents(events[1..], identifier)
  }

  /** The events without the fields that play no part here. */
  function Stripped(events: seq<Event>): set<Event> {
    set e | e in events :: e.(rest := "")
  }

  /** `findIdentifierInLogs`, which skips absent logs. */
  function FindInLogs(logs: seq<Option<ApiLog>>, identifier: string): (r: Option<string>)
    ensures r.Some? <==> exists i :: 0 <= i < |logs| && Mentions(logs[i], identifier)
    ensures r.Some? ==> exists i :: 0 <= i < |logs| && logs[i].Some?
                                    && Event(identifier, r.value, "") in Stripped(logs[i].value.events)
  {
    if logs == [] then None
    else if logs[0].Some? && FindInEvents(logs[0].value.events, identifier).Some? then
      FindInEvents(logs[0].value.events, identifier)
    else FindInLogs(logs[1..], identifier)
  }

  predicate Mentions(log: Option<ApiLog>, identifier: string) {
    log.Some? && exists e :: e in log.value.events && e.identifier == identifier
  }

  predicate MentionsFailure(log: Option<ApiLog>) {
    Mentions(log, VM_ERRORS) || Mentions(log, SIGNAL_ERROR)
  }

  predicate MentionsCompletion(log: Option<ApiLog>) {
    Mentions(log, COMPLETED) || Mentions(log, DEPLOYED)
  }

  ghost predicate SomeLogFails(logs: seq<Option<ApiLog>>) {
    exists i :: 0 <= i < |logs| && MentionsFailure(logs[i])
  }

  ghost predicate SomeLogCompletes(logs: seq<Option<ApiLog>>) {
    exists i :: 0 <= i < |logs| && MentionsCompletion(logs[i])
  }

  /** `checkIfFailed`: the reason, if any; an internal error in any log comes before a signalled one. */
  function FailureIn(logs: seq<Option<ApiLog>>): (r: Option<string>)
    ensures r.Some? <==> SomeLogFails(logs)
  {
    if FindInLogs(logs, VM_ERRORS).Some? then FindInLogs(logs, VM_ERRORS) else FindInLogs(logs, SIGNAL_ERROR)
  }

  /** `checkIfCompleted`. */
  predicate CompletedIn(logs: seq<Option<ApiLog>>)
    ensures CompletedIn(logs) <==> SomeLogCompletes(logs)
  {
    FindInLogs(logs, COMPLETED).Some? || FindInLogs(logs, DEPLOYED).Some?
  }

  /** `isRelayedMoveBalanceTransaction`; `None` is its error. */
  function RelayedMoveBalance(tx: Transaction, scrs: seq<Transaction>): Option<bool> {
    if !IsRelayedNotarized(tx) then Some(false)
    else if scrs == [] then None
    else Some(IsProcessedAs(scrs[0], MOVE_BALANCE))
  }

  // ----- Gathering the results -----

  /** The transactions delivered for a list of results, in their order. */
  function DeliveredFor(ask: Asking, results: seq<Scr>): seq<Transaction> {
    if results == [] then []
    else
      var init, answer := DeliveredFor(ask, results[..|results| - 1]), ask(results[|results| - 1].hash);
      if answer.Delivered? then init + [answer.tx] else init
  }

  lemma DeliveredSnoc(ask: Asking, results: seq<Scr>, scr: Scr)
    ensures DeliveredFor(ask, []) == []
    ensures DeliveredFor(ask, results + [scr]) ==
            DeliveredFor(ask, results) + if ask(scr.hash).Delivered? then [ask(scr.hash).tx] else []
  {
    assert (results + [scr])[..|results|] == results;
  }

  /** The logs present: the transaction's own, then those of its results. */
  function LogsOf(txs: seq<Transaction>): seq<Option<ApiLog>> {
    if txs == [] then []
    else LogsOf(txs[..|txs| - 1]) + if txs[|txs| - 1].logs.Some? then [txs[|txs| - 1].logs] else []
  }

  lemma LogsSnoc(txs: seq<Transaction>, tx: Transaction)
    ensures LogsOf(txs + [tx]) == LogsOf(txs) + if tx.logs.Some? then [tx.logs] else []
  {
    assert (txs + [tx])[..|txs|] == txs;
  }

  /** `gatherAllLogsAndScrs`: all or nothing. */
  method GatherAllLogsAndScrs(tx: Transaction, ask: Asking)
    returns (ok: bool, logs: seq<Option<ApiLog>>, scrs: seq<Transaction>)
    ensures ok <==> !Shows(ask, tx.results, Unavailable)
    ensures ok ==> scrs == DeliveredFor(ask, tx.results) && logs == LogsOf([tx] + scrs)
  {
    logs, scrs := [], [];
    if tx.logs.Some? {
      logs := logs + [tx.logs];
    }
    ghost var before: seq<Scr> := [];
    ghost var txs := [tx];
    LogsOfOne(tx);
    for i := 0 to |tx.results|
      invariant before == tx.results[..i]
      invariant NoneFailed(ask, before)
      invariant scrs == DeliveredFor(ask, before)
      invariant txs == [tx] + scrs && logs == LogsOf(txs)
    {
      var scr := tx.results[i];
      var answer := ask(scr.hash);
      if answer.Failed? {
        assert scr.hash in Hashes(tx.results) && Says(ask(scr.hash), Unavailable);
        return false, [], [];
      }
      DeliveredSnoc(ask, before, scr);
      before := before + [scr];
      if answer.Delivered? {
        LogsSnoc(txs, answer.tx);
        txs := txs + [answer.tx];
        scrs := scrs + [answer.tx];
        if answer.tx.logs.Some? {
          logs := logs + [answer.tx.logs];
        }
      }
    }
    assert before == tx.results;
    ok := true;
  }

  lemma LogsOfOne(tx: Transaction)
    ensures LogsOf([tx]) == if tx.logs.Some? then [tx.logs] else []
  {
    LogsSnoc([], tx);
    assert [] + [tx] == [tx];
  }

  predicate NoneFailed(ask: Asking, results: seq<Scr>) {
    forall i :: 0 <= i < |results| ==> !ask(results[i].hash).Failed?
  }

  // ----- What the verdict means -----

  /** What may be seen in the answer for a result. */
  datatype Sign =
    | Unavailable
    | Present
    | InProgress
    | FailureLogged
    | FailingMessage
    | CompletionLogged
    | MovesBalance
    | Other

  predicate Says(answer: Answer, sign: Sign) {
    match sign
    case Unavailable => answer.Failed?
    case _ => answer.Delivered? && Bears(answer.tx, sign)
  }

  predicate Bears(tx: Transaction, sign: Sign) {
    match sign
    case Unavailable => false
    case Present => true
    case InProgress => tx.status == PENDING
    case FailureLogged => MentionsFailure(tx.logs)
    case FailingMessage => HasFailingMessage(tx)
    case CompletionLogged => MentionsCompletion(tx.logs)
    case MovesBalance => IsProcessedAs(tx, MOVE_BALANCE)
    case Other => !IsProcessedAs(tx, MOVE_BALANCE)
  }

  /** Some result shows the sign, wherever it stands. */
  ghost predicate Shows(ask: Asking, results: seq<Scr>, sign: Sign) {
    exists h :: h in Hashes(results) && Says(ask(h), sign)
  }

  /** The verdict waits for the results: it is not settled by the transaction's own status alone. */
  predicate IsOpen(tx: Transaction) {
    tx.status == SUCCESS && !IsMoveBalanceNotarized(tx)
  }

  /** Every result answered and none is still in progress. */
  ghost predicate IsSettled(tx: Transaction, ask: Asking) {
    !Shows(ask, tx.results, Unavailable) && !Shows(ask, tx.results, InProgress)
  }

  /** The transaction or some result reports a failure. */
  ghost predicate ReportsFailure(tx: Transaction, ask: Asking) {
    || MentionsFailure(tx.logs) || HasFailingMessage(tx)
    || Shows(ask, tx.results, FailureLogged) || Shows(ask, tx.results, FailingMessage)
  }

  /** A notarized relayed transaction (first two versions) of which no result was delivered. */
  ghost predicate LacksInnerResult(tx: Transaction, ask: Asking) {
    IsRelayedNotarized(tx) && !Shows(ask, tx.results, Present)
  }

  /** Completion, apart from the result list of relayed transactions. */
  ghost predicate IsComplete(tx: Transaction, ask: Asking) {
    || MentionsCompletion(tx.logs) || Shows(ask, tx.results, CompletionLogged)
    || tx.kind == UNSIGNED || IsRelayedV3Notarized(tx)
  }

  /** The one place where order matters: the first result delivered stands for the inner transaction. */
  ghost predicate RelaysMoveBalance(tx: Transaction, ask: Asking) {
    var scrs := DeliveredFor(ask, tx.results);
    IsRelayedNotarized(tx) && scrs != [] && IsProcessedAs(scrs[0], MOVE_BALANCE)
  }

  ghost predicate Succeeds(tx: Transaction, ask: Asking) {
    && tx.status == SUCCESS
    && (IsMoveBalanceNotarized(tx) ||
        (&& IsSettled(tx, ask) && !ReportsFailure(tx, ask) && !LacksInnerResult(tx, ask)
         && (IsComplete(tx, ask) || RelaysMoveBalance(tx, ask))))
  }

  ghost predicate Fails(tx: Transaction, ask: Asking) {
    || tx.status == INVALID || tx.status == FAIL
    || (&& IsOpen(tx) && IsSettled(tx, ask) && ReportsFailure(tx, ask)
        && (MentionsFailure(tx.logs) || !LacksInnerResult(tx, ask)))
  }

  ghost predicate IsUnknown(tx: Transaction, ask: Asking) {
    || tx.status == UNKNOWN
    || (&& IsOpen(tx)
        && (|| Shows(ask, tx.results, Unavailable)
            || (IsSettled(tx, ask) && !MentionsFailure(tx.logs) && LacksInnerResult(tx, ask))))
  }

  ghost predicate IsPending(tx: Transaction, ask: Asking) {
    || tx.status == PENDING
    || (&& IsOpen(tx) && !Shows(ask, tx.results, Unavailable)
        && (|| Shows(ask, tx.results, InProgress)
            || (&& !ReportsFailure(tx, ask) && !LacksInnerResult(tx, ask)
                && !IsComplete(tx, ask) && !RelaysMoveBalance(tx, ask))))
  }

  /** The status promised: one of four when the transaction itself succeeded, else its own, with invalid
      read as failed. */
  ghost function StatusOf(tx: Transaction, ask: Asking): string {
    if Succeeds(tx, ask) then SUCCESS
    else if Fails(tx, ask) then FAIL
    else if IsUnknown(tx, ask) then UNKNOWN
    else if IsPending(tx, ask) then PENDING
    else tx.status
  }

  /** The four descriptions exclude each other, and cover every transaction that succeeded. */
  lemma VerdictsAreDisjoint(tx: Transaction, ask: Asking)
    ensures !(Succeeds(tx, ask) && Fails(tx, ask)) && !(Succeeds(tx, ask) && IsUnknown(tx, ask))
    ensures !(Succeeds(tx, ask) && IsPending(tx, ask)) && !(Fails(tx, ask) && IsUnknown(tx, ask))
    ensures !(Fails(tx, ask) && IsPending(tx, ask)) && !(IsUnknown(tx, ask) && IsPending(tx, ask))
    ensures tx.status == SUCCESS ==> Succeeds(tx, ask) || Fails(tx, ask) || IsUnknown(tx, ask) || IsPending(tx, ask)
  {
  }

  // ----- The verdict in the fields of the transactions -----

  /** What each sign is. */
  lemma SignsInFull(tx: Transaction)
    ensures Bears(tx, InProgress) <==> tx.status == "pending"
    ensures Bears(tx, FailureLogged) <==>
            tx.logs.Some? && exists e :: e in tx.logs.value.events
                                         && (e.identifier == "internalVMErrors" || e.identifier == "signalError")
    ensures Bears(tx, FailingMessage) <==>
            && tx.returnMessage != "" && tx.returnMessage != "gas refund for relayer"
            && (tx.value == "" || tx.value == "0")
    ensures Bears(tx, CompletionLogged) <==>
            tx.logs.Some? && exists e :: e in tx.logs.value.events
                                         && (e.identifier == "completedTxEvent" || e.identifier == "SCDeploy")
    ensures Bears(tx, MovesBalance) <==>
            tx.processingOnSource == "MoveBalance" && tx.processingOnDestination == "MoveBalance"
  {
  }

  lemma ShownInFull(ask: Asking, results: seq<Scr>, sign: Sign)
    requires !sign.Unavailable?
    ensures Shows(ask, results, sign) <==>
            exists scr :: scr in results && ask(scr.hash).Delivered? && Bears(ask(scr.hash).tx, sign)
    ensures Shows(ask, results, Unavailable) <==> exists scr :: scr in results && ask(scr.hash) == Failed
  {
    forall scr | scr in results ensures scr.hash in Hashes(results) {
    }
    if Shows(ask, results, sign) {
      var h :| h in Hashes(results) && Says(ask(h), sign);
    }
    if Shows(ask, results, Unavailable) {
      var h :| h in Hashes(results) && Says(ask(h), Unavailable);
    }
  }

  /** A transaction that succeeded is decided without its results exactly when both sides have notarized it and
      both took it for a move of balance. */
  lemma DecidedByItselfExactly(tx: Transaction)
    requires tx.status == "success"
    ensures && tx.notarizedAtSource > 0 && tx.notarizedAtDestination > 0
            && tx.processingOnSource == "MoveBalance" && tx.processingOnDestination == "MoveBalance"
            <==> forall results, ask: Asking, results', ask': Asking :: SameVerdict(tx, results, ask, results', ask')
  {
    if !IsMoveBalanceNotarized(tx) {
      var results := [Scr("", "", "", None, "")];
      var ask: Asking := h => Failed;
      var ask': Asking := h => Delivered(tx.(status := PENDING));
      assert results[0].hash in Hashes(results) && Says(ask(""), Unavailable) && Says(ask'(""), InProgress);
      StatusesDiffer();
      assert Shows(ask, results, Unavailable) && Shows(ask', results, InProgress);
      assert !Shows(ask', results, Unavailable);
      assert !SameVerdict(tx, results, ask, results, ask');
    }
  }

  ghost predicate SameVerdict(tx: Transaction, results: seq<Scr>, ask: Asking, results': seq<Scr>, ask': Asking) {
    StatusOf(tx.(results := results), ask) == StatusOf(tx.(results := results'), ask')
  }

  /** The first result delivered. */
  ghost predicate FirstDelivered(ask: Asking, results: seq<Scr>, i: nat) {
    && i < |results| && ask(results[i].hash).Delivered?
    && forall j :: 0 <= j < i ==> !ask(results[j].hash).Delivered?
  }

  lemma {:induction false} NoneDelivered(ask: Asking, results: seq<Scr>)
    requires forall j :: 0 <= j < |results| ==> !ask(results[j].hash).Delivered?
    ensures DeliveredFor(ask, results) == []
  {
    if results != [] {
      NoneDelivered(ask, results[..|results| - 1]);
    }
  }

  lemma {:induction false} FirstDeliveredIs(ask: Asking, results: seq<Scr>, i: nat)
    requires FirstDelivered(ask, results, i)
    ensures DeliveredFor(ask, results) != [] && DeliveredFor(ask, results)[0] == ask(results[i].hash).tx
  {
    var init := results[..|results| - 1];
    if i < |init| {
      FirstDeliveredIs(ask, init, i);
    } else {
      NoneDelivered(ask, init);
    }
  }

  lemma {:induction false} SomeFirstDelivered(ask: Asking, results: seq<Scr>) returns (i: nat)
    requires DeliveredFor(ask, results) != []
    ensures FirstDelivered(ask, results, i)
  {
    var init := results[..|results| - 1];
    if DeliveredFor(ask, init) != [] {
      i := SomeFirstDelivered(ask, init);
    } else {
      i := |init|;
      forall j | 0 <= j < i ensures !ask(results[j].hash).Delivered? {
        if ask(init[j].hash).Delivered? {
          DeliveredEach(ask, init, j);
        }
      }
    }
  }

  lemma {:induction false} DeliveredEach(ask: Asking, results: seq<Scr>, j: nat)
    requires j < |results| && ask(results[j].hash).Delivered?
    ensures DeliveredFor(ask, results) != []
  {
    var init := results[..|results| - 1];
    if j < |init| {
      DeliveredEach(ask, init, j);
    }
  }

  lemma StatusNames(tx: Transaction, ask: Asking)
    ensures StatusOf(tx, ask) == SUCCESS <==> Succeeds(tx, ask)
    ensures StatusOf(tx, ask) == FAIL <==> Fails(tx, ask)
    ensures StatusOf(tx, ask) == UNKNOWN <==> IsUnknown(tx, ask)
  {
    StatusesDiffer();
    VerdictsAreDisjoint(tx, ask);
  }

  /** A transaction that did not succeed keeps its own status, but for an invalid one, which has failed. */
  lemma OwnStatusInFull(tx: Transaction, ask: Asking)
    requires tx.status != "success"
    ensures StatusOf(tx, ask) == if tx.status == "invalid" then "fail" else tx.status
  {
    StatusesDiffer();
  }

  lemma OwnFieldsInFull(tx: Transaction)
    ensures var notarized := tx.notarizedAtSource > 0 && tx.notarizedAtDestination > 0;
            var src, dst := tx.processingOnSource, tx.processingOnDestination;
            && (IsMoveBalanceNotarized(tx) <==> notarized && src == dst == "MoveBalance")
            && (IsRelayedNotarized(tx) <==> notarized && (src == dst == "RelayedTx" || src == dst == "RelayedTxV2"))
            && (IsRelayedV3Notarized(tx) <==> notarized && src == dst == "RelayedTxV3")
  {
  }

  lemma ResultsInFull(tx: Transaction, ask: Asking)
    ensures Shows(ask, tx.results, Unavailable) <==> exists scr :: scr in tx.results && ask(scr.hash) == Failed
    ensures Shows(ask, tx.results, Present) <==> exists scr :: scr in tx.results && ask(scr.hash).Delivered?
    ensures IsSettled(tx, ask) <==>
            forall scr :: scr in tx.results ==>
              ask(scr.hash) != Failed && (ask(scr.hash).Delivered? ==> ask(scr.hash).tx.status != "pending")
    ensures ReportsFailure(tx, ask) <==>
            || Bears(tx, FailureLogged) || Bears(tx, FailingMessage)
            || exists scr :: scr in tx.results && ask(scr.hash).Delivered?
                             && (Bears(ask(scr.hash).tx, FailureLogged) || Bears(ask(scr.hash).tx, FailingMessage))
    ensures Shows(ask, tx.results, CompletionLogged) <==>
            exists scr :: scr in tx.results && ask(scr.hash).Delivered? && Bears(ask(scr.hash).tx, CompletionLogged)
  {
    ShownInFull(ask, tx.results, Present);
    ShownInFull(ask, tx.results, InProgress);
    ShownInFull(ask, tx.results, FailureLogged);
    ShownInFull(ask, tx.results, FailingMessage);
    ShownInFull(ask, tx.results, CompletionLogged);
  }

  lemma RelaysInFull(tx: Transaction, ask: Asking)
    ensures RelaysMoveBalance(tx, ask) <==>
            IsRelayedNotarized(tx)
            && exists i: nat :: FirstDelivered(ask, tx.results, i) && Bears(ask(tx.results[i].hash).tx, MovesBalance)
  {
    if RelaysMoveBalance(tx, ask) {
      var i := SomeFirstDelivered(ask, tx.results);
      FirstDeliveredIs(ask, tx.results, i);
    }
    if i: nat :| FirstDelivered(ask, tx.results, i) && Bears(ask(tx.results[i].hash).tx, MovesBalance) {
      FirstDeliveredIs(ask, tx.results, i);
    }
  }

  /** Success, exactly: the transaction succeeded, and either it is decided by itself, or all its results are there,
      none is in progress, nothing reports a failure, a relayed one has some result, and something reports
      completion or stands in for it. */
  lemma SuccessInFull(tx: Transaction, ask: Asking)
    ensures
      var notarized := tx.notarizedAtSource > 0 && tx.notarizedAtDestination > 0;
      var src, dst := tx.processingOnSource, tx.processingOnDestination;
      var relayed := notarized && (src == dst == "RelayedTx" || src == dst == "RelayedTxV2");
      var relayedV3 := notarized && src == dst == "RelayedTxV3";
      StatusOf(tx, ask) == "success" <==>
        && tx.status == "success"
        && (|| (notarized && src == dst == "MoveBalance")
            || (&& (forall scr :: scr in tx.results ==>
                      ask(scr.hash) != Failed && (ask(scr.hash).Delivered? ==> ask(scr.hash).tx.status != "pending"))
                && !Bears(tx, FailureLogged) && !Bears(tx, FailingMessage)
                && (forall scr :: scr in tx.results && ask(scr.hash).Delivered? ==>
                      !Bears(ask(scr.hash).tx, FailureLogged) && !Bears(ask(scr.hash).tx, FailingMessage))
                && (relayed ==> exists scr :: scr in tx.results && ask(scr.hash).Delivered?)
                && (|| Bears(tx, CompletionLogged) || tx.kind == "unsigned" || relayedV3
                    || (exists scr :: scr in tx.results && ask(scr.hash).Delivered?
                                      && Bears(ask(scr.hash).tx, CompletionLogged))
                    || (relayed && exists i: nat :: FirstDelivered(ask, tx.results, i)
                                                    && Bears(ask(tx.results[i].hash).tx, MovesBalance)))))
  {
    StatusNames(tx, ask);
    OwnFieldsInFull(tx);
    ResultsInFull(tx, ask);
    RelaysInFull(tx, ask);
  }

  /** Notarized on one side only, a transaction needs a logged completion, unless it is an unsigned one. */
  lemma HalfNotarizedSuccess(tx: Transaction, ask: Asking)
    requires tx.notarizedAtSource == 0 || tx.notarizedAtDestination == 0
    requires StatusOf(tx, ask) == "success" && tx.kind != "unsigned"
    ensures || (tx.logs.Some? && exists e :: e in tx.logs.value.events
                                             && (e.identifier == "completedTxEvent" || e.identifier == "SCDeploy"))
            || (exists scr, e :: scr in tx.results && ask(scr.hash).Delivered? && ask(scr.hash).tx.logs.Some?
                                 && e in ask(scr.hash).tx.logs.value.events
                                 && (e.identifier == "completedTxEvent" || e.identifier == "SCDeploy"))
  {
    SuccessInFull(tx, ask);
    SignsInFull(tx);
    if scr :| scr in tx.results && ask(scr.hash).Delivered? && Bears(ask(scr.hash).tx, CompletionLogged) {
      SignsInFull(ask(scr.hash).tx);
    }
  }

  /** A message that comes with a result of no value, other than the refund to a relayer, excludes success, unless the
      transaction is decided by itself. */
  lemma MessageExcludesSuccess(tx: Transaction, ask: Asking, scr: Scr)
    requires scr in tx.results && ask(scr.hash).Delivered?
    requires var t := ask(scr.hash).tx;
             t.returnMessage != "" && t.returnMessage != "gas refund for relayer" && (t.value == "" || t.value == "0")
    requires tx.notarizedAtSource == 0 || tx.notarizedAtDestination == 0
             || tx.processingOnSource != "MoveBalance" || tx.processingOnDestination != "MoveBalance"
    ensures StatusOf(tx, ask) != "success"
  {
    SuccessInFull(tx, ask);
    SignsInFull(ask(scr.hash).tx);
  }

  /** Failure, exactly: the transaction itself says so, or it succeeded but is not decided by itself, all its results
      are there and finished, and a failure is reported, by its own log if it is a relayed one without results. */
  lemma FailureInFull(tx: Transaction, ask: Asking)
    ensures
      var notarized := tx.notarizedAtSource > 0 && tx.notarizedAtDestination > 0;
      var src, dst := tx.processingOnSource, tx.processingOnDestination;
      var relayed := notarized && (src == dst == "RelayedTx" || src == dst == "RelayedTxV2");
      StatusOf(tx, ask) == "fail" <==>
        || tx.status == "fail" || tx.status == "invalid"
        || (&& tx.status == "success" && !(notarized && src == dst == "MoveBalance")
            && (forall scr :: scr in tx.results ==>
                  ask(scr.hash) != Failed && (ask(scr.hash).Delivered? ==> ask(scr.hash).tx.status != "pending"))
            && (|| Bears(tx, FailureLogged)
                || (&& (relayed ==> exists scr :: scr in tx.results && ask(scr.hash).Delivered?)
                    && (|| Bears(tx, FailingMessage)
                        || exists scr :: scr in tx.results && ask(scr.hash).Delivered?
                                         && (|| Bears(ask(scr.hash).tx, FailureLogged)
                                             || Bears(ask(scr.hash).tx, FailingMessage))))))
  {
    StatusNames(tx, ask);
    OwnFieldsInFull(tx);
    ResultsInFull(tx, ask);
  }

  /** Unknown, exactly: the transaction itself says so, or it succeeded but is not decided by itself, and some result
      cannot be fetched, or it is a relayed one without results and without a failure in its own log. */
  lemma UnknownInFull(tx: Transaction, ask: Asking)
    ensures
      var notarized := tx.notarizedAtSource > 0 && tx.notarizedAtDestination > 0;
      var src, dst := tx.processingOnSource, tx.processingOnDestination;
      var relayed := notarized && (src == dst == "RelayedTx" || src == dst == "RelayedTxV2");
      StatusOf(tx, ask) == "unknown" <==>
        || tx.status == "unknown"
        || (&& tx.status == "success" && !(notarized && src == dst == "MoveBalance")
            && (|| (exists scr :: scr in tx.results && ask(scr.hash) == Failed)
                || (relayed && !Bears(tx, FailureLogged)
                    && forall scr :: scr in tx.results ==> ask(scr.hash) == Missing)))
  {
    StatusNames(tx, ask);
    OwnFieldsInFull(tx);
    ResultsInFull(tx, ask);
  }

  // ----- The computation -----

  ghost predicate SomeBears(txs: seq<Transaction>, sign: Sign) {
    exists i :: 0 <= i < |txs| && Bears(txs[i], sign)
  }

  lemma SomeBearsSnoc(txs: seq<Transaction>, tx: Transaction, sign: Sign)
    ensures SomeBears(txs + [tx], sign) <==> SomeBears(txs, sign) || Bears(tx, sign)
  {
    var all := txs + [tx];
    assert all[|txs|] == tx && forall i :: 0 <= i < |txs| ==> all[i] == txs[i];
  }

  lemma SomeLogSnoc(logs: seq<Option<ApiLog>>, log: Option<ApiLog>)
    ensures SomeLogFails(logs + [log]) <==> SomeLogFails(logs) || MentionsFailure(log)
    ensures SomeLogCompletes(logs + [log]) <==> SomeLogCompletes(logs) || MentionsCompletion(log)
  {
    var all := logs + [log];
    assert all[|logs|] == log && forall i :: 0 <= i < |logs| ==> all[i] == logs[i];
  }

  lemma {:induction false} DeliveredShows(ask: Asking, results: seq<Scr>, sign: Sign)
    requires !sign.Unavailable?
    ensures Shows(ask, results, sign) <==> SomeBears(DeliveredFor(ask, results), sign)
  {
    if results != [] {
      var init, last := results[..|results| - 1], results[|results| - 1];
      assert results == init + [last];
      DeliveredShows(ask, init, sign);
      HashesSnoc(init, last);
      if ask(last.hash).Delivered? {
        SomeBearsSnoc(DeliveredFor(ask, init), ask(last.hash).tx, sign);
      }
    }
  }

  lemma HashesSnoc(scrs: seq<Scr>, scr: Scr)
    ensures Hashes(scrs + [scr]) == Hashes(scrs) + {scr.hash}
  {
    assert forall s :: s in scrs + [scr] <==> s in scrs || s == scr;
  }

  lemma {:induction false} LogsShow(txs: seq<Transaction>)
    ensures SomeLogFails(LogsOf(txs)) <==> SomeBears(txs, FailureLogged)
    ensures SomeLogCompletes(LogsOf(txs)) <==> SomeBears(txs, CompletionLogged)
  {
    if txs != [] {
      var init, last := txs[..|txs| - 1], txs[|txs| - 1];
      assert txs == init + [last];
      LogsShow(init);
      SomeBearsSnoc(init, last, FailureLogged);
      SomeBearsSnoc(init, last, CompletionLogged);
      SomeLogSnoc(LogsOf(init), last.logs);
      assert LogsOf(txs) == if last.logs.Some? then LogsOf(init) + [last.logs] else LogsOf(init);
    }
  }

  lemma SomeBearsCons(tx: Transaction, txs: seq<Transaction>, sign: Sign)
    ensures SomeBears([tx] + txs, sign) <==> Bears(tx, sign) || SomeBears(txs, sign)
  {
    var all := [tx] + txs;
    assert all[0] == tx && forall i :: 0 <= i < |txs| ==> all[i + 1] == txs[i];
    assert forall i :: 0 < i < |all| ==> all[i] == txs[i - 1];
  }

  /** The logs gathered, said of the answers. */
  lemma LogsGathered(tx: Transaction, ask: Asking, scrs: seq<Transaction>)
    requires scrs == DeliveredFor(ask, tx.results)
    ensures SomeLogFails(LogsOf([tx] + scrs)) <==> MentionsFailure(tx.logs) || Shows(ask, tx.results, FailureLogged)
    ensures SomeLogCompletes(LogsOf([tx] + scrs)) <==>
            MentionsCompletion(tx.logs) || Shows(ask, tx.results, CompletionLogged)
  {
    LogsShow([tx] + scrs);
    SomeBearsCons(tx, scrs, FailureLogged);
    SomeBearsCons(tx, scrs, CompletionLogged);
    DeliveredShows(ask, tx.results, FailureLogged);
    DeliveredShows(ask, tx.results, CompletionLogged);
  }

  /** The log that stands in for a completed relayed move of balance. */
  function CompletionLog(sender: string): Option<ApiLog> {
    Some(ApiLog(sender, [Event(COMPLETED, "", "")]))
  }

  /** Where the reason of a failure comes from: the transaction's own log if that fails, else all logs. */
  function ReasonOf(tx: Transaction, scrs: seq<Transaction>): string {
    var own, all := FailureIn([tx.logs]), FailureIn(LogsOf([tx] + scrs));
    if own.Some? then own.value else if all.Some? then all.value else ""
  }

  method ComputeTransactionStatus(tx: Transaction, withResults: bool, ask: Asking) returns (v: Verdict)
    ensures v.status == if withResults then StatusOf(tx, ask) else UNKNOWN
    ensures v.reason ==
            if withResults && IsOpen(tx) && v.status == FAIL then ReasonOf(tx, DeliveredFor(ask, tx.results))
                        else ""
  {
    VerdictsAreDisjoint(tx, ask);
    if !withResults {
      return Verdict(UNKNOWN, "");
    }
    if tx.status == INVALID {
      return Verdict(FAIL, "");
    }
    if tx.status != SUCCESS {
      return Verdict(tx.status, "");
    }
    if IsMoveBalanceNotarized(tx) {
      return Verdict(tx.status, "");
    }
    var ok, logs, scrs := GatherAllLogsAndScrs(tx, ask);
    if !ok {
      return Verdict(UNKNOWN, "");
    }
    v := Judge(tx, ask, logs, scrs);
  }

  /** The rest of the computation, once all results are there. */
  method Judge(tx: Transaction, ghost ask: Asking, logs: seq<Option<ApiLog>>, scrs: seq<Transaction>)
    returns (v: Verdict)
    requires IsOpen(tx) && !Shows(ask, tx.results, Unavailable)
    requires scrs == DeliveredFor(ask, tx.results) && logs == LogsOf([tx] + scrs)
    ensures v.status == StatusOf(tx, ask)
    ensures v.reason == if v.status == FAIL then ReasonOf(tx, scrs) else ""
  {
    StatusByCases(tx, ask);
    StatusesDiffer();
    DeliveredShows(ask, tx.results, InProgress);
    if exists i :: 0 <= i < |scrs| && Bears(scrs[i], InProgress) {
      return Verdict(PENDING, "");
    }
    var reason := FailureIn([tx.logs]);
    assert [tx.logs][0] == tx.logs;
    if reason.Some? {
      return Verdict(FAIL, reason.value);
    }
    DeliveredShows(ask, tx.results, Present);
    assert SomeBears(scrs, Present) <==> scrs != [] by {
      assert scrs != [] ==> Bears(scrs[0], Present);
    }
    var relayed := RelayedMoveBalance(tx, scrs);
    if relayed.None? {
      return Verdict(UNKNOWN, "");
    }
    v := JudgeFinished(tx, ask, logs, scrs, relayed.value);
  }

  /** The statuses of a transaction that is open and whose results all answered, in the order checked. */
  lemma StatusByCases(tx: Transaction, ask: Asking)
    requires IsOpen(tx) && !Shows(ask, tx.results, Unavailable)
    ensures StatusOf(tx, ask) ==
            if Shows(ask, tx.results, InProgress) then PENDING
            else if MentionsFailure(tx.logs) then FAIL
            else if LacksInnerResult(tx, ask) then UNKNOWN
            else if ReportsFailure(tx, ask) then FAIL
            else if IsComplete(tx, ask) || RelaysMoveBalance(tx, ask) then SUCCESS
            else PENDING
  {
  }

  lemma StatusesDiffer()
    ensures SUCCESS != FAIL && SUCCESS != PENDING && SUCCESS != INVALID && SUCCESS != UNKNOWN
    ensures FAIL != PENDING && FAIL != UNKNOWN && FAIL != INVALID
    ensures PENDING != INVALID && PENDING != UNKNOWN && INVALID != UNKNOWN
  {
    assert |SUCCESS| == 7 && |FAIL| == 4 && |PENDING| == 7 && |INVALID| == 7 && |UNKNOWN| == 7;
    assert SUCCESS[0] == 's' && PENDING[0] == 'p' && INVALID[0] == 'i' && UNKNOWN[0] == 'u';
  }

  /** The log added for a relayed move of balance completes the transaction and reports no failure. */
  lemma {:induction false} CompletionLogAdds(logs: seq<Option<ApiLog>>, sender: string)
    ensures FailureIn(logs + [CompletionLog(sender)]) == FailureIn(logs)
    ensures CompletedIn(logs + [CompletionLog(sender)])
  {
    IdentifiersDiffer();
    FindSnoc(logs, CompletionLog(sender), VM_ERRORS);
    FindSnoc(logs, CompletionLog(sender), SIGNAL_ERROR);
    assert CompletionLog(sender).value.events[0].identifier == COMPLETED;
    SomeLogSnoc(logs, CompletionLog(sender));
  }

  lemma IdentifiersDiffer()
    ensures VM_ERRORS != COMPLETED && SIGNAL_ERROR != COMPLETED
  {
    assert VM_ERRORS[0] == 'i' && SIGNAL_ERROR[0] == 's' && COMPLETED[0] == 'c';
  }

  lemma {:induction false} FindSnoc(logs: seq<Option<ApiLog>>, log: Option<ApiLog>, identifier: string)
    requires !Mentions(log, identifier)
    ensures FindInLogs(logs + [log], identifier) == FindInLogs(logs, identifier)
  {
    if logs == [] {
      assert logs + [log] == [log];
      assert [log][1..] == [];
    } else {
      FindSnoc(logs[1..], log, identifier);
      assert (logs + [log])[1..] == logs[1..] + [log];
    }
  }

  /** All logs, with the one added, said of the answers. */
  lemma AllLogsSay(tx: Transaction, ask: Asking, scrs: seq<Transaction>, relayed: bool, allLogs: seq<Option<ApiLog>>)
    requires scrs == DeliveredFor(ask, tx.results) && !MentionsFailure(tx.logs)
    requires var logs := LogsOf([tx] + scrs); allLogs == if relayed then logs + [CompletionLog(tx.sender)] else logs
    ensures FailureIn(allLogs).Some? <==> Shows(ask, tx.results, FailureLogged)
    ensures FailureIn(allLogs).Some? ==> FailureIn(allLogs).value == ReasonOf(tx, scrs)
    ensures FailureIn(allLogs).None? ==> ReasonOf(tx, scrs) == ""
    ensures CompletedIn(allLogs) <==>
            relayed || MentionsCompletion(tx.logs) || Shows(ask, tx.results, CompletionLogged)
  {
    LogsGathered(tx, ask, scrs);
    CompletionLogAdds(LogsOf([tx] + scrs), tx.sender);
  }

  method JudgeFinished(tx: Transaction, ghost ask: Asking, logs: seq<Option<ApiLog>>, scrs: seq<Transaction>,
                       relayed: bool) returns (v: Verdict)
    requires IsOpen(tx) && IsSettled(tx, ask) && !MentionsFailure(tx.logs) && !LacksInnerResult(tx, ask)
    requires scrs == DeliveredFor(ask, tx.results) && logs == LogsOf([tx] + scrs)
    requires relayed <==> RelaysMoveBalance(tx, ask)
    ensures v.status == StatusOf(tx, ask)
    ensures v.reason == if v.status == FAIL then ReasonOf(tx, scrs) else ""
  {
    StatusByCases(tx, ask);
    StatusesDiffer();
    var allLogs := if relayed then logs + [CompletionLog(tx.sender)] else logs;
    AllLogsSay(tx, ask, scrs, relayed, allLogs);
    var reason := FailureIn(allLogs);
    if reason.Some? {
      return Verdict(FAIL, reason.value);
    }
    DeliveredShows(ask, tx.results, FailingMessage);
    if HasFailingMessage(tx) || exists i :: 0 <= i < |scrs| && Bears(scrs[i], FailingMessage) {
      return Verdict(FAIL, "");
    }
    if CompletedIn(allLogs) || tx.kind == UNSIGNED {
      return Verdict(SUCCESS, "");
    }
    if IsRelayedV3Notarized(tx) {
      return Verdict(tx.status, "");
    }
    return Verdict(PENDING, "");
  }

  /** A reason is never made up: it is the data of a failure event of the transaction or of a result. */
  lemma ReasonIsLogged(tx: Transaction, ask: Asking)
    ensures var reason := ReasonOf(tx, DeliveredFor(ask, tx.results));
            || reason == "" || Blames(tx.logs, reason)
            || exists h :: h in Hashes(tx.results) && BlamesAnswer(ask(h), reason)
  {
    var scrs := DeliveredFor(ask, tx.results);
    var reason := ReasonOf(tx, scrs);
    if reason != "" && !Blames(tx.logs, reason) {
      var logs := LogsOf([tx] + scrs);
      var i :| 0 <= i < |logs| && Blames(logs[i], reason);
      LogIsOf([tx] + scrs, logs[i]);
      var k :| 0 <= k < |[tx] + scrs| && ([tx] + scrs)[k].logs == logs[i];
      assert ([tx] + scrs)[k] == scrs[k - 1];
      DeliveredIsOf(ask, tx.results, scrs[k - 1]);
    }
  }

  predicate Blames(log: Option<ApiLog>, reason: string) {
    log.Some? && (|| Event(VM_ERRORS, reason, "") in Stripped(log.value.events)
                  || Event(SIGNAL_ERROR, reason, "") in Stripped(log.value.events))
  }

  predicate BlamesAnswer(answer: Answer, reason: string) {
    answer.Delivered? && Blames(answer.tx.logs, reason)
  }

  lemma {:induction false} LogIsOf(txs: seq<Transaction>, log: Option<ApiLog>)
    requires log in LogsOf(txs)
    ensures exists k :: 0 <= k < |txs| && txs[k].logs == log
  {
    var init, last := txs[..|txs| - 1], txs[|txs| - 1];
    if log in LogsOf(init) {
      LogIsOf(init, log);
      var k :| 0 <= k < |init| && init[k].logs == log;
      assert txs[k].logs == log;
    } else {
      assert txs[|txs| - 1].logs == log;
    }
  }

  lemma {:induction false} DeliveredIsOf(ask: Asking, results: seq<Scr>, tx: Transaction)
    requires tx in DeliveredFor(ask, results)
    ensures exists h :: h in Hashes(results) && ask(h) == Delivered(tx)
  {
    var init, last := results[..|results| - 1], results[|results| - 1];
    assert results == init + [last];
    HashesSnoc(init, last);
    if tx in DeliveredFor(ask, init) {
      DeliveredIsOf(ask, init, tx);
    } else {
      assert last.hash in Hashes(results);
    }
  }

  // ----- Order does not matter, with one exception -----

  /** Any two lists with the same hashes give the same status, unless the transaction is a notarized relayed
      one of the first two versions. */
  lemma StatusIgnoresOrder(tx: Transaction, ask: Asking, results: seq<Scr>)
    requires Hashes(results) == Hashes(tx.results) && !IsRelayedNotarized(tx)
    ensures StatusOf(tx.(results := results), ask) == StatusOf(tx, ask)
  {
  }

  /** In particular it never shows in which order a lookup walked its maps: two lookups of a transaction in the same
      world lead to the same status. */
  lemma StatusIgnoresTheWalk(w: Lookups.World, answers: ShardAnswers, withResults: bool, tx: Transaction, ask: Asking,
                             r1: Lookups.Lookup, m1: ShardMap, asked1: seq<Question>,
                             r2: Lookups.Lookup, m2: ShardMap, asked2: seq<Question>)
    requires Lookups.FixesAddresses(w, answers, withResults)
    requires AnsweredBy(asked1, answers) && AnsweredBy(asked2, answers)
    requires Lookups.LooksUp(w, withResults, r1, m1, asked1) && Lookups.LooksUp(w, withResults, r2, m2, asked2)
    requires r1.Found? && !IsRelayedNotarized(tx)
    ensures r2.Found? && SameStatus(tx, ask, r1.tx.results, r2.tx.results)
  {
    Lookups.LookupIsConfluent(w, answers, withResults, r1, m1, asked1, r2, m2, asked2);
    SameHashesSameStatus(tx, ask, r1.tx.results, r2.tx.results);
  }

  ghost predicate SameStatus(tx: Transaction, ask: Asking, results1: seq<Scr>, results2: seq<Scr>) {
    StatusOf(tx.(results := results1), ask) == StatusOf(tx.(results := results2), ask)
  }

  lemma SameHashesSameStatus(tx: Transaction, ask: Asking, results1: seq<Scr>, results2: seq<Scr>)
    requires Hashes(results1) == Hashes(results2) && !IsRelayedNotarized(tx)
    ensures SameStatus(tx, ask, results1, results2)
  {
    StatusIgnoresOrder(tx.(results := results1), ask, results2);
  }

  /** The exception: a notarized relayed transaction that nothing else decides, some of whose delivered
      results move balance while others do not. */
  ghost predicate OrderDecides(tx: Transaction, ask: Asking) {
    && IsRelayedNotarized(tx) && IsOpen(tx) && IsSettled(tx, ask)
    && !ReportsFailure(tx, ask) && !IsComplete(tx, ask)
    && Shows(ask, tx.results, MovesBalance) && Shows(ask, tx.results, Other)
  }

  /** A list with the same results as often, in whatever order. */
  predicate Rearranged(a: seq<Scr>, b: seq<Scr>) {
    multiset(a) == multiset(b)
  }

  lemma RearrangedHashes(a: seq<Scr>, b: seq<Scr>)
    requires Rearranged(a, b)
    ensures Hashes(a) == Hashes(b)
  {
    assert forall scr :: scr in a <==> scr in multiset(a);
    assert forall scr :: scr in b <==> scr in multiset(b);
  }

  /** The results with one that shows the sign in front. */
  lemma InFront(tx: Transaction, ask: Asking, sign: Sign) returns (results: seq<Scr>)
    requires Shows(ask, tx.results, sign) && !sign.Unavailable?
    ensures Rearranged(results, tx.results)
    ensures var scrs := DeliveredFor(ask, results); scrs != [] && Bears(scrs[0], sign)
  {
    var h :| h in Hashes(tx.results) && Says(ask(h), sign);
    var k :| 0 <= k < |tx.results| && tx.results[k].hash == h;
    var rest := tx.results[..k] + tx.results[k + 1..];
    results := [tx.results[k]] + rest;
    assert tx.results == tx.results[..k] + [tx.results[k]] + tx.results[k + 1..];
    DeliveredFirst(ask, tx.results[k], rest);
  }

  lemma {:induction false} DeliveredFirst(ask: Asking, scr: Scr, rest: seq<Scr>)
    requires ask(scr.hash).Delivered?
    ensures var scrs := DeliveredFor(ask, [scr] + rest); scrs != [] && scrs[0] == ask(scr.hash).tx
  {
    if rest == [] {
      DeliveredSnoc(ask, [], scr);
      assert [] + [scr] == [scr] + rest;
    } else {
      var init, last := rest[..|rest| - 1], rest[|rest| - 1];
      assert ([scr] + init) + [last] == [scr] + rest;
      DeliveredFirst(ask, scr, init);
      DeliveredSnoc(ask, [scr] + init, last);
    }
  }

  /** In the exceptional case the first result delivered makes the difference between success and pending. */
  lemma FirstDecides(tx: Transaction, ask: Asking, results: seq<Scr>)
    requires OrderDecides(tx, ask) && Hashes(results) == Hashes(tx.results)
    requires DeliveredFor(ask, results) != []
    ensures StatusOf(tx.(results := results), ask) ==
            if Bears(DeliveredFor(ask, results)[0], MovesBalance) then SUCCESS else PENDING
  {
    var tx' := tx.(results := results);
    assert forall sign :: Shows(ask, tx'.results, sign) <==> Shows(ask, tx.results, sign);
    StatusByCases(tx', ask);
    DeliveredShows(ask, results, Present);
    assert Bears(DeliveredFor(ask, results)[0], Present);
  }

  lemma SameUnlessOrderDecides(tx: Transaction, ask: Asking, results: seq<Scr>)
    requires Hashes(results) == Hashes(tx.results) && !OrderDecides(tx, ask)
    ensures StatusOf(tx.(results := results), ask) == StatusOf(tx, ask)
  {
    var tx' := tx.(results := results);
    if RelaysMoveBalance(tx', ask) == RelaysMoveBalance(tx, ask) {
      SameIfRelaysAgree(tx, ask, results);
    } else {
      assert forall sign :: Shows(ask, results, sign) <==> Shows(ask, tx.results, sign);
      FirstIsMoveOrOther(tx, ask);
      FirstIsMoveOrOther(tx', ask);
      SameIfDecidedElsewhere(tx, ask, results);
    }
  }

  lemma SameIfRelaysAgree(tx: Transaction, ask: Asking, results: seq<Scr>)
    requires Hashes(results) == Hashes(tx.results)
    requires RelaysMoveBalance(tx.(results := results), ask) == RelaysMoveBalance(tx, ask)
    ensures StatusOf(tx.(results := results), ask) == StatusOf(tx, ask)
  {
  }

  lemma SameIfDecidedElsewhere(tx: Transaction, ask: Asking, results: seq<Scr>)
    requires Hashes(results) == Hashes(tx.results)
    requires || !IsOpen(tx) || !IsSettled(tx, ask) || ReportsFailure(tx, ask) || IsComplete(tx, ask)
             || LacksInnerResult(tx, ask)
    ensures StatusOf(tx.(results := results), ask) == StatusOf(tx, ask)
  {
  }

  lemma FirstIsMoveOrOther(tx: Transaction, ask: Asking)
    ensures DeliveredFor(ask, tx.results) != [] <==> Shows(ask, tx.results, Present)
    ensures RelaysMoveBalance(tx, ask) ==> Shows(ask, tx.results, MovesBalance)
    ensures IsRelayedNotarized(tx) && !LacksInnerResult(tx, ask) && !RelaysMoveBalance(tx, ask) ==>
            Shows(ask, tx.results, Other)
  {
    var scrs := DeliveredFor(ask, tx.results);
    DeliveredShows(ask, tx.results, Present);
    DeliveredShows(ask, tx.results, MovesBalance);
    DeliveredShows(ask, tx.results, Other);
    if scrs != [] {
      assert Bears(scrs[0], Present);
      assert Bears(scrs[0], MovesBalance) || Bears(scrs[0], Other);
    }
  }

  /** The status is the same for every order of the results, exactly when the exception does not apply. */
  lemma OrderMattersExactly(tx: Transaction, ask: Asking)
    ensures (forall results :: Rearranged(results, tx.results) ==>
                               StatusOf(tx.(results := results), ask) == StatusOf(tx, ask))
            <==> !OrderDecides(tx, ask)
  {
    if OrderDecides(tx, ask) {
      var moves := InFront(tx, ask, MovesBalance);
      var other := InFront(tx, ask, Other);
      RearrangedHashes(moves, tx.results);
      RearrangedHashes(other, tx.results);
      FirstDecides(tx, ask, moves);
      FirstDecides(tx, ask, other);
      StatusesDiffer();
      assert Rearranged(moves, tx.results) && Rearranged(other, tx.results);
    } else {
      forall results | Rearranged(results, tx.results)
        ensures StatusOf(tx.(results := results), ask) == StatusOf(tx, ask)
      {
        RearrangedHashes(results, tx.results);
        SameUnlessOrderDecides(tx, ask, results);
      }
    }
  }

  // ----- Which failure is named -----

  /** What a transaction's own log says first under an identifier. */
  function DataIn(tx: Transaction, identifier: string): Option<string> {
    if tx.logs.Some? then FindInEvents(tx.logs.value.events, identifier) else None
  }

  function FirstData(txs: seq<Transaction>, identifier: string): (r: Option<string>)
    ensures r.Some? <==> exists k :: 0 <= k < |txs| && DataIn(txs[k], identifier).Some?
    ensures r.Some? ==> exists k :: 0 <= k < |txs| && DataIn(txs[k], identifier) == r
  {
    if txs == [] then None
    else if DataIn(txs[0], identifier).Some? then DataIn(txs[0], identifier)
    else FirstData(txs[1..], identifier)
  }

  lemma {:induction false} LogsCons(tx: Transaction, txs: seq<Transaction>)
    ensures LogsOf([tx] + txs) == (if tx.logs.Some? then [tx.logs] else []) + LogsOf(txs)
  {
    if txs == [] {
      assert [tx] + txs == [tx];
      LogsOfOne(tx);
    } else {
      var init, last := txs[..|txs| - 1], txs[|txs| - 1];
      assert ([tx] + init) + [last] == [tx] + txs && init + [last] == txs;
      LogsCons(tx, init);
      LogsSnoc([tx] + init, last);
      LogsSnoc(init, last);
    }
  }

  lemma {:induction false} FindIsFirstData(txs: seq<Transaction>, identifier: string)
    ensures FindInLogs(LogsOf(txs), identifier) == FirstData(txs, identifier)
  {
    if txs != [] {
      var tx, rest := txs[0], txs[1..];
      assert [tx] + rest == txs;
      LogsCons(tx, rest);
      FindIsFirstData(rest, identifier);
      if tx.logs.Some? {
        assert LogsOf(txs)[1..] == LogsOf(rest);
      } else {
        assert LogsOf(txs) == LogsOf(rest);
      }
    }
  }

  predicate Names(answer: Answer, identifier: string) {
    answer.Delivered? && DataIn(answer.tx, identifier).Some?
  }

  function DataOf(answer: Answer, identifier: string): Option<string> {
    if answer.Delivered? then DataIn(answer.tx, identifier) else None
  }

  ghost predicate SomeNames(ask: Asking, results: seq<Scr>, identifier: string) {
    exists h :: h in Hashes(results) && Names(ask(h), identifier)
  }

  lemma {:induction false} DeliveredHas(ask: Asking, results: seq<Scr>, h: string)
    requires h in Hashes(results) && ask(h).Delivered?
    ensures ask(h).tx in DeliveredFor(ask, results)
  {
    var init, last := results[..|results| - 1], results[|results| - 1];
    assert results == init + [last];
    HashesSnoc(init, last);
    if last.hash != h {
      DeliveredHas(ask, init, h);
    }
  }

  /** What comes first is what some result says, and something does if any result says anything. */
  lemma FirstDataIsOf(ask: Asking, results: seq<Scr>, identifier: string)
    ensures var first := FirstData(DeliveredFor(ask, results), identifier);
            && (first.Some? <==> SomeNames(ask, results, identifier))
            && (first.Some? ==>
                  exists h :: h in Hashes(results) && Names(ask(h), identifier) && DataOf(ask(h), identifier) == first)
  {
    var txs := DeliveredFor(ask, results);
    var first := FirstData(txs, identifier);
    if first.Some? {
      var k :| 0 <= k < |txs| && DataIn(txs[k], identifier) == first;
      DeliveredIsOf(ask, results, txs[k]);
    }
    forall h | h in Hashes(results) && Names(ask(h), identifier) ensures first.Some? {
      DeliveredHas(ask, results, h);
    }
  }

  /** The identifier that a failure of some result is looked up under. */
  ghost function Deciding(ask: Asking, results: seq<Scr>): string {
    if SomeNames(ask, results, VM_ERRORS) then VM_ERRORS else SIGNAL_ERROR
  }

  /** A failure that the own log does not report is named after the first result that names the deciding
      identifier. */
  lemma ReasonIsFirstData(tx: Transaction, ask: Asking, results: seq<Scr>)
    requires !MentionsFailure(tx.logs)
    ensures var first := FirstData(DeliveredFor(ask, results), Deciding(ask, results));
            ReasonOf(tx, DeliveredFor(ask, results)) == if first.Some? then first.value else ""
  {
    var scrs := DeliveredFor(ask, results);
    FirstDataIsOf(ask, results, VM_ERRORS);
    ReasonWithoutOwn(tx, scrs);
  }

  lemma ReasonWithoutOwn(tx: Transaction, scrs: seq<Transaction>)
    requires !MentionsFailure(tx.logs)
    ensures var internal, signalled := FirstData(scrs, VM_ERRORS), FirstData(scrs, SIGNAL_ERROR);
            ReasonOf(tx, scrs) ==
            if internal.Some? then internal.value else if signalled.Some? then signalled.value else ""
  {
    assert ([tx] + scrs)[1..] == scrs && ([tx] + scrs)[0] == tx;
    FindIsFirstData([tx] + scrs, VM_ERRORS);
    FindIsFirstData([tx] + scrs, SIGNAL_ERROR);
  }

  /** All results that name the deciding identifier say the same under it. */
  ghost predicate ReasonsAgree(ask: Asking, results: seq<Scr>) {
    forall h, h' :: h in Hashes(results) && h' in Hashes(results)
                    && Names(ask(h), Deciding(ask, results)) && Names(ask(h'), Deciding(ask, results)) ==>
      DataOf(ask(h), Deciding(ask, results)) == DataOf(ask(h'), Deciding(ask, results))
  }

  /** The results with a certain one in front. */
  lemma HashInFront(results: seq<Scr>, ask: Asking, h: string) returns (fronted: seq<Scr>)
    requires h in Hashes(results) && ask(h).Delivered?
    ensures Rearranged(fronted, results)
    ensures var scrs := DeliveredFor(ask, fronted); scrs != [] && scrs[0] == ask(h).tx
  {
    var k :| 0 <= k < |results| && results[k].hash == h;
    var rest := results[..k] + results[k + 1..];
    fronted := [results[k]] + rest;
    assert results == results[..k] + [results[k]] + results[k + 1..];
    DeliveredFirst(ask, results[k], rest);
  }

  lemma FrontIsNamed(tx: Transaction, ask: Asking, h: string) returns (fronted: seq<Scr>)
    requires !MentionsFailure(tx.logs) && h in Hashes(tx.results) && Names(ask(h), Deciding(ask, tx.results))
    ensures Rearranged(fronted, tx.results)
    ensures Some(ReasonOf(tx, DeliveredFor(ask, fronted))) == DataOf(ask(h), Deciding(ask, tx.results))
  {
    fronted := HashInFront(tx.results, ask, h);
    RearrangedHashes(fronted, tx.results);
    assert Deciding(ask, fronted) == Deciding(ask, tx.results);
    ReasonIsFirstData(tx, ask, fronted);
  }

  lemma SameReason(tx: Transaction, ask: Asking, results: seq<Scr>)
    requires Rearranged(results, tx.results) && !MentionsFailure(tx.logs) && ReasonsAgree(ask, tx.results)
    ensures ReasonOf(tx, DeliveredFor(ask, results)) == ReasonOf(tx, DeliveredFor(ask, tx.results))
  {
    RearrangedHashes(results, tx.results);
    var deciding := Deciding(ask, tx.results);
    assert Deciding(ask, results) == deciding;
    ReasonIsFirstData(tx, ask, results);
    ReasonIsFirstData(tx, ask, tx.results);
    FirstDataIsOf(ask, results, deciding);
    FirstDataIsOf(ask, tx.results, deciding);
  }

  /** The reason is the same for every order of the results, exactly when the transaction's own log decides it or
      all results that could be named first say the same. */
  lemma ReasonIsOneExactly(tx: Transaction, ask: Asking)
    ensures (forall results :: Rearranged(results, tx.results) ==>
                               ReasonOf(tx, DeliveredFor(ask, results)) == ReasonOf(tx, DeliveredFor(ask, tx.results)))
            <==> MentionsFailure(tx.logs) || ReasonsAgree(ask, tx.results)
  {
    if MentionsFailure(tx.logs) {
      assert [tx.logs][0] == tx.logs;
      assert FailureIn([tx.logs]).Some?;
    } else if ReasonsAgree(ask, tx.results) {
      forall results | Rearranged(results, tx.results)
        ensures ReasonOf(tx, DeliveredFor(ask, results)) == ReasonOf(tx, DeliveredFor(ask, tx.results))
      {
        SameReason(tx, ask, results);
      }
    } else {
      var deciding := Deciding(ask, tx.results);
      var h, h' :| h in Hashes(tx.results) && h' in Hashes(tx.results)
                   && Names(ask(h), deciding) && Names(ask(h'), deciding)
                   && DataOf(ask(h), deciding) != DataOf(ask(h'), deciding);
      var a := FrontIsNamed(tx, ask, h);
      var b := FrontIsNamed(tx, ask, h');
    }
  }

  // ----- The reason in the fields of the logs -----

  lemma {:induction false} FindAt(events: seq<Event>, identifier: string, j: nat)
    requires j < |events| && events[j].identifier == identifier
    requires forall k :: 0 <= k < j ==> events[k].identifier != identifier
    ensures FindInEvents(events, identifier) == Some(events[j].data)
  {
    if j > 0 {
      FindAt(events[1..], identifier, j - 1);
    }
  }

  lemma {:induction false} FirstDataAt(txs: seq<Transaction>, identifier: string, i: nat)
    requires i < |txs| && DataIn(txs[i], identifier).Some?
    requires forall k :: 0 <= k < i ==> DataIn(txs[k], identifier).None?
    ensures FirstData(txs, identifier) == DataIn(txs[i], identifier)
  {
    if i > 0 {
      FirstDataAt(txs[1..], identifier, i - 1);
    }
  }

  /** The transaction's own log names the reason if it can: the first internal error in it, or else the first
      signalled one. */
  lemma OwnReasonInFull(tx: Transaction, scrs: seq<Transaction>, identifier: string, j: nat)
    requires tx.logs.Some? && j < |tx.logs.value.events|
    requires var events := tx.logs.value.events;
             && events[j].identifier == identifier
             && (forall k :: 0 <= k < j ==> events[k].identifier != identifier)
             && (|| identifier == "internalVMErrors"
                 || (identifier == "signalError"
                     && forall k :: 0 <= k < |events| ==> events[k].identifier != "internalVMErrors"))
    ensures ReasonOf(tx, scrs) == tx.logs.value.events[j].data
  {
    FindAt(tx.logs.value.events, identifier, j);
    assert [tx.logs][1..] == [];
  }

  /** Otherwise the results name it, taken in their order: the first internal error in the first log that has one,
      or else the first signalled error in the first log that has one. */
  lemma ResultReasonInFull(tx: Transaction, scrs: seq<Transaction>, identifier: string, i: nat, j: nat)
    requires tx.logs.Some? ==> forall e :: e in tx.logs.value.events ==>
               e.identifier != "internalVMErrors" && e.identifier != "signalError"
    requires i < |scrs| && scrs[i].logs.Some? && j < |scrs[i].logs.value.events|
    requires var events := scrs[i].logs.value.events;
             events[j].identifier == identifier && forall k :: 0 <= k < j ==> events[k].identifier != identifier
    requires forall k, e :: 0 <= k < i && scrs[k].logs.Some? && e in scrs[k].logs.value.events ==>
               e.identifier != identifier
    requires || identifier == "internalVMErrors"
             || (identifier == "signalError"
                 && forall k, e :: 0 <= k < |scrs| && scrs[k].logs.Some? && e in scrs[k].logs.value.events ==>
                   e.identifier != "internalVMErrors")
    ensures ReasonOf(tx, scrs) == scrs[i].logs.value.events[j].data
  {
    forall k | 0 <= k < i ensures DataIn(scrs[k], identifier).None? {
      NotNamed(scrs[k], identifier);
    }
    FindAt(scrs[i].logs.value.events, identifier, j);
    FirstDataAt(scrs, identifier, i);
    if identifier == "signalError" {
      forall k | 0 <= k < |scrs| ensures DataIn(scrs[k], "internalVMErrors").None? {
        NotNamed(scrs[k], "internalVMErrors");
      }
    }
    ReasonFromResults(tx, scrs, identifier);
  }

  lemma NotNamed(tx: Transaction, identifier: string)
    requires tx.logs.Some? ==> forall e :: e in tx.logs.value.events ==> e.identifier != identifier
    ensures DataIn(tx, identifier).None?
  {
  }

  lemma ReasonFromResults(tx: Transaction, scrs: seq<Transaction>, identifier: string)
    requires !MentionsFailure(tx.logs) && FirstData(scrs, identifier).Some?
    requires identifier == VM_ERRORS || (identifier == SIGNAL_ERROR && FirstData(scrs, VM_ERRORS).None?)
    ensures ReasonOf(tx, scrs) == FirstData(scrs, identifier).value
  {
    ReasonWithoutOwn(tx, scrs);
  }

  // ----- The exception occurs -----

  function Plain(processing: string, results: seq<Scr>): Transaction {
    Transaction(SUCCESS, "normal", "1", "", processing, processing, 1, 1, "alice", None, results)
  }

  function ResultOf(hash: string): Scr {
    Scr(hash, "alice", "bob", None, "")
  }

  function AskMoveOrCall(hash: string): Answer {
    Delivered(Plain(if hash == "move" then MOVE_BALANCE else "SCInvoking", []))
  }

  lemma ExampleQuiet(results: seq<Scr>)
    ensures var tx := Plain(RELAYED_V1, results);
            IsRelayedNotarized(tx) && IsOpen(tx) && IsSettled(tx, AskMoveOrCall)
            && !ReportsFailure(tx, AskMoveOrCall) && !IsComplete(tx, AskMoveOrCall)
  {
    StatusesDiffer();
    DescriptorsDiffer();
    forall h, sign: Sign | !sign.Present? && !sign.MovesBalance? && !sign.Other? ensures !Says(AskMoveOrCall(h), sign) {
      QuietAnswer(h, sign);
    }
  }

  lemma QuietAnswer(h: string, sign: Sign)
    requires !sign.Present? && !sign.MovesBalance? && !sign.Other?
    ensures !Says(AskMoveOrCall(h), sign)
  {
    StatusesDiffer();
  }

  lemma ExampleShows(results: seq<Scr>)
    requires ResultOf("move") in results && ResultOf("call") in results
    ensures Shows(AskMoveOrCall, results, MovesBalance) && Shows(AskMoveOrCall, results, Other)
  {
    DescriptorsDiffer();
    assert ResultOf("move").hash in Hashes(results) && ResultOf("call").hash in Hashes(results);
    assert Says(AskMoveOrCall("move"), MovesBalance) && Says(AskMoveOrCall("call"), Other);
  }

  lemma ExampleStatus(first: Scr, second: Scr)
    requires ResultOf("move") in [first, second] && ResultOf("call") in [first, second]
    ensures StatusOf(Plain(RELAYED_V1, [first, second]), AskMoveOrCall) ==
            if first == ResultOf("move") then SUCCESS else PENDING
  {
    var tx := Plain(RELAYED_V1, [first, second]);
    ExampleQuiet(tx.results);
    ExampleShows(tx.results);
    DeliveredFirst(AskMoveOrCall, first, [second]);
    assert [first] + [second] == tx.results;
    FirstDecides(tx, AskMoveOrCall, tx.results);
    DescriptorsDiffer();
  }

  /** A relayed transaction with a move of balance and a contract call among its results succeeds or stays
      pending as the one or the other comes first. */
  lemma OrderCanDecide()
    ensures var move, call := ResultOf("move"), ResultOf("call");
            && StatusOf(Plain(RELAYED_V1, [move, call]), AskMoveOrCall) == SUCCESS
            && StatusOf(Plain(RELAYED_V1, [call, move]), AskMoveOrCall) == PENDING
  {
    DescriptorsDiffer();
    ExampleStatus(ResultOf("move"), ResultOf("call"));
    ExampleStatus(ResultOf("call"), ResultOf("move"));
  }

  lemma DescriptorsDiffer()
    ensures RELAYED_V1 != MOVE_BALANCE && RELAYED_V1 != RELAYED_V3 && "SCInvoking" != MOVE_BALANCE
    ensures "normal" != UNSIGNED && "call" != "move" && "1" != "0"
  {
    assert RELAYED_V1[0] == 'R' && MOVE_BALANCE[0] == 'M' && "SCInvoking"[0] == 'S';
    assert |RELAYED_V1| == 9 && |RELAYED_V3| == 11 && |"normal"| == 6 && |UNSIGNED| == 8;
    assert "call"[0] == 'c' && "1"[0] == '1';
  }

  function Failing(data: string): Transaction {
    Plain("", []).(logs := Some(ApiLog("alice", [Event(SIGNAL_ERROR, data, "")])))
  }

  function AskFailing(hash: string): Answer {
    Delivered(Failing(hash))
  }

  lemma FailingNames(hash: string)
    ensures DataIn(Failing(hash), SIGNAL_ERROR) == Some(hash) && DataIn(Failing(hash), VM_ERRORS) == None
  {
    var events := Failing(hash).logs.value.events;
    assert SIGNAL_ERROR[0] == 's' && VM_ERRORS[0] == 'i';
    assert events == [events[0]] && events[1..] == [];
  }

  lemma FirstFailureIsNamed(first: string, rest: seq<Scr>)
    ensures ReasonOf(Plain("", []), DeliveredFor(AskFailing, [ResultOf(first)] + rest)) == first
  {
    var results := [ResultOf(first)] + rest;
    forall h ensures !Names(AskFailing(h), VM_ERRORS) {
      FailingNames(h);
    }
    FailingNames(first);
    DeliveredFirst(AskFailing, ResultOf(first), rest);
    ReasonIsFirstData(Plain("", []), AskFailing, results);
  }

  /** Two failing results give the one reason or the other, as they come. */
  lemma OrderCanName()
    ensures var a, b := ResultOf("out of gas"), ResultOf("wrong sender");
            && ReasonOf(Plain("", []), DeliveredFor(AskFailing, [a, b])) == "out of gas"
            && ReasonOf(Plain("", []), DeliveredFor(AskFailing, [b, a])) == "wrong sender"
  {
    var a, b := ResultOf("out of gas"), ResultOf("wrong sender");
    FirstFailureIsNamed("out of gas", [b]);
    FirstFailureIsNamed("wrong sender", [a]);
    assert [a] + [b] == [a, b] && [b] + [a] == [b, a];
  }
}
