# Verified model of the proxy's algorithms

The proxy forwards requests to observer nodes of a sharded network. This project models, in Dafny, the parts of
it that hold algorithms and state of their own, and proves what they keep over every input, run and
interleaving. Check it with `dafny verify dfyconfig.toml` (Dafny 4.11).

| Part | Files | Main results |
|---|---|---|
| Collecting smart-contract results across shards | `ScResults.dfy`, `ScrCollection.dfy`, `TxLookup.dfy` | the worklist loop ends for arbitrary observers and computes the least fixpoint; whole lookups are confluent under every map order |
| Verdict on a transaction | `TxStatus.dfy` | the status is a declarative verdict on the set of results; exactly when their order matters |
| Observer pool | `NodeLists.dfy`, `NodeHolders.dfy`, `NodeProvider.dfy`, `SyncRound.dfy`, `CacheInterleaving.dfy` | every shard is served, by exactly the nodes configured, after any run; the cache agrees with the plain filter under every interleaving; rounds conserve nodes |
| Round robin | `RoundRobin.dfy`, `RotationRuns.dfy` | fairness in every window of calls, under every interleaving, up to whole runs of the provider |
| Circuit breaker and its manager | `CircuitBreaker.dfy`, `BreakerManager.dfy` | the counters can be read off what was seen from outside; exact conditions for the half-open trap; cleanup is a bisimulation |
| Transaction cost | `TxCost.dfy` | the two parallel lists stay aligned for every response tree; the wrapped total is exact modulo 2^64 |
| Query options and token supply | `Numerals.dfy`, `QueryOptions.dfy`, `EsdtSupply.dfy` | round trips; conservation of the supply |

How the code's features appear:

- Code that updates state in place is a class with methods, each proved against a function or predicate on values;
  the results over histories are lemmas about those functions.
- Map iteration, which Go leaves unordered, is an arbitrary choice at every step (`var k :| k in pending`), also
  where the loop inserts into the map it walks. What is proved holds for every order.
- The world outside is arbitrary. Observers give any answer to any question about results, and a log records every
  question; other answers, node statuses, the shard of an address and the key of an event are arbitrary functions.
  A result that needs more, such as answers that do not depend on the hash asked with, says so.
- Machine arithmetic is written out where it can matter: 64-bit wrapping in gas sums, nonce differences and
  durations, saturating time differences, 32-bit position counters.
- Locks are held across the sections that are modelled as one step. `CacheInterleaving.dfy` splits a getter into
  its two lock sections and interleaves them with everything else.
- Times are nanoseconds since the zero time of Go's `time.Time`, which is where a new breaker's last failure is.

Where the code falls short of what one may expect, the condition is exact:

- A breaker that allows fewer half-open calls than it needs successes can get stuck for good
  (`HalfOpenRejectionExactly`, `StuckForever`). With no half-open calls allowed, `CanExecute` is no promise
  (`CanExecuteIsAPromise`), and a rejection can change the breaker (`RejectionLeavesNoTrace`).
- The status of a notarized relayed transaction of version 1 or 2 can depend on the order of its results
  (`OrderMattersExactly`, `OrderCanDecide`), which the union of results leaves unspecified.
- So can the reason of a failure that the transaction's own log does not report (`ReasonIsOneExactly`,
  `OrderCanName`).
- CIRCUIT_BREAKER_IMPLEMENTATION.md describes tracking of unreachable nodes; no code ever clears the flag
  `IsReachable`, so every node stays reachable and the last resort for unreachable nodes is never used. The model
  follows the code.

`Clean` in `TxCost.dfy` spells out the answers for which the exact total is claimed: no response carries a return
message, every executed result is answered, and no result that comes back from an execution has a hash that the
response it is merged into has already. The alignment of the two lists and the unreachability of the error
branches are claimed for all answers.

Facts whose names end in `InFull` or `Exactly` say what an operation does in the fields, flags and literals of its
inputs, without the notions that the other results are stated in.

## Model

The first 33 rows are the main results; the others are the operations they rest on and the facts beside them.

| member | source | states |
|---|---|---|
| `ScrCollection.FetchScrsBasedOnShardMap` | process/transactionProcessor.go:838-861 | terminates for arbitrary answers; of the questions that the observers' log gains no two go to one shard, and those answered go to exactly the shards newly fetched; no result is lost and none invented; success leaves every known shard fetched and, if any was to be fetched, the shards of all results' addresses known; an error means that the last question found no observers |
| `ScrCollection.CollectsTheLeastFixpoint` | process/transactionProcessor.go:838-861 | when answers do not depend on the hash asked with and hashes fix addresses, the shards known at the end are the least set closed under learning from answers |
| `ScrCollection.CollectionIsConfluent` | process/transactionProcessor.go:838-861 | any two runs over the same observers, whatever the map orders and the order of the results they start from, agree on failing, on the shards, on the result hashes and on every result's event keys |
| `TxLookup.GetTxFromObservers` | process/transactionProcessor.go:725-826 | a transaction is returned only with all known shards fetched, among them its own sender and receiver shards and the sender and receiver shards of every result; when results are wanted, those of the first answer and of its other shard are not lost; no shard is asked for results twice; the first shard that has it decides; not found iff no shard has it |
| `TxLookup.LookupIsConfluent` | process/transactionProcessor.go:725-826 | any two whole lookups of a transaction over the same observers end alike, whatever the map orders: in the same error, or with the same transaction, result hashes, event keys and known shards |
| `ScResults.GetScResultsUnion` | process/transactionProcessor.go:1020-1040 | every hash once; its events are those of all its occurrences, its log address that of the first log, its other fields those of the last occurrence |
| `ScResults.UnionIsASemilattice` | process/transactionProcessor.go:1020-1040 | up to event keys the union is idempotent and independent of order and grouping |
| `TxStatus.ComputeTransactionStatus` | process/transactionProcessor.go:429-514 | the status equals the declarative verdict, which never looks at positions of results except for relayed transactions (`SuccessInFull`, `FailureInFull` and `UnknownInFull` give it in the fields of the transactions); the reason is empty unless a failure event decided |
| `TxStatus.SuccessInFull` | process/transactionProcessor.go:429-514 | success iff the transaction succeeded and is decided by itself, or all its results are there and finished, no failure is reported, a relayed one has a result, and a completion is logged or stood in for |
| `TxStatus.OrderMattersExactly` | process/transactionProcessor.go:640-665 | over all orders of the results the status is the same iff it is not the case that a notarized relayed transaction, undecided otherwise, has a delivered result that moves balance and one that does not |
| `TxStatus.StatusIgnoresTheWalk` | process/transactionProcessor.go:725-861 | hence two whole lookups of such a transaction, whatever the order in which they walk their maps, lead to the same status |
| `TxStatus.ReasonIsOneExactly` | process/transactionProcessor.go:667-694 | the reason is the same for all orders of the results iff the own log reports the failure or all delivered results whose log has the deciding identifier (an internal error if any has one, else a signalled error) give the same data for it |
| `SyncRounds.Run` | process/baseProcessor.go:574-598 | after any rounds, accepted reloads and requests the pool holds exactly the nodes configured in the list taken over last, and serves every shard of that list for both availabilities by its first non-empty tier; without reloads the shards and the nodes are the very same objects |
| `SyncRounds.UpdateNodesWithSync` | process/baseProcessor.go:574-578 | a round keeps each shard's nodes as a multiset in each holder, now kind by kind, and marks a node as synced iff it answered with code 200, is ready for VM queries, and its probable highest nonce is below its nonce + 10 |
| `SyncRounds.SyncedExactly` | process/baseProcessor.go:600-641 | despite the wrapping subtraction: synced iff fetched with 200, VM queries ready and probable highest nonce below nonce + 10 over the natural numbers |
| `CacheInterleaving.CacheAgreesUnderInterleaving` | observer/holder/nodesHolder.go:111-138 | under every interleaving of getters, flag changes and write-backs, each answer is the plain filter at the step that gives it, by the flags before the rewriting if a round is rewriting them |
| `CacheInterleaving.NodesConserved` | process/baseProcessor.go:574-598 | under every such interleaving each shard keeps its nodes as a multiset |
| `NodeProviders.PartArranged` | observer/holder/nodesHolder.go:230-248 | interleaved, split and regrouped, a shard's nodes come out as the ordinary ones in configuration order followed by the fallback ones |
| `NodeProviders.NodeProvider.EveryShardIsServed` | observer/baseNodeProvider.go:189-242 | in every valid pool each configured shard has a non-empty choice for both availabilities, all reachable, all of that shard, none snapshotless for historical data |
| `RoundRobin.EveryNodeLeads` | observer/circularQueueNodesProvider.go:38-55 | in any window of w calls for a list of n nodes each leads w / n times, rounded down or up, under any interleaving |
| `RoundRobin.EveryNodeTakesEveryPlace` | observer/circularQueueNodesProvider.go:38-55 | over n consecutive calls the nodes at any one place of the rotated lists are the nodes of the list, each as often as in there |
| `RotationRuns.ServedFairly` | observer/circularQueueNodesProvider.go:38-55 | over such a run of the provider, while the first tier found for the shard stays the same, every answer is a permutation of it, and in any window of w answers every node is at every place w / n times, rounded down or up, for each time it is among the n nodes |
| `BreakerHistories.CountersReadOffTheLog` | common/circuitbreaker.go:129-157 | what the counters are, said of the log: closed counts trailing failures, half-open counts trailing successes, open remembers when the failure that opened it returned |
| `BreakerHistories.RejectionLeavesNoTrace` | common/circuitbreaker.go:49-70 | in all reachable states a rejected call leaves the breaker as it was, iff at least one half-open call is configured; otherwise the rejection itself can move an open breaker to half-open |
| `BreakerHistories.NothingRunsBeforeRecovery` | common/circuitbreaker.go:53-62 | after a failure opens the breaker, the next function to run without a reset starts more than the recovery timeout after that failure |
| `BreakerHistories.CanExecuteIsAPromise` | common/circuitbreaker.go:86-102 | permission at an instant means that any later uninterrupted call runs the function, in all reachable states, iff at least one half-open call is configured |
| `BreakerHistories.HalfOpenRejectionExactly` | common/circuitbreaker.go:64-70 | the half-open rejection can occur iff fewer half-open calls are allowed than successes are needed (at least one is), and exactly then some history leaves the breaker stuck |
| `BreakerHistories.RecoveryTakesExactlyTheThreshold` | common/circuitbreaker.go:129-142 | with enough half-open calls, a run of successes after recovery closes an open breaker iff it has as many as the success threshold (taken as at least one) |
| `BreakerManagers.CleanupIsInvisible` | common/circuitbreaker_manager.go:145-165 | dropping every cleanup from any history of a manager changes none of its answers |
| `BreakerManagers.ObserversAreIndependent` | common/circuitbreaker_manager.go:65-70 | an observer's breaker is the one its own calls and resets lead to, whatever other observers and cleanups do |
| `TxCost.TransactionCostProcessor.ResolveCostRequest` | process/txcost/transactionCostProcessor.go:55-90 | resolves iff the addresses decode and the shards needed answer; a message of the source shard ends the request; with results that stay in the destination shard and a source shard that objects to nothing the cost is the destination's own; for clean answers in general it is all response costs without the source's own, less all executed gas limits, modulo 2^64; a longer exchange gives its first message instead, with cost zero |
| `QueryOptions.BuildAccountQuery` | common/options.go:137-165 | what the query says under each parameter name; parsing it gives the options back without the forced shard, for every address, and the same data availability |
| `EsdtSupply.GetEsdtSupply` | process/esdtSupplyProcessor.go:41-75 | for a fungible token the supply parses to the sum over the shards plus the initial supply, which is not added when some shard recomputed |
| `Breakers.CircuitBreaker.Call` | common/circuitbreaker.go:49-83 | one call changes all five fields and answers exactly as the value-level step does, which the history theorems are about |
| `Breakers.CircuitBreaker.RecordSuccess` | common/circuitbreaker.go:129-142 | the whole new state after a success |
| `Breakers.CircuitBreaker.RecordFailure` | common/circuitbreaker.go:144-157 | the whole new state after a failure; the failure time is when the function returned |
| `Breakers.CircuitBreaker.CanExecute` | common/circuitbreaker.go:86-102 | answers the permission rule, which `PermissionExactly` compares with the next call, and changes nothing |
| `Breakers.CircuitBreaker.Reset` | common/circuitbreaker.go:119-127 | closes the breaker and clears the counters; the last failure time stays |
| `BreakerHistories.InvariantAlways` | common/circuitbreaker.go:54-70 | in every reachable state, for every configuration: the failure count never exceeds the threshold (taken as at least one) and equals it iff the breaker is not closed; half-open calls equal counted successes; both are zero outside half-open |
| `BreakerHistories.LogDeterminesState` | common/circuitbreaker.go:129-157 | two histories with the same log of runs, rejections and resets lead to the same breaker, in every field |
| `BreakerHistories.PermissionExactly` | common/circuitbreaker.go:86-102 | in every state, permission at an instant is given iff a call at that instant runs the function, or the breaker is open, recovered, and no half-open calls are allowed |
| `BreakerHistories.CallInFull` | common/circuitbreaker.go:53-70 | which call is rejected, and how, with the timeout in seconds |
| `BreakerHistories.RunInFull` | common/circuitbreaker.go:129-157 | when a run leaves the breaker open, half-open or closed |
| `BreakerHistories.DurationInFull` | common/circuitbreaker.go:55 | the timeout is its seconds in nanoseconds, reduced to 64 signed bits, and exact up to 292 years |
| `BreakerHistories.StuckForever` | common/circuitbreaker.go:64-70 | a half-open breaker out of calls rejects every call at every instant, unchanged, until it is reset |
| `BreakerManagers.CircuitBreakerManager.GetBreaker` | common/circuitbreaker_manager.go:30-52 | creates a closed breaker on first use and never changes another; gives none while disabled |
| `BreakerManagers.CircuitBreakerManager.AskCanExecute` | common/circuitbreaker_manager.go:55-62 | answer and new state of all breakers; asking creates the breaker |
| `BreakerManagers.CircuitBreakerManager.RunGuarded` | common/circuitbreaker_manager.go:65-91 | answer and new state of all breakers for a guarded run |
| `BreakerManagers.CircuitBreakerManager.ResetOne` | common/circuitbreaker_manager.go:114-127 | resets the one breaker if it exists, creates none |
| `BreakerManagers.CircuitBreakerManager.ResetAllBreakers` | common/circuitbreaker_manager.go:130-142 | resets every breaker once, in any map order |
| `BreakerManagers.CircuitBreakerManager.CleanupStaleBreakers` | common/circuitbreaker_manager.go:145-165 | deletes exactly the stale breakers, in any map order, while the map is being walked |
| `BreakerManagers.SimilarRuns` | common/circuitbreaker_manager.go:145-165 | the bisimulation behind it: similar managers, one cleaned up and one not, answer alike on every future |
| `BreakerManagers.DisabledInFull` | common/circuitbreaker_manager.go:55-91 | while disabled, a manager runs and allows everything and changes nothing |
| `BreakerManagers.CleanupInFull` | common/circuitbreaker_manager.go:145-165 | a cleanup drops exactly the breakers that are closed, count no failure and failed last more than ten timeouts ago |
| `ScResults.MergeEvents` | process/logsevents/logsMerger.go:54-63 | the map afterwards has exactly the old keys and the keys of the log's events |
| `ScResults.EventsMapToSlice` | process/logsevents/logsMerger.go:65-72 | lists every event of the map once |
| `ScResults.MergeLogEvents` | process/logsevents/logsMerger.go:35-52 | the merged log has exactly the event keys of both logs, under the first address; an absent log is the identity |
| `ScResults.SameEvents` | process/logsevents/logsMerger.go:54-63 | when event keys do not collide, agreement on keys is agreement on events |
| `ScResults.UnionInFull` | process/transactionProcessor.go:1020-1040 | index by index: a result of the union is the last occurrence of its hash but for its log, whose address is that of the first log among the occurrences |
| `ScResults.UnionEventsInFull` | process/transactionProcessor.go:1020-1040 | its log has an event of a key iff the log of some occurrence has |
| `ScResults.UnionHasAll` | process/transactionProcessor.go:1020-1040 | no hash is lost |
| `ScrCollection.ExtraShardsFromScrs` | process/transactionProcessor.go:899-933 | learns the shard of every sender that decodes and of every receiver behind such a sender, and no other; known entries do not change; each new entry is unfetched and carries the hash of a result that names the shard |
| `ScrCollection.AskUnfetchedShards` | process/transactionProcessor.go:840-855 | one walk over the map in any order: asks each unfetched shard with the hash it is known under, and stops at the first that has no observers |
| `ScrCollection.Observers.Ask` | process/transactionProcessor.go:873-897 | an arbitrary answer, written down with the question |
| `ScrCollection.AskedInFull` | process/transactionProcessor.go:838-861 | the questions of a run: no shard twice, each with the hash its shard is known under and none to a shard fetched before; all answered but the one that ends a failing run; a run that ends well has asked every shard not fetched before |
| `ScrCollection.GatheredInFull` | process/transactionProcessor.go:838-861 | every result of the start and of every answer is among the results in the end |
| `ScrCollection.GivenInFull` | process/transactionProcessor.go:838-861 | every result in the end is, in hash and addresses, one of the start or of an answer |
| `ScrCollection.KnownInFull` | process/transactionProcessor.go:899-933 | the shards of all addresses are known after a run that ends well; a shard newly known is that of the sender, or of the receiver behind a sender that decodes, of some occurrence of a result |
| `TxLookup.MergeScResultsFromSourceAndDest` | process/transactionProcessor.go:1003-1018 | with events, the results become the union of both lists and nothing else changes; without, the destination's transaction comes back as it is |
| `TxLookup.AlterTxWithScResultsFromSource` | process/transactionProcessor.go:935-965 | the hashes of both lists are kept, and the source shard is marked as fetched exactly when it was asked and answered |
| `TxLookup.LookUpFrom` | process/transactionProcessor.go:748-822 | on every path that returns a transaction all known shards are fetched and every result's shards are known |
| `TxLookup.BeginningInFull` | process/transactionProcessor.go:748-822 | which transaction is completed and which results it begins with, in terms of the answers of the two shards; the source shard is asked iff results are wanted and there are results or a log |
| `TxLookup.FoundInFull` | process/transactionProcessor.go:748-822 | the transaction found is that of the destination shard, if another shard answered first and the destination has it, otherwise that of the first answer; within one shard and without results nothing is asked |
| `TxLookup.AskedShardsInFull` | process/transactionProcessor.go:748-822 | the transaction's own shards are known in the end, and those that have answered already are not asked again |
| `TxLookup.ResultsInFull` | process/transactionProcessor.go:748-822 | every result it begins with, or that a shard answers with, is among its results in the end |
| `TxLookup.ResultsAreGiven` | process/transactionProcessor.go:748-822 | and there are no others |
| `TxStatus.GatherAllLogsAndScrs` | process/transactionProcessor.go:696-723 | fails iff some result cannot be fetched; otherwise all delivered results and all logs present, in order |
| `TxStatus.FindInEvents` | process/transactionProcessor.go:686-694 | finds data iff some event carries the identifier, and then the data of such an event |
| `TxStatus.FindInLogs` | process/transactionProcessor.go:667-684 | the same over a list of logs, some of which may be absent |
| `TxStatus.FailureIn` | process/transactionProcessor.go:556-568 | a failure is reported iff some log has an internal error or a signalled error |
| `TxStatus.CompletedIn` | process/transactionProcessor.go:570-578 | completion is reported iff some log has a completion or a deployment |
| `TxStatus.VerdictsAreDisjoint` | process/transactionProcessor.go:429-514 | success, failure, unknown and pending exclude each other, and cover every transaction that itself succeeded |
| `TxStatus.DecidedByItselfExactly` | process/transactionProcessor.go:580-588 | a transaction that succeeded is decided without its results iff both nonces are positive and both descriptors are MoveBalance |
| `TxStatus.FailureInFull` | process/transactionProcessor.go:429-514 | failure iff the transaction says so itself, or succeeded without being decided by itself, all results are there and finished, and a failure is logged or a failing message given |
| `TxStatus.UnknownInFull` | process/transactionProcessor.go:429-514 | unknown iff the transaction says so itself, or succeeded without being decided by itself and a result cannot be fetched, or a relayed one has no result and no failure of its own |
| `TxStatus.OwnStatusInFull` | process/transactionProcessor.go:437-444 | a transaction that did not succeed keeps its status, but an invalid one has failed |
| `TxStatus.HalfNotarizedSuccess` | process/transactionProcessor.go:580-588 | with either nonce zero, success needs a logged completedTxEvent or SCDeploy, or an unsigned transaction |
| `TxStatus.MessageExcludesSuccess` | process/transactionProcessor.go:527-554 | a delivered result of no value with a message other than the refund excludes success, unless the transaction is decided by itself |
| `TxStatus.SignsInFull` | process/transactionProcessor.go:516-578 | what counts as in progress, failed, failing by message, complete and moving balance, in fields and literals |
| `TxStatus.DeliveredSnoc` | process/transactionProcessor.go:696-723 | the transactions delivered are those of the results delivered, in their order |
| `TxStatus.OwnReasonInFull` | process/transactionProcessor.go:556-568 | the reason is the data of the first internal error in the transaction's own log, or else of the first signalled one |
| `TxStatus.ResultReasonInFull` | process/transactionProcessor.go:667-694 | if the own log has neither, it is that of the first internal error in the first delivered log that has one, or else of the first signalled one |
| `TxStatus.ReasonIsLogged` | process/transactionProcessor.go:556-568 | a reason is the data of a failure event in the transaction's own log or in the log of a delivered result |
| `TxStatus.ReasonIsFirstData` | process/transactionProcessor.go:556-568 | a failure that the own log does not report is named after the first delivered result that has the deciding identifier |
| `TxStatus.OrderCanName` | process/transactionProcessor.go:667-684 | two concrete failing results that give one reason in one order and another in the other |
| `TxStatus.StatusIgnoresOrder` | process/transactionProcessor.go:429-514 | the status depends on the set of result hashes only, unless the transaction is a notarized relayed one of version 1 or 2 |
| `TxStatus.OrderCanDecide` | process/transactionProcessor.go:660-664 | a concrete relayed transaction whose two results give success in one order and pending in the other |
| `NodeHolders.CacheKeyInjective` | observer/holder/nodesHolder.go:158-160 | no two lists share a cache key |
| `NodeHolders.ExactlyOneKind` | observer/holder/nodesHolder.go:140-156 | a node matches exactly the one kind that its flags name |
| `NodeHolders.RegroupedConserves` | observer/holder/nodesHolder.go:130-134 | the four filtered lists together are the nodes, each as often as before |
| `NodeHolders.SelectInFull` | observer/holder/nodesHolder.go:130-156 | a list of a kind is made of the nodes with its flags, in their order |
| `NodeHolders.RegroupedInOrder` | observer/baseNodeProvider.go:91-100 | kind by kind, ordinary nodes come before fallback ones, and among either synced ones before others |
| `NodeHolders.OfShardSnoc` | observer/holder/nodesHolder.go:58-65 | the nodes filed under a shard are those of the shard and the class, in their order |
| `NodeHolders.NodeData.constructor` | observer/holder/nodesHolder.go:220-244 | a clone of the configured node, field by field, synced and reachable |
| `NodeHolders.NodesHolder.constructor` | observer/holder/nodesHolder.go:41-46 | files clones of the regular and then the fallback nodes by shard, each in order, with an empty cache; valid when the nodes are of the holder's class |
| `NodeHolders.NewNodesHolder` | observer/holder/nodesHolder.go:37-47 | fails exactly for two empty lists when historical data is needed |
| `NodeHolders.NodesHolder.GetObservers` | observer/holder/nodesHolder.go:111-138 | answers the plain filter of the shard's nodes, from the cache or not, and leaves nodes and flags alone |
| `NodeHolders.NodesHolder.UpdateNodes` | observer/holder/nodesHolder.go:50-68 | files exactly the nodes of the holder's availability by shard in order and empties the cache; an empty list changes nothing |
| `CacheInterleaving.AnswersInFull` | observer/holder/nodesHolder.go:111-156 | in every run, an answer has exactly the nodes of the shard whose settled flags are those of the kind |
| `NodeLists.ToShardedMap` | observer/baseNodeProvider.go:29-31 | every shard's nodes in their order, and no shard without nodes |
| `NodeLists.FilterInFull` | observer/baseNodeProvider.go:321-358 | a filter by shard or class keeps the nodes that pass, in their order |
| `NodeLists.SortedShardIds` | observer/baseNodeProvider.go:360-370 | the shards of the map in increasing order |
| `NodeLists.InitAllNodesSlice` | observer/baseNodeProvider.go:321-358 | terminates; its four lists are the class filters of the column-major order of all shards |
| `NodeLists.InterleaveThenRegroup` | observer/baseNodeProvider.go:328-355 | a class of the interleaved nodes, looked at shard by shard, is that class of the shard's nodes in configuration order |
| `NodeLists.ClassesPartition` | observer/baseNodeProvider.go:336-349 | the four classes partition any list of nodes |
| `NodeProviders.ArrangedInFull` | observer/holder/nodesHolder.go:230-248 | one more configured node at a time: a fallback node of the shard and class goes last, an ordinary one between the ordinary and the fallback ones, any other nowhere |
| `NodeProviders.AcceptedInFull` | observer/baseNodeProvider.go:23-84 | a list is accepted iff it is not empty, every shard is the metachain or in range, and every shard has a node that is not snapshotless |
| `NodeProviders.CheckNodesInShards` | observer/baseNodeProvider.go:69-84 | names a shard without a node of full history, or none if there is no such shard |
| `NodeProviders.NodeProvider.InitNodes` | observer/baseNodeProvider.go:23-67 | accepts exactly the non-empty lists with shards in range and full history in each, and gives every other list its error, with the first node out of range or a shard that lacks history; a rejected list changes nothing; an accepted one is taken over shard by shard, all synced |
| `NodeProviders.NodeProvider.GetNodesByType` | observer/baseNodeProvider.go:229-242 | for recent data the snapshotless nodes of a kind if there are any, otherwise the regular ones |
| `NodeProviders.NodeProvider.GetSyncedNodesForShard` | observer/baseNodeProvider.go:189-227 | by the flags of the nodes: exactly the nodes of one holder that are alike in being synced and fallback, none of them when there is a better kind (synced before not, then ordinary before fallback), snapshotless ones for recent data if there are any of that kind; an error iff the shard is not configured; the any-node last resort is never the one used |
| `NodeProviders.NodeProvider.GetSyncedNodes` | observer/baseNodeProvider.go:271-287 | the chosen nodes of all shards in shard order |
| `SyncRounds.GetAllNodesWithSyncState` | observer/baseNodeProvider.go:87-105 | all nodes, shard by shard and kind by kind, read through the caches |
| `SyncRounds.ReadInOrder` | observer/baseNodeProvider.go:87-105 | the nodes are read by increasing shard, and of each shard those of full history first |
| `SyncRounds.GetNodesWithSyncStatus` | process/baseProcessor.go:584-598 | every node carries the flag its answer calls for; the list is returned as it was |
| `SyncRounds.SplitByAvailability` | observer/baseNodeProvider.go:126-138 | each part keeps its class in order, shard by shard |
| `SyncRounds.WriteBack` | observer/baseNodeProvider.go:108-115 | both holders hold exactly the listed nodes of their class and are coherent again |
| `SyncRounds.Happen` | process/baseProcessor.go:574-582 | one event: only a reload changes which nodes are held, and for which shards |
| `Rotation.WindowIsFair` | observer/mapCounters/mapCounter.go:26-27 | counting modulo n, every residue comes up w / n times in w terms, rounded down or up |
| `RoundRobin.PositionCounts` | observer/mapCounters/mapCounter.go:20-30 | while a list keeps its length its position counts its own calls modulo that length, whatever other lists do |
| `RoundRobin.NeverOverflows` | observer/mapCounters/mapCounter.go:26-27 | the 32-bit increment of a shard's counter never wraps, also when list lengths change |
| `RoundRobin.TurnsNeverOverflow` | observer/mapCounters/mapCounter.go:38-39 | nor does that of the common counter |
| `RoundRobin.NextTurnInFull` | observer/mapCounters/mapCounter.go:32-56 | a request for as many nodes as the last one moves on by one modulo that number, any other starts anew |
| `RoundRobin.LastTurn` | observer/mapCounters/mapCounter.go:51-56 | the number compared with is that of the request before |
| `RoundRobin.EveryNodeLeadsAll` | observer/circularQueueNodesProvider.go:58-75 | the same fairness for the rotation over all nodes while their number stays the same, after any earlier requests |
| `RoundRobin.EveryNodeTakesEveryPlaceAll` | observer/circularQueueNodesProvider.go:58-75 | and every node takes every place |
| `Rotation.PlaceIsRotation` | observer/circularQueueNodesProvider.go:52 | positions that count up modulo the length make the elements at any one place a rotation of the list |
| `RoundRobin.MapCounter.ComputePositionForShard` | observer/mapCounters/mapCounter.go:20-30 | the shard's counter moves on by one modulo the length, the others stay |
| `RoundRobin.MapCounter.ComputePositionForAllNodes` | observer/mapCounters/mapCounter.go:32-42 | moves on by one, from zero when the number of nodes changed |
| `RoundRobin.MapCountersHolder.ComputeShardPosition` | observer/mapCounters/mapCountersHolder.go:36-47 | an error iff there is nothing to rotate; availabilities do not disturb each other |
| `RoundRobin.MapCountersHolder.ComputeAllNodesPosition` | observer/mapCounters/mapCountersHolder.go:50-61 | likewise for all nodes |
| `RoundRobin.CircularQueueNodesProvider.GetNodesByShardId` | observer/circularQueueNodesProvider.go:38-55 | the first tier of the shard rotated to its counter's next position |
| `RoundRobin.CircularQueueNodesProvider.GetAllNodes` | observer/circularQueueNodesProvider.go:58-75 | the first tiers of all shards rotated to the common counter's next position |
| `RotationRuns.Serve` | observer/circularQueueNodesProvider.go:38-55 | in any sequence of requests for any shards and of sync rounds, the answers for one shard and availability are its first tiers at the moments of its requests, each rotated to the next position of its own counter |
| `TxCost.TransactionCostProcessor.ProcessResponse` | process/txcost/transactionCostProcessor.go:146-177 | for arbitrary answers the two lists grow together, and for clean ones by exactly the totals of the response tree, in any map order even while results are inserted |
| `TxCost.TransactionCostProcessor.Visit` | process/txcost/transactionCostProcessor.go:157-174 | one result of the walk: executed, marked as used, and what comes back merged in as used |
| `TxCost.TransactionCostProcessor.ProcessScResult` | process/txcost/transactionCostProcessor.go:186-226 | puts a result up for execution iff both addresses decode, it leaves the shard that answered, it is no direct call back to the request's own shard, no metachain result and no bare token transfer, and its fields decode; records its response iff it is answered; otherwise leaves both lists alone |
| `TxCost.TotalOverTake` | process/txcost/transactionCostProcessor.go:157-174 | totals over a map of results do not depend on the order in which it is walked |
| `TxCost.ExecutedInFull` | process/txcost/transactionCostProcessor.go:186-216 | which results are executed, in addresses and shards |
| `TxCost.StayingCost` | process/txcost/transactionCostProcessor.go:186-200 | when no result leaves the destination shard, the cost is the destination's own, or the source's if that reports an unsupported operation |
| `TxCost.OneExecutionCost` | process/txcost/gasUsed.go:18-40 | when one result leaves it and those of its execution stay, the cost is the destination's and the execution's, less the gas limit, modulo 2^64 |
| `TxCost.TransactionCostProcessor.DoCostRequests` | process/txcost/transactionCostProcessor.go:92-116 | source shard first if it is another one, destination next; there is a response iff the source answers with a message or every shard needed answers; what both leave in the lists |
| `TxCost.TransactionCostProcessor.ComputeResponsesGasUsed` | process/txcost/gasUsed.go:18-40 | the wrapped sum of the wrapped differences is the wrapped integer sum; no index is out of range and the error branch is unreachable |
| `TxCost.TransactionCostProcessor.ExtractCorrectResponse` | process/txcost/transactionCostProcessor.go:228-240 | the first unsupported response, otherwise the current one |
| `TxCost.TransactionCostProcessor.PostProcess` | process/txcost/transactionCostProcessor.go:71-89 | the first message of any response replaces the cost; the early return for unsupported operations is unreachable here |
| `TxCost.GasSumIsExpected` | process/txcost/gasUsed.go:21-39 | on clean answers the pairwise differences add up to the difference of the totals |
| `QueryOptions.BuildBlockQuery` | common/options.go:97-113 | parsing gives the block options back |
| `QueryOptions.NamesDiffer` | common/options.go:12-55 | no two parameters share a name |
| `QueryOptions.HistoricalExactly` | common/options.go:127-134 | historical data is needed iff a nonce, an epoch, an epoch hint, a hash or a root hash is given |
| `QueryOptions.ForcedShardInFull` | api/groups/urlParams.go:108-110 | a forced shard is an error for any address but that of the system account |
| `QueryOptions.BlockOptionsInFull` | api/groups/urlParams.go:146-157 | the names under which block options are read, and what counts as true, false and malformed |
| `Numerals.DecimalRoundTrip` | common/options.go:145-148 | reading a printed number gives the number |
| `Numerals.HexRoundTrip` | api/groups/urlParams.go:197-209 | decoding encoded bytes gives the bytes |
| `Numerals.BigRoundTrip` | process/esdtSupplyProcessor.go:118-129 | the same for signed numbers of any size |
| `Numerals.DecimalExample` | common/options.go:145-148 | the digits, and a number written with them |
| `Numerals.BigExamples` | process/esdtSupplyProcessor.go:118-129 | where a sign may stand, and what is no number |
| `Numerals.HexExample` | common/options.go:151-156 | the test vector of RFC 4648 |
| `Numerals.HexReadExamples` | api/groups/urlParams.go:197-209 | either case is read; odd lengths and other characters are errors |
| `EsdtSupply.SumStrAdds` | process/esdtSupplyProcessor.go:118-129 | on the numbers the strings stand for, `sumStr` adds, and a string that is no number gives way |
| `EsdtSupply.SumOfOrder` | process/esdtSupplyProcessor.go:83-110 | the sum does not depend on the order of the shards |
| `EsdtSupply.SumOfTwoShards` | process/esdtSupplyProcessor.go:83-116 | each field is added up on its own, and the metachain says nothing |
| `EsdtSupply.PlusInFull` | process/esdtSupplyProcessor.go:118-129 | numbers add up, and what is none gives way |
| `EsdtSupply.FungibleExactly` | process/esdtSupplyProcessor.go:181-185 | a token is fungible iff its name has no two dashes |
| `EsdtSupply.InitialSupplyInFull` | process/esdtSupplyProcessor.go:143-154 | the initial supply is the fourth value returned, if that is a number, else zero |
| `EsdtSupply.GetSupplyFromShards` | process/esdtSupplyProcessor.go:83-110 | succeeds iff every shard but the metachain answers; totals are the integer sums of what parses; recomputed iff some shard says so |

## Left out

- HTTP, JSON, timeouts, the mapping of status codes and the loops that try one observer after the other: a shard's answer is one value.
- Request handlers, middleware, facade, configuration loading, swagger, mocks and all other wiring.
- Hyperblock building, heartbeats, sending of transactions, the rate limiter and the memory caches: single filters, folds or counters.
- Address decoding, hashing, marshalling: arbitrary functions. The error path of event hashing is not modelled.
- Percent-encoding of queries: a query maps parameters to values.
- An `OptionalUint32` or `OptionalUint64` without a value carries no number in the model.
- `ReloadNodes` with lists that `initNodes` would reject, with its partial effects, and reloads inside a sync round: a reload in a run takes over an accepted list.
- The second provider (full-history nodes) of a processor: a round does to it what it does to the first.
- `append` on shared backing arrays: rotated and concatenated lists are new sequences.
- `getTxWithSenderAddr`, which never enters the collection of results.
- Copying of gas used and fee from the source transaction, logging and printing.
- `GetBreakerStats`, where a cleanup shows as missing rows of closed breakers.
- A guarded function that panics: the half-open call stays counted then, while no success or failure is.
- Calls in flight during a cleanup, and races on the manager's switch: requests to a manager are serial.
- Result answers that change while one verdict is computed: asking is a function of the hash.
- SyncRounds.UpdateNodesWithSync: states the round alone, without concurrent getters; `CacheInterleaving` states what holds with them.
- RotationRuns.Serve: the steps are requests and sync rounds, no reloads: a reload may change every list, and `SyncRounds.Run` says what it leaves.
