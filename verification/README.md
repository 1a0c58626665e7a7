# Verified core of the momentum engine

A Dafny model of the parts of the quantitative momentum engine whose correctness is a matter of
reasoning over whole histories, and proofs of what those parts promise.

| modules | what they model |
|---|---|
| `AccessChain`, `RegistryModel`, `Registry` | the experiment registry: `replay_registry` as a verdict (`Judge`) and an effect per event, folded over any log |
| `RegistryPayload`, `RegistryRules`, `RegistryMeaning` | the same registry told independently: what a payload must say, the ordered rules an event must obey, and the state as queries over the log |
| `RegistryInvariant`, `RegistryTheorems`, `RegistryLineage`, `RegistryGrid`, `RegistryFreeze`, `RegistryConfiguration`, `RegistryHistory` | what every accepted log keeps: witnessed outcomes, dead checks, append-only history, parent chains, exact grid counts, families frozen at their first start, no research twice, a head that pins the log |
| `Replayer` | the same replay as the source runs it, with mutable trials and an index, proved equal to the fold for every log |
| `Store`, `StoreProtocol`, `StoreRequests`, `StoreSerial` | the file store: loading any listing, appending what was requested under a lock, and all interleavings of appenders, publishers, time-outs and crashes |
| `Rounding`, `FixedPoint` | half-even rounding in the two forms the repository has, and the eight-decimal printer and reader |
| `Ledger`, `LedgerPath` | the exact-arithmetic oracle: fills, rebalances, split, dividend, payment, whole paths |
| `WalkForward`, `WalkForwardTheorems`, `WalkForwardChain` | the composed walk-forward run: carry, hash chain, run identity, tables |
| `ImportClosure` | the worklist that looks for reachable transports |
| `JsonPointer`, `Crosswalk` | pointer printing and reading (sections 3 to 5 of RFC 6901), and the crosswalk's entry loop and coverage checks |
| `Basics`, `Sorting` | counting, and a sort by key that is canonical when keys identify elements |

Identifiers, digests, dates and instants are integers. Every digest is an arbitrary function
handed in by the caller; where a result needs it to be free of collisions, `Injective` is a
hypothesis of that result and of no other. `compose_fold` is an arbitrary function.

The verdict of the registry has three outcomes: accept, reject with the reason of the branch that
fired, and `Crash` for an exception that is no rejection (a missing key, an empty list indexed from
the end, a failed assertion). `ReplayNeverCrashes` shows that the third never happens, and that six of
the rejections can never be the one that fires.

Three places where the code does less than it says, all followed as coded:

- The docstring of `ChainLink` (`qme/experiments/composed_walk_forward_v1.py:724-728`) says the chain
  hash binds `predecessor_closing_nav`; `_chain_hash` does not receive it. On whole runs nothing is
  lost: the value is the final value of the predecessor's result, and the result digest that the
  predecessor's own link binds covers it. `HeadPinsTheLinks` proves that equal heads force equal
  recorded values. On records alone something is: `EditIsDetected` proves that recomputing a recorded
  chain against its head detects an edit exactly when it touches ordinal, fold id, state, carried
  identity, result or reasons, predecessor hash or the hash itself, so an edited value passes
  (`ClosingNavEditPasses`) until it is compared with the predecessor's row.
- The plan promises one shared schedule, but `_assert_shared_schedule` does not compare
  `schedule_policies` while `schedule_identity` reads them from the first fold.
  `OrderMattersOnlyForPolicies` proves that listing the folds in another order keeps the run id exactly
  when the two first folds register the same policies; `PoliciesCanSplitTheRunId` is the counterexample.
- The crosswalk's check for duplicated destinations compares spellings, while the reader takes a `~`
  that starts no escape literally. `DestinationsDiffer` proves that the destinations the entry loop lets
  through name pairwise different locations exactly when their repaired spellings are distinct, and
  `DestinationsCanCollide` is an entry list that the loop accepts and that names one location twice. The
  gap is in that check taken alone: the digest of the whole document is compared with a pinned constant
  before the loop, and `AcceptedIsThePinned` proves that no other document is accepted, so what holds of
  the pinned destinations holds of every accepted crosswalk.

## Model

| member | source | states |
|---|---|---|
| `AccessChain.ValidateChain` | qme/experiments/registry.py:1085-1160 | the validator's loop with its dictionary of prior events accepts exactly the chains in which every position is contiguous, monotone, fresh and caused by an earlier event of the right kind with the same request |
| `AccessChain.EveryAccessHasAnAttempt` | qme/experiments/registry.py:1106-1159 | every event of a valid chain descends through strictly earlier parents from an attempt with the same trial, run, window and request content |
| `AccessChain.FirstOfRunIsAttempt` | qme/experiments/registry.py:2146-2154 | the first event of a trial's run in a valid chain is an attempt, so the check for it is dead |
| `AccessChain.ChainHashesDiffer` | qme/experiments/registry.py:2175-2177 | with a collision-free digest no two positions of a valid chain share a hash |
| `AccessChain.SharedAccessSharedPrefix` | qme/experiments/registry.py:1106-1115 | with a collision-free digest two valid chains that share a hash share it at one position and agree on every event up to it, so an access head pins its whole chain |
| `AccessChain.ChainGrows` | qme/experiments/registry.py:1085-1160 | a chain is valid exactly when it was admitted event by event: next number, on top of the head, new id, no earlier than the last event, well formed, and an attempt on its own or caused by the event last filed under the digest it names |
| `Replayer.ValidatePlans` | qme/experiments/registry.py:644-735 | the loop over planned outcomes accepts exactly one plan per cost scenario, distinct ids and artifacts, dictated roles and one shared window set |
| `Replayer.ValidatePolicy` | qme/experiments/registry.py:312-430 | the policy checks, axis by axis and by counting sets, accept exactly the valid policies |
| `Replayer.ValidateWindows` | qme/experiments/registry.py:575-641 | the loop with its sets of identities and ids accepts exactly ordered windows that differ pairwise in both |
| `Replayer.ValidateArtifacts` | qme/experiments/registry.py:812-830 | two comparisons of a set's size with the list's length amount to pairwise different ids and contents within each role, with every required role present |
| `Replayer.ValidateEvent` | qme/experiments/registry.py:1178-1296 | an event is constructed exactly when its payload is valid for its type and its digest is its body's, each payload decided by its own loop |
| `Replayer.ScanStructural` | qme/experiments/registry.py:1970-1997 | the scan finds whether a structural id ever sat elsewhere, and its latest trial by sequence is the last in registration order |
| `Replayer.ScanConfigurations` | qme/experiments/registry.py:1998-2045 | the loop reports the first conflict in registration order, and otherwise the latest trial with the same configuration |
| `Replayer.CollectSuccesses` | qme/experiments/registry.py:2266-2272 | the nested loop over a trial's bindings builds the dictionary of its successes |
| `Replayer.IndexWindows` | qme/experiments/registry.py:2307-2318 | the dictionary from window identity to window id maps exactly the registered windows |
| `Replayer.RelevantChain` | qme/experiments/registry.py:2146-2150 | the events of one run, beginning with the first of that run in the chain |
| `Replayer.Fold.JudgeAccess` | qme/experiments/registry.py:2104-2253 | the access branch over the mutable trial decides as the fold, its lookups of policy and last attempt never missing |
| `Replayer.Fold.JudgeOutcome` | qme/experiments/registry.py:2260-2378 | the outcome branch decides as the fold with plain dictionary selections for both window lookups, the maximum over successes and the last attempt |
| `Replayer.MutableTrial.Start` | qme/experiments/registry.py:2061-2103 | a start supersedes the open attempt of a running trial and appends the new one |
| `Replayer.MutableTrial.End` | qme/experiments/registry.py:2380-2409 | a terminal event closes the last attempt, if any, and fixes status, reason and sequence |
| `Replayer.Fold.IndexFinds` | qme/experiments/registry.py:1842-1843 | the dictionary of trials finds exactly the trial that registration order finds |
| `Replayer.Fold.JudgeRegistration` | qme/experiments/registry.py:1841-2046 | the registration branch over mutable trials decides as the fold's verdict, reason included |
| `Replayer.Fold.Apply` | qme/experiments/registry.py:1781-2414 | one event against the mutable state: verdict and new state are those of the fold, and the invariant is kept |
| `Replayer.ReplayRegistry` | qme/experiments/registry.py:1763-2426 | the whole pass over mutable state returns what the fold defines, for every log |
| `RegistryInvariant.StepKeepsInv` | qme/experiments/registry.py:1781-2414 | every accepted event keeps the global invariant: contiguous chained log, increasing policies, unique trials tied to their policy, lineage, trial life, access chain and witnessed outcomes |
| `RegistryInvariant.ReplayInv` | qme/experiments/registry.py:1763-2426 | the invariant holds of the state of every accepted log |
| `RegistryInvariant.AccessExtended` | qme/experiments/registry.py:2127-2144 | an accepted access binding replaces the acknowledged chain by a strict extension and keeps the access invariant |
| `RegistryInvariant.OutcomeWitnessed` | qme/experiments/registry.py:2260-2379 | an accepted outcome cites only successes of the current run in windows of its plan, and covers all of them |
| `RegistryTheorems.ReplayNeverCrashes` | qme/experiments/registry.py:1763-2426 | no log whatever raises anything but a rejection: the window lookups of the outcome step never miss; and six rejections can never fire (the bound-hash one given a collision-free digest) |
| `RegistryTheorems.OutcomesAreWitnessed` | qme/experiments/registry.py:2104-2379 | in every accepted log an outcome cites exactly access successes of its trial's current run in the windows of its frozen plan, and reports what that plan announced |
| `RegistryTheorems.AccessesAreRegistered` | qme/experiments/registry.py:2179-2256 | in every accepted log each access event names a registered trial, a window and the artifacts frozen at registration, and traces to an attempt |
| `RegistryTheorems.CompletedReportsEveryPlan` | qme/experiments/registry.py:2380-2397 | in every accepted log a completed trial has exactly one outcome for each plan |
| `RegistryTheorems.HistoryIsAppendOnly` | qme/experiments/registry.py:1753-1760 | whatever follows: closed trials never change, outcomes stay with their run, log, chain and policies only grow, and a policy gets no trial once frozen or succeeded |
| `RegistryTheorems.RepeatsChangeNothing` | qme/experiments/registry.py:1787-1792 | inserting an exact repeat of an accepted event anywhere later changes neither result nor state |
| `RegistryTheorems.AcceptedReplays` | qme/experiments/registry.py:2411-2412 | replaying the accepted events alone rebuilds the state |
| `RegistryTheorems.ReplayConcat` | qme/experiments/registry.py:1781-2414 | replaying a concatenation is replaying one part after the other, rejections included |
| `RegistryTheorems.SharedHashSharedPrefix` | qme/experiments/registry.py:1793-1798 | two accepted logs that share an event hash agree on every event up to it |
| `RegistryTheorems.HeadPinsTheLog` | qme/experiments/store.py:332-339 | an accepted log contains another's head if and only if it extends it, and equal heads mean equal states |
| `RegistryPayload.PolicyMeans` | qme/experiments/registry.py:312-430 | a policy is constructed exactly when it names the access contracts and either leaves open what production leaves open or fixes 4, 3, 4 and 2 axis names, three costs and a family of 96 or 288 by its cost role |
| `RegistryPayload.RegistrationMeans` | qme/experiments/registry.py:785-881 | a registration is accepted exactly when windows are dated and told apart by id and identity, artifacts fill every role, and there is one plan per cost, over the same registered windows, selecting where its cost does |
| `RegistryPayload.EventMeans` | qme/experiments/registry.py:1178-1296 | an event is constructed exactly when it is numbered from one, has a sound payload of its kind and carries the digest of its body |
| `RegistryRules.JudgeFollowsTheRules` | qme/experiments/registry.py:1781-2414 | against the state of any accepted log every event is decided by an ordered table of rules over logs, trials, windows and citations, and the rejection is the first rule it breaks |
| `RegistryRules.ReplayFollowsTheRules` | qme/experiments/registry.py:1763-2426 | so a replay extends by exactly the events the rules allow, and reports the first broken rule of any other |
| `RegistryMeaning.StateIsTheLog` | qme/experiments/registry.py:1763-2426 | the state of every accepted log is a set of queries over it: policies and trials in order of registration, each trial with the starts, bindings, outcomes and end the log has for it, the last bound chain and all bound heads |
| `RegistryFreeze.StartFreezes` | qme/experiments/registry.py:2061-2068 | an accepted start leaves the family of its trial frozen |
| `RegistryFreeze.FamilyFreezesAtFirstStart` | qme/experiments/registry.py:1853-1856 | in every accepted log a policy is frozen exactly when one of its trials was started, at the number of the first such start, and all its trials were registered before it |
| `RegistryConfiguration.ConfigurationIsResearch` | qme/experiments/registry.py:884-957 | two registrations have one configuration exactly when they agree on everything but labels, owners, order and ids of windows, plans and artifacts |
| `RegistryConfiguration.NoResearchTwice` | qme/experiments/registry.py:1998-2045 | in every accepted log no two trials of one policy are the same research, however relabelled |
| `RegistryHistory.LogGrowsByTheRules` | qme/experiments/registry.py:1781-2414 | a log is accepted exactly when it is an accepted log and one more event that is new and that the rules allow |
| `RegistryHistory.EveryEventObeyed` | qme/experiments/registry.py:1781-2414 | each event of an accepted log obeyed every rule at its time |
| `RegistryHistory.PoliciesSucceed` | qme/experiments/registry.py:1810-1840 | in every accepted log a later policy raises the version, brings another artifact, and names policy, head and state digest of the log it was decided on |
| `RegistryHistory.PoliciesAreSound` | qme/experiments/registry.py:312-430 | in every accepted log the policies are sound and none has a version below its rank |
| `RegistryHistory.RegistrationsAreSound` | qme/experiments/registry.py:785-881 | in every accepted log the registrations are sound |
| `RegistryHistory.AccessesKeepTheSample` | qme/experiments/registry.py:977-1082 | in every accepted log each access has an ordered range, a success keeps to its analysis date, vintage and sample end, ids differ and times ascend |
| `RegistryHistory.OutcomesKeepTheSample` | qme/experiments/registry.py:2260-2379 | so no outcome rests on data its sample did not allow |
| `RegistryLineage.WalkBack` | qme/experiments/registry.py:1942-1969 | after n parent links a trial's ancestor stands exactly n policies earlier with family and hypothesis unchanged, and the walk ends exactly at the first policy |
| `RegistryLineage.EveryTrialHasARoot` | qme/experiments/registry.py:1942-1969 | in every accepted log each trial walks back to a parentless trial of the first policy |
| `RegistryLineage.EqualKeysAreOneChain` | qme/experiments/registry.py:1970-2045 | in every accepted log trials sharing a configuration digest, or a structural id, form one unbroken parent chain over consecutive policies, at most one per policy |
| `RegistryGrid.FamilyCount` | qme/experiments/registry.py:421-440 | the grid of a valid synthetic policy has exactly 96 cells |
| `RegistryGrid.OnePlanPerCost` | qme/experiments/registry.py:711-735 | a valid registration has exactly one plan for each cost scenario |
| `RegistryGrid.UnitsAreKeys` | qme/experiments/registry.py:1499-1530 | selection units are told apart by structural id and cost alone |
| `RegistryGrid.GridReconciles` | qme/experiments/registry.py:1589-1652 | in every accepted log grid trials sit one-to-one in the grid, nothing is unexpected, exactly 96 less their number is missing, reports are 3 for each of them among 288, off-grid trials block, otherwise the status is complete exactly at 96, and then the selection units number `family_size_m` |
| `RegistryGrid.ProductionIsBlocked` | qme/experiments/registry.py:1589-1652 | in every accepted log a production policy has no trial, and reconciles as blocked |
| `Store.LoadUnlocked` | qme/experiments/store.py:199-235 | the two loops and the replay return the loaded state, or the first error: in listing order while indexing; while reading in sequence order, and of each file size, JSON, object, canonical bytes, payload, name and normal form in that order |
| `Store.LoadsWhen` | qme/experiments/store.py:199-235 | a listing loads exactly when nothing foreign is in it, no two files clash, every file fits and holds the event it is named after, and those events replay in sequence order, whatever the listing order |
| `Store.GlimpseLoadsPrefix` | qme/experiments/store.py:199-235 | a reader that sees any part of the committed files in any order fails or returns the replay of a prefix |
| `Store.CompleteLoadsLog` | qme/experiments/store.py:199-235 | a complete listing in any order loads exactly the log |
| `Store.DistinctIsAccepted` | qme/experiments/store.py:230-235 | files that replay are accepted one by one, with no repeat among them |
| `Store.ScanErrorIsFirst` | qme/experiments/store.py:199-235 | the scan reports the first entry in listing order that is foreign or repeats a number or a hash, the number first |
| `Store.FirstErrorIsFirst` | qme/experiments/store.py:199-235 | the read error is that of the first file in sequence order with anything wrong |
| `Store.ReadErrorMeans` | qme/experiments/store.py:199-235 | each read error holds exactly when its own fault is there and everything looked at earlier is in order |
| `StoreProtocol.RegistryStore.Append` | qme/experiments/store.py:242-303 | a retry returns the committed event, otherwise exactly one new file appears, whose read-back decides between return and error; each failure is the one the source raises first |
| `StoreProtocol.RegistryStore.PublishExport` | qme/experiments/store.py:305-330 | the export of the current head is written once, and what a read of it shows decides between success and error |
| `StoreProtocol.RegistryStore.RequireHead` | qme/experiments/store.py:332-339 | succeeds exactly when the loaded log contains the acknowledged hash |
| `StoreProtocol.UninterruptedAppend` | qme/experiments/store.py:242-303 | the protocol steps of one appender, taken one after the other, have the result and the files of `Append` |
| `StoreSerial.StepIsSerial` | qme/experiments/store.py:173-330 | every step of any process either performs one whole operation, in the turn of the process that holds the lock, or changes neither directory nor exports |
| `StoreSerial.EveryRunIsSerial` | qme/experiments/store.py:173-330 | under any interleaving, crashes included, directory and exports are those of whole appends and publications one after the other in the order of lock acquisition, and every process that ended without timing out returned what one of its operations returns |
| `StoreProtocol.StepKeepsHistory` | qme/experiments/store.py:173-303 | every step of any process keeps one accepted history behind the directory; only a link makes it longer, by its event |
| `StoreProtocol.EveryRunHasOneHistory` | qme/experiments/store.py:173-303 | under any interleaving of appenders, publishers, retries, time-outs and crashes one growing accepted log explains every state |
| `StoreProtocol.ReadersSeePrefixes` | qme/experiments/store.py:237-240 | an unlocked reader whose listing mixes files of different moments fails or returns a prefix of the history |
| `StoreProtocol.AcknowledgedStays` | qme/experiments/store.py:332-339 | an event once returned is in every later complete load |
| `StoreProtocol.RetryIsIdempotent` | qme/experiments/store.py:255-273 | a retry of a committed event returns it, any other use of its id raises, and the directory stays as it is |
| `StoreRequests.UnusedIdWrites` | qme/experiments/store.py:274-290 | under an unused id exactly the event with the requested id, time, actor and content, the next number and the current head is written, when the log so extended replays and the event fits; otherwise the error says which failed |
| `StoreRequests.DecidesTheRequest` | qme/experiments/store.py:254-290 | an event that is written, or found again, is the requested one |
| `StoreRequests.ReturnedIsRequested` | qme/experiments/store.py:242-303 | an append returns only the requested event, and leaves the files alone or adds the requested one |
| `StoreRequests.UsedIdOnTheLog` | qme/experiments/store.py:256-272 | under a used id an append leaves a committed log alone and returns the event there exactly when it is the requested one, refusing anything else |
| `StoreRequests.NewIdOnTheLog` | qme/experiments/store.py:254-303 | under a new id an append to a committed log commits the requested event exactly when the registry's rules allow it and it fits, returns it exactly when the read-back shows it, and otherwise raises the first broken rule |
| `StoreRequests.TwiceIsOnce` | qme/experiments/store.py:254-272 | one request sent twice returns one event and writes one file |
| `StoreRequests.PublicationAdds` | qme/experiments/store.py:305-330 | a publication adds at most the export of the current head with the whole log in it, leaves every other export alone, and fails exactly where stated |
| `StoreProtocol.PublishNeverConflicts` | qme/experiments/store.py:313-330 | on a disk that returns what it stores, an existing export never conflicts with the replay and is never rewritten; only the size bound can refuse |
| `Rounding.RoundHalfEvenNearest` | qme/fixtures/golden_two_rebalance.py:78-88 | the sign-and-magnitude routine returns a nearest integer, the even one on a tie |
| `Rounding.RoundFloorNearest` | scripts/generate_historical_asymmetric_costs_v3_fixture.py:86-94 | so does the floor-based routine |
| `Rounding.RoutinesAgree` | scripts/generate_historical_asymmetric_costs_v3_fixture.py:86-94 | the two routines agree on every rational |
| `Rounding.RoundIgnoresCommonFactor` | qme/fixtures/golden_two_rebalance.py:78-88 | only the value of a fraction matters, not its terms |
| `Rounding.RoundFixesWhole` | qme/fixtures/golden_two_rebalance.py:78-88 | rounding is idempotent: whole quanta are left alone |
| `Rounding.RoundIsMonotone` | qme/fixtures/golden_two_rebalance.py:78-88 | rounding preserves order across any two fractions |
| `Rounding.RoundIsOdd` | qme/fixtures/golden_two_rebalance.py:78-88 | rounding commutes with negation |
| `Rounding.RoundRealIsRational` | qme/fixtures/golden_two_rebalance.py:78-88 | the rounding the ledger uses on exact values is the integer routine on every fraction |
| `FixedPoint.ParsePrint` | qme/fixtures/golden_two_rebalance.py:66-100 | reading a printed number of quanta returns it |
| `FixedPoint.ParseFormat` | qme/fixtures/golden_two_rebalance.py:66-100 | reading a printed value returns exactly its rounding |
| `FixedPoint.FormatParse` | qme/fixtures/golden_two_rebalance.py:66-100 | printing what was read from a canonical string returns the string if and only if it has eight decimals and is not a negative zero |
| `FixedPoint.CanonicalMeans` | qme/fixtures/golden_two_rebalance.py:66-76 | the reader accepts exactly a sign, a whole part with no leading zero and, with a point, at least one decimal |
| `FixedPoint.ParseMeans` | qme/fixtures/golden_two_rebalance.py:66-76 | and reads its digits as one number over the power of ten its decimals call for |
| `Ledger.RunFills` | qme/fixtures/golden_two_rebalance.py:387-407 | the loop over ordered trades returns the fold of the fills, with the first failure that occurs |
| `Ledger.CashNeedsNoRounding` | qme/fixtures/golden_two_rebalance.py:400-402 | re-rounding cash after a fill is the identity |
| `Ledger.FillsAccount` | qme/fixtures/golden_two_rebalance.py:387-422 | over any fills: each posts its notional and pays its cost to the nearest quantum, a sell pays tax likewise and a buy none; gross, cost and tax are the sums of these, cash falls by all of them and shares move by the trades |
| `Ledger.TradesInOrder` | qme/fixtures/golden_two_rebalance.py:386-386 | what is filled are the trades themselves, sells before buys, each by symbol |
| `Ledger.RebalanceAccounts` | qme/fixtures/golden_two_rebalance.py:386-422 | so a rebalance books every trade with these charges |
| `Ledger.RefusedInputs` | qme/fixtures/golden_two_rebalance.py:340-376 | a rebalance is refused when a mark is not positive, a held symbol has none, or a trade is empty, repeated or off its mark, and for no other input; otherwise it does what its ordered fills do |
| `Ledger.FirstFailureStops` | qme/fixtures/golden_two_rebalance.py:387-406 | fills stop at the first trade that would go short or overdraw, with that error |
| `Ledger.FillsConserve` | qme/fixtures/golden_two_rebalance.py:387-425 | over any number of fills NAV loses costs, taxes and exactly the sum of notional rounding errors |
| `Ledger.ResidualIsRounding` | qme/fixtures/golden_two_rebalance.py:420-436 | the self-financing residual of n fills is that sum, at most n half-quanta, and zero at whole-quantum prices |
| `Ledger.RebalanceIgnoresOrder` | qme/fixtures/golden_two_rebalance.py:386-422 | the rebalance does not depend on the order in which trades are listed |
| `Ledger.FilledWhen` | qme/fixtures/golden_two_rebalance.py:387-406 | fills succeed exactly when none is short and no prefix overdraws |
| `Ledger.RebalancesWhen` | qme/fixtures/golden_two_rebalance.py:387-406 | a rebalance succeeds exactly when nothing is sold short, final cash is non-negative and the sells in their order never overdraw |
| `Ledger.SellsFirstCanFail` | qme/fixtures/golden_two_rebalance.py:387-406 | two sells, one costing more than it brings in: sells-first overdraws where the opposite order ends at zero |
| `Ledger.SellsFirstIsBest` | qme/fixtures/golden_two_rebalance.py:386-406 | when each sell pays for itself the sells-first order succeeds exactly when final cash is non-negative, hence whenever any order does |
| `LedgerPath.RebalanceKeepsBook` | qme/fixtures/golden_two_rebalance.py:387-422 | cash, receivables and shares stay non-negative and in whole quanta through a rebalance |
| `LedgerPath.ActionsKeepBook` | qme/fixtures/golden_two_rebalance.py:509-592 | and through split, entitlement and payment |
| `LedgerPath.SplitConserves` | qme/fixtures/golden_two_rebalance.py:512-539 | a split moves no value of its own security |
| `LedgerPath.PaymentConserves` | qme/fixtures/golden_two_rebalance.py:540-592 | payment moves the entitlement from receivables to cash with NAV unchanged |
| `LedgerPath.ActionsMean` | qme/fixtures/golden_two_rebalance.py:509-592 | the split multiplies the shares of its security alone, the entitlement is the post-split shares at the amount per share to the nearest quantum, first owed and then paid |
| `LedgerPath.ActionsAccepted` | qme/fixtures/golden_two_rebalance.py:509-592 | the actions are accepted exactly when their terms are in range, the split makes whole quanta and moves no value, marks are positive and none that is needed is missing |
| `LedgerPath.PathIsItsSteps` | qme/fixtures/golden_two_rebalance.py:614-702 | a path is accepted exactly when its three steps are, each on the book the one before it left |
| `LedgerPath.PathConserves` | qme/fixtures/golden_two_rebalance.py:664-702 | on every accepted path final minus initial NAV is re-marking plus entitlement minus costs and taxes, up to half a quantum per fill, and every book stays sound |
| `WalkForward.RunFolds` | qme/experiments/composed_walk_forward_v1.py:1615-1651 | the loop that threads chain hash and predecessor close computes the partitions and the head of the chain |
| `WalkForward.BuildTables` | qme/experiments/composed_walk_forward_v1.py:1657-1663 | the loop that fills the three output tables |
| `WalkForward.ExecuteLoop` | qme/experiments/composed_walk_forward_v1.py:1579-1697 | the run that both loops together compute |
| `WalkForwardTheorems.MatchIsShareEquality` | qme/experiments/composed_walk_forward_v1.py:1459-1490 | the carried-state check holds exactly when cash, receivables and the share count of every security agree, zero rows and missing rows alike |
| `WalkForwardTheorems.ValidExactlyWhileUnbroken` | qme/experiments/composed_walk_forward_v1.py:1700-1835 | a fold is valid exactly when every fold up to it is authorized and composes and each continues the one before |
| `WalkForwardTheorems.ValidFoldsAreAPrefix` | qme/experiments/composed_walk_forward_v1.py:1493-1576 | in every run the valid partitions are a prefix of the schedule, each but the last closed without open lots, each opening on its predecessor's close |
| `WalkForwardTheorems.NavTelescopes` | qme/experiments/composed_walk_forward_v1.py:1615-1651 | fold NAV changes add up to the distance from the first opening to the last valid close |
| `WalkForwardTheorems.CarryIsRecorded` | qme/experiments/composed_walk_forward_v1.py:1493-1576 | every fold is recorded with the first of: not authorized, refused, first, no close before it, another value, other holdings, open lots, continuous; it is valid in exactly two of these states and gives the one reason of any other |
| `WalkForwardChain.LinkRecords` | qme/experiments/composed_walk_forward_v1.py:1736-1825 | each link digests ordinal, fold id, state, carried identity and result or reasons of its own partition, over the head before it |
| `WalkForwardChain.HeadPinsTheRun` | qme/experiments/composed_walk_forward_v1.py:755-775 | equal heads mean the same number of folds and the same ordered entries, whatever the engines and plans |
| `WalkForwardChain.EntriesFixTheHead` | qme/experiments/composed_walk_forward_v1.py:755-775 | conversely equal entries give equal heads: nothing else is hashed |
| `WalkForwardChain.HeadPinsTheCarry` | qme/experiments/composed_fold_v1.py:802-817 | with a collision-free carry digest equal heads also fix what every fold was handed: cash, receivables, actions, lots and held positions |
| `WalkForwardChain.HeadPinsTheFolds` | qme/experiments/composed_fold_v1.py:1016-1019 | with a collision-free result digest equal heads make every valid fold equal as a whole: opening, close, values and figures |
| `WalkForwardChain.HeadPinsTheLinks` | qme/experiments/composed_walk_forward_v1.py:718-775 | equal heads force the same recorded predecessor value in every link and make every valid partition equal, link and all |
| `WalkForwardChain.HeadPinsDegradedLinks` | qme/experiments/composed_walk_forward_v1.py:1722-1800 | of a degraded link equal heads fix reasons, carry state and, for a fold that was not authorized or was refused, all of it; where the carry broke, all of it exactly when the engines computed the same opening value |
| `WalkForwardChain.HeadPinsTheSchedule` | qme/experiments/composed_fold_v1.py:701-740 | with a collision-free fold digest equal heads mean the same ordinals and the same fold documents, in which policies and registries are bound by sorted ids |
| `WalkForwardChain.SameDocumentsSameRun` | qme/experiments/composed_walk_forward_v1.py:657-668 | conversely schedules with the same fold documents whose authorized folds compose alike are one run |
| `WalkForwardChain.PolicyOrderIsNotPinned` | qme/experiments/composed_fold_v1.py:585-585 | two accepted plans that list the same policies in another order are one run with different inputs |
| `WalkForwardChain.RunRecomputes` | qme/experiments/composed_walk_forward_v1.py:1736-1825 | the recorded links of every run recompute from genesis to its head |
| `WalkForwardChain.EditIsDetected` | qme/experiments/composed_walk_forward_v1.py:718-775 | recomputing a recorded chain against its head detects an edit exactly when it touches a field the hash covers, the hash or the number of links |
| `WalkForwardChain.ClosingNavEditPasses` | qme/experiments/composed_walk_forward_v1.py:724-728 | an edited predecessor value alone passes that recomputation, in every recorded chain |
| `WalkForwardChain.TablesAreTheRun` | qme/experiments/composed_walk_forward_v1.py:1653-1669 | the tables are all links, then the valid head, then the degraded rest of the schedule; a run has a valid partition iff its first fold is valid |
| `WalkForwardChain.OrderMattersOnlyForPolicies` | qme/experiments/composed_walk_forward_v1.py:445-529 | another order of the folds keeps partitions and chain always, and manifest, run id and tables exactly when the first folds register the same policies |
| `WalkForwardChain.SharedPoliciesMakeOneRun` | qme/experiments/composed_walk_forward_v1.py:671-700 | with shared policies every order of the folds is one run |
| `WalkForwardChain.PoliciesCanSplitTheRunId` | qme/experiments/composed_walk_forward_v1.py:450-464 | two accepted plans with the same folds and different run ids |
| `WalkForwardChain.RunIdBinds` | qme/experiments/composed_walk_forward_v1.py:671-700 | with a collision-free digest two plans have one run id exactly when they agree on schedule, registered policy ids, modes, axis, sample, authorized folds and the ordinal and fold id of every fold in order |
| `WalkForwardChain.ManifestSpeaksForAll` | qme/experiments/composed_walk_forward_v1.py:445-529 | what the manifest reads from the first fold holds of every fold of an accepted plan |
| `WalkForwardChain.FoldIdBinds` | qme/experiments/composed_fold_v1.py:701-740 | two folds have one id exactly when they agree on everything the fold binds by value and on the ids of policies and registries in any order |
| `WalkForwardChain.CarriedIdentityBinds` | qme/experiments/composed_fold_v1.py:802-817 | two closes carry one identity exactly when cash, receivables, actions and lots agree and every security is held with one figure in both or in neither |
| `WalkForwardChain.ResultIdentityBinds` | qme/experiments/composed_fold_v1.py:1016-1019 | two results have one identity exactly when they are one fold from inputs of one fold id |
| `ImportClosure.TransportModulesReachable` | qme/experiments/walk_forward_v1.py:316-353 | terminates on every import graph, cycles included, and returns exactly the forbidden names imported by some file reachable along resolved first-party edges |
| `JsonPointer.TwoReplacementsEscape` | qme/governance/materialization_crosswalk.py:491-491 | the two successive replacements escape each character once |
| `JsonPointer.UnescapeEscape` | qme/governance/materialization_crosswalk.py:465-468 | reading an escaped key gives the key back, whatever `~` and `/` it contains |
| `JsonPointer.TokensOfPointer` | qme/governance/materialization_crosswalk.py:465-468 | reading a printed pointer gives its tokens back |
| `JsonPointer.PointerInjective` | qme/governance/materialization_crosswalk.py:487-499 | different paths print differently |
| `JsonPointer.Dereference` | qme/governance/materialization_crosswalk.py:471-484 | the loop over tokens returns what the pointer denotes |
| `JsonPointer.AtLeads` | qme/governance/materialization_crosswalk.py:471-484 | following tokens finds a value exactly when they lead to it: by key in an object, by the decimal index behind any number of zeros in an array |
| `JsonPointer.OnePointerPerLeaf` | qme/governance/materialization_crosswalk.py:487-499 | there is exactly one pointer per scalar leaf, distinct leaves have distinct pointers, and following each returns that leaf |
| `JsonPointer.TwoReplacementsUnescape` | qme/governance/materialization_crosswalk.py:468-468 | the reader's two replacements never interfere: they unescape in one pass |
| `JsonPointer.PointerOfTokens` | qme/governance/materialization_crosswalk.py:465-468 | printing the tokens of a readable pointer returns it if and only if every `~` starts an escape |
| `JsonPointer.SpellingsOfALocation` | qme/governance/materialization_crosswalk.py:465-468 | well-escaped spellings of one location are equal, and every other spelling has a well-escaped one beside it |
| `JsonPointer.SameLocation` | qme/governance/materialization_crosswalk.py:465-468 | two readable pointers name one location if and only if turning every `~` that starts no escape into one makes them equal |
| `Crosswalk.ScanDestinations` | qme/governance/materialization_crosswalk.py:659-664 | the inner loop accepts exactly readable destinations that are new among all seen so far |
| `Crosswalk.CheckSource` | qme/governance/materialization_crosswalk.py:666-756 | the three kinds of source: pinned authority, copied or located value, expected row, reviewed section and value |
| `Crosswalk.ScanEntries` | qme/governance/materialization_crosswalk.py:630-756 | the loop accepts exactly sorted, sound entries without a repeated destination or source pointer, and gathers their pointers, ids and rows |
| `Crosswalk.EntriesMean` | qme/governance/materialization_crosswalk.py:630-756 | the loop accepts exactly the entries with ascending ids, each resting field by field on what the contract pins, no destination spelled twice and no registered pointer copied twice |
| `Crosswalk.ReviewRowsMean` | qme/governance/materialization_crosswalk.py:731-754 | the digest of the interpretations is taken over one row for each of them, field by field, in order of id |
| `Crosswalk.VerifyCoverage` | qme/governance/materialization_crosswalk.py:625-773 | the entry loop and the coverage checks after it accept exactly the covered crosswalks |
| `Crosswalk.VerifyCrosswalk` | qme/governance/materialization_crosswalk.py:602-773 | the claimed, observed and expected digests are compared first, then entries and coverage |
| `Crosswalk.AcceptedMeans` | qme/governance/materialization_crosswalk.py:602-773 | the verifier accepts exactly the file whose claimed, own and pinned digests are one and whose sound entries speak of exactly the 72 mandate leaves, the expected artifact rows and the reviewed interpretations |
| `Crosswalk.CrosswalkCopiesLeaves` | qme/governance/materialization_crosswalk.py:758-763 | an accepted crosswalk's registration rows are a total one-to-one copy of the registered leaves and their values |
| `Crosswalk.CrosswalkIsExact` | qme/governance/materialization_crosswalk.py:758-773 | an accepted crosswalk has one entry per registered leaf, expected artifact row and reviewed interpretation, with the pinned content, and no other |
| `Crosswalk.CoveredCrosswalksAgree` | qme/governance/materialization_crosswalk.py:758-773 | with a collision-free row digest every artifact row and every interpretation of one accepted crosswalk is, as a whole, in every other |
| `Crosswalk.DestinationsDiffer` | qme/governance/materialization_crosswalk.py:659-664 | the destinations of an accepted entry list are readable, and name pairwise different locations if and only if their repaired spellings are distinct |
| `Crosswalk.WellEscapedDiffer` | qme/governance/materialization_crosswalk.py:659-664 | destinations that all obey the escape rule always do |
| `Crosswalk.AcceptedIsThePinned` | qme/governance/materialization_crosswalk.py:602-606 | with a collision-free digest the one acceptable file is the pinned one, so its destinations decide for every accepted file |
| `Crosswalk.DestinationsCanCollide` | qme/governance/materialization_crosswalk.py:659-664 | an entry list that the loop accepts and whose destinations name one location twice |

## Left out

- Text validation: regular expressions, Unicode normalisation, ISO dates and canonical JSON encoding; values are taken as already canonical and documents as distinct values.
- Reporting fields of the registry: timestamp anomalies, effective-trial placeholders, `registration_sha256`, disclosure status strings, family disclosures and the export document's layout.
- Registration payload details that no later step reads: actor and owner texts, repository identity checks, validation-report digests.
- File-system details: symbolic links, reparse points, fsync and the byte-range lock primitive. The directory is a map with atomic create-if-absent and the lock is a mutex that a crash releases.
- Evidence, session and calendar checks of the ledger fixture: they select inputs and do not touch the arithmetic. The event-id registry of the corporate actions is left out with them.
- Printed output of the ledger: rows are kept as exact values; the printer is modelled by itself.
- Execution engines behind `compose_fold`, and the publication of a walk-forward run.
- Import closure: names are given with their resolution; parsing of modules is not modelled, an unreadable file imports nothing, and the sorted tuple of hits is a set.
- Crosswalk: the document-level constants (authority, contract targets, claims, blockers) and field-set checks; path, digest and commit of a cited file are one opaque authority; a located artifact value is compared as JSON, while Python equates some values of different type there; array tokens are ASCII digits, while Python's `isdigit` also admits other digit characters.
- Freeze-candidate verifiers, crosswalk v2 and v3, the operational bundle, command-line modules, network clients and statistics: pinned constants or I/O, with no unbounded property of their own.
