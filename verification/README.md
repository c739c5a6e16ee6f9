# AstraQuant: a verified model

AstraQuant lets a language model propose trades and lets deterministic code decide which of them
become orders. This project models that deterministic code in Dafny and proves what it is relied on
for. Money and prices are `real`, instants are integers with a UTC day, and everything the exchange,
the market, the database or the clock says is an input that may be anything.

## What is modelled

| file | part of the system |
|---|---|
| `Trading.dfy`, `OwnershipProtocol.dfy` | which trader owns which symbol: the manager with its virtual books, call by call and under every interleaving of its critical sections; reconciliation against the exchange |
| `Policy.dfy`, `Execution.dfy` | approval of a decision, the token that binds it, the sync and second check before submission, the order itself |
| `DailyRisk.dfy`, `Lifecycle.dfy`, `CircuitLatch.dfy`, `RuntimeStore.dfy` | the daily-loss baseline and its second implementation in the API, the circuit breaker, persistence and restart |
| `ControlPlane.dfy`, `ControlRace.dfy` | start, stop, pause and resume, with their persist and recover pair, one at a time and overlapping |
| `CommandWorker.dfy`, `CommandExecution.dfy`, `ControlQueue.dfy` | queued operator commands: the claim and execute protocol of many workers, the orders that leave for them, and the in-memory idempotent queue |
| `Portfolio.dfy`, `Engine.dfy`, `Drawdown.dfy` | backtest accounting against a full fill ledger, conservation over a whole backtest, maximum drawdown |
| `OrdersPage.dfy` | the orders page, a top-n merge over the audit log |
| `ConfigHistory.dfy` | versioned trader configurations |
| `MessagePack.dfy` | the byte rewrite before an order is signed |
| `Budget.dfy`, `DecisionCap.dfy` | the token budget's overshoot, and the order and cap of a cycle's decisions |
| `Clock.dfy`, `Text.dfy`, `Options.dfy`, `Sequences.dfy`, `Reals.dfy` | shared vocabulary |

Code that updates state in place is a class or a method with loops, proved against functions on
values; the laws are lemmas about those functions. Protocols are state machines with a step relation,
and their laws range over all runs.

## Where the code does less than one might expect

Each of these has a lemma with a concrete case, and a theorem with the exact condition under which
the expectation does hold.

- A market order leaves without a price. Its quantity is the decision's size over its entry price, and
  the entry price is never compared with the market, so neither size nor margin cap bounds what it is
  worth: `MarketOrderOutgrowsItsCap`, `MarketOrderExceedsAnyBound`; exactly `WorthAtMostSizeIff`.
- A trade action with white space around it is approved, and reported as submitted by the command
  worker, but no order is sent: `PaddedTradeEndsSubmitted`; exactly `ExecuteDecision`, `CarryOut`.
- A release is two critical sections. A symbol assigned between them leaves an index entry without a
  book entry (`ReassignDuringReleaseLeavesStaleEntry`; exactly `AgreementSurvivesIff`), or two holders
  (`TwoHoldersDuringRelease`; exactly `SoleHoldersSurviveIff`). Reconciliation repairs such an entry
  exactly when the exchange reports the symbol: `Reconcile`.
- A tripped breaker whose write to the store was lost may not survive a crash:
  `LostTripWriteRunsAgain`; exactly `TripLatchesIff`. A failed read with `auto_start`, or another
  manager's record, opens it too: `LatchSurvivesIff`.
- A pause without an end is not in the stored record of a trading manager, which then finds the trader
  stopped: `EndlessPauseIsForgotten`; exactly `PausedComesBackIff`.
- The control plane shares its store with the trading managers, so a restart may show another state
  than the last command: `ForeignRecordWins`; exactly `RestartRecoversIff`.
- Control commands that overlap can leave memory with one and the store with the other:
  `OverlapShowsAnotherState`; exactly `RestartAfterRaceIff`.
- A status write goes to the trimmed command id, so an id with white space around it can end another
  command that was never claimed: `PaddedIdSkipsProcessing`; exactly `OrderlyRunsIff`. No caller in the
  repository supplies ids, and the ones it makes are never padded: `TrimmedRunsAreOrderly`.
- A symbol filter on the orders page can hide orders, and so can a page that ends beyond 500:
  `SymbolFilterLosesOrders`, `DeepPageLosesOrders`; exactly `OrdersFromAuditEvents`, and in terms of
  counts `DeepPageIff`.
- The rewrite before signing can change an integer: `IntegerIsCorrupted`; exactly
  `RewriteKeepsValuesIff`.
- A configuration sync is idempotent only with a store that returns the JSON text it was given: exactly
  `ResyncUnchangedIff`. The detail column is `JSONB` (go/migrations/001_initial_schema.up.sql:223),
  which reformats text, and there an unchanged record gains a version at every sync:
  `UnchangedRecordGainsVersions`, `ReformattedRecordGainsVersions`.
- With negative equity the drawdown may not be the largest pairwise fall:
  `NegativeEquityBreaksPairwise`; exactly `PairwiseIff`.
- A clock that goes back over midnight may forget the day's starting equity:
  `BackwardClockForgetsTheStart`; exactly `DayDescribedIff`.
- A NUL inside a part can make two requests of different purpose share an idempotency index:
  `NulCollides`; exactly `JoinSharedIff`.

## Model

| member | source | states |
|---|---|---|
| `OwnershipProtocol.NextKeepsBooksCovered` | go/pkg/manager/manager.go:1264-1315 | Every step of assign, either half of release, register and unregister keeps: a symbol in a registered trader's book is indexed to that trader or is between the halves of its release |
| `OwnershipProtocol.RunKeepsBooksCovered` | go/pkg/manager/manager.go:1264-1330 | The same over every interleaving |
| `OwnershipProtocol.HoldersAreIndexed` | go/pkg/manager/manager.go:1264-1330 | In every reachable state a held symbol is indexed to its holder or in release by it, so two registered traders hold one symbol only while one of them is releasing it |
| `OwnershipProtocol.SoleHoldersSurviveIff` | go/pkg/manager/manager.go:1264-1315 | From a covered state with sole holders, a second holder appears exactly by an assignment that takes effect, to a registered object, of a symbol another registered trader still holds; that trader is then between the halves of its release |
| `OwnershipProtocol.SoleHoldersRun` | go/pkg/manager/manager.go:1264-1330 | Over a run without such an assignment every symbol has one holder at most |
| `OwnershipProtocol.AgreementSurvivesIff` | go/pkg/manager/manager.go:1264-1315 | Full agreement of index and books, in both directions, survives a step exactly when the step is disciplined: no registration under an id the index still names, and no assignment of a free symbol to a superseded object of a registered id or to a trader that is just releasing it |
| `OwnershipProtocol.DisciplinedRunAgrees` | go/pkg/manager/manager.go:1264-1330 | Over a disciplined run with nothing in flight, index and books agree exactly |
| `OwnershipProtocol.ReassignDuringReleaseLeavesStaleEntry` | go/pkg/manager/manager.go:1292-1315 | A run after which the index names a trader whose book does not hold the symbol |
| `OwnershipProtocol.TwoHoldersDuringRelease` | go/pkg/manager/manager.go:1292-1315 | A run with such an assignment, in which two registered traders hold one symbol |
| `Trading.Actual` | go/pkg/manager/manager.go:1452-1461 | The positions by symbol: exactly the symbols with a nonzero report, each with its last one |
| `Trading.ReportedUnique` | go/pkg/manager/manager.go:1456-1461 | A symbol has at most one last nonzero report |
| `Trading.MatchesIff` | go/pkg/manager/manager.go:1462-1477 | The comparison of a held with a reported position passes exactly when one is short as the other and the sizes differ by at most 1e-6 |
| `Trading.VirtualIsMirror` | go/pkg/manager/manager.go:1504-1533 | An exchange position is taken over with its coin, side, size and leverage; at its quoted entry price, or else the price at which the size has the reported value; worth that price times the size, or the reported value without a price |
| `Trading.CoveredAfterAssign` | go/pkg/manager/manager.go:1264-1290 | Assigning an unowned or own symbol, by a registered object or not, keeps every held symbol indexed to its holder; by a registered one it keeps full agreement |
| `Trading.CoveredAfterRelease` | go/pkg/manager/manager.go:1292-1315 | So does releasing one |
| `Trading.CoveredAfterRegister` | go/pkg/manager/manager.go:191-286 | So does registering a trader; under full agreement the index does not name it yet |
| `Trading.CoveredAfterUnregister` | go/pkg/manager/manager.go:499-512 | So does removing a trader with the symbols of its book; what then still names it is exactly what was indexed to it without a book entry |
| `Trading.ReconciledMirrors` | go/pkg/manager/manager.go:1437-1502 | Whatever stale entries the index has: dropping what is gone and taking over what nobody owns or what is indexed to the trader without a book entry gives a book that is exactly the reported symbols its trader owns, with equal side and quantity within 1e-6, and every reported symbol an owner |
| `Trading.ReconciledRepairs` | go/pkg/manager/manager.go:1478-1501 | The trader's index entries without a book entry lose exactly the symbols taken over |
| `Trading.VirtualTrader.constructor` | go/pkg/manager/manager.go:191-286 | A new trader has an empty book and the given lifecycle |
| `Trading.VirtualTrader.Start` | go/pkg/manager/trader.go:143-154 | Running; a trader that was not running loses its circuit and keeps everything else |
| `Trading.VirtualTrader.Pause` | go/pkg/manager/trader.go:157-167 | Paused with the given end, except that a stopped trader refuses and stays as it was |
| `Trading.VirtualTrader.Resume` | go/pkg/manager/trader.go:170-182 | Running; a trader that was not running loses its pause and its circuit |
| `Trading.VirtualTrader.Stop` | go/pkg/manager/trader.go:185-192 | Only the state changes, to stopped |
| `Trading.VirtualTrader.TripCircuit` | go/pkg/manager/risk_circuit.go:11-41 | The trader is paused without end; the circuit is blocked with the given or the default reason, dated with the day of the baseline or else of the trip |
| `Trading.VirtualTrader.ClearStaleCircuit` | go/pkg/manager/risk_circuit.go:43-59 | Clears the circuit exactly when it is blocked and dated differently from the baseline or, undated, was not triggered on the day of its last update; nothing else changes |
| `Trading.VirtualTrader.ApplyAccount` | go/pkg/manager/manager.go:1130-1147 | The account's figures, what is available of the equity, the daily baseline; the circuit is cleared exactly when it is stale against the new baseline |
| `Trading.Manager.constructor` | go/pkg/manager/manager.go:140-176 | An empty manager, whose index and books agree |
| `Trading.Manager.Assign` | go/pkg/manager/manager.go:1264-1290 | Succeeds exactly for a non-empty symbol the index does not give to another trader; the whole new index and books; held symbols stay indexed, for any object, and full agreement is kept for a registered one |
| `Trading.Manager.Release` | go/pkg/manager/manager.go:1292-1315 | The whole new index and books, unchanged when another trader owns the symbol; coverage and agreement kept |
| `Trading.Manager.Register` | go/pkg/manager/manager.go:191-286 | Refuses exactly a known id; the new trader has an empty book; coverage and agreement kept |
| `Trading.Manager.Unregister` | go/pkg/manager/manager.go:499-512 | The trader is gone and exactly the symbols of its book leave the index; the other books are untouched; coverage and agreement kept |
| `Trading.Manager.ReleaseAll` | go/pkg/manager/manager.go:1317-1330 | Exactly the symbols of the book leave the index |
| `Trading.Manager.ReleaseMissing` | go/pkg/manager/manager.go:1462-1477 | First pass of reconciliation: succeeds exactly when every held and reported symbol matches; on success exactly the unreported symbols are released |
| `Trading.Manager.AdoptUnowned` | go/pkg/manager/manager.go:1478-1501 | Second pass: on success exactly the reported symbols nobody owns, and those indexed to the trader but missing from its book, are taken over, each as its exchange position |
| `Trading.Manager.Reconcile` | go/pkg/manager/manager.go:1437-1502 | Succeeds exactly when the trader exists, the exchange answers, nothing mismatches and no position has an empty symbol. The book then mirrors the exchange, entries that stay are the same, new ones have the coin, side, size, leverage, entry price and value reported, and the trader's index entries without a book entry are exactly those it had that the exchange does not report. On every return held symbols are indexed to their holders, agreement is kept, no stale entry is added, other books are untouched |
| `DailyRisk.PositiveMin` | go/pkg/manager/policy.go:378-389 | The smallest positive value, or zero when there is none |
| `DailyRisk.LimitIs` | go/pkg/manager/policy.go:331-334 | The limit is the smaller of the dollars and the share of the start that are set, and zero exactly when neither is |
| `DailyRisk.RejectsIff` | go/pkg/manager/policy.go:305-350 | An open is rejected exactly when today's baseline fell by more than the dollars, or by more than the share of its start, that are set; the reason says the loss and the limit |
| `DailyRisk.StoredUnlessBlank` | go/pkg/manager/manager.go:288-401 | A baseline comes back from its stored detail, except that one without date, time and positive equity is not stored |
| `DailyRisk.LimitsAgree` | go/internal/logic/tradingcontractlogic.go:1089-1104 | The API's limit is the manager's limit for every configuration and starting equity |
| `DailyRisk.LayersAgree` | go/internal/logic/tradingcontractlogic.go:1044-1118 | The API's blocked flag, from the persisted detail, is set exactly when the manager rejects |
| `DailyRisk.UpdatedIs` | go/pkg/manager/policy.go:352-369 | Whatever the baseline was, a positive equity leaves one of the present day, with the start it had if that is of this day and positive, or else this equity; any other equity leaves it alone |
| `DailyRisk.SyncedDescribesTheDay` | go/pkg/manager/policy.go:352-369 | After any syncs at non-decreasing times the baseline holds the first and the latest positive equity of the current UTC day, dated by its last update |
| `DailyRisk.ApiMatchesManagerAfterSyncs` | go/internal/logic/tradingcontractlogic.go:1044-1118 | Hence after any syncs, under any clock, API and manager decide alike |
| `DailyRisk.SyncedDescribesStretch` | go/pkg/manager/policy.go:352-369 | Under any clock the baseline holds the first and the latest positive equity of the last unbroken stretch on its day |
| `DailyRisk.DayDescribedIff` | go/pkg/manager/policy.go:352-369 | Under any clock the baseline describes its day exactly when that stretch starts from the equity the day started from; the stretch starts the day exactly when the day's positive equities are contiguous |
| `DailyRisk.BackwardClockForgetsTheStart` | go/pkg/manager/policy.go:352-369 | Syncs with a clock going back over midnight after which nothing describes the day; a step back within the day that does no harm; a broken day described by coincidence |
| `Lifecycle.RunsAfterRegistrationIff` | go/pkg/manager/manager.go:275-283 | A registered trader runs exactly when its record says so or, without a record, when it is configured to start by itself |
| `Lifecycle.PersistThenRegister` | go/pkg/manager/manager.go:288-496 | Persisting and registering again brings back the baseline, the account figures, the last decision, the performance, the end of a pause that was ahead, whether the trader runs, and a blocked circuit of a trader that does not run; a trader that neither runs nor is blocked comes back as paused exactly while its stored pause lasts, else as stopped |
| `Lifecycle.PausedComesBackIff` | go/pkg/manager/manager.go:288-496 | A paused trader comes back as paused exactly while its circuit is blocked or its pause has an end ahead, when it is stored and when it is registered |
| `Lifecycle.RecordTells` | go/pkg/manager/manager.go:288-401 | The stored record tells the moment from which a running trader is asked again, and why and until when a trader is paused |
| `Lifecycle.EndlessPauseIsForgotten` | go/pkg/manager/manager.go:288-496 | A pause without an end comes back as a stop |
| `Lifecycle.CircuitStaysOnItsDay` | go/pkg/manager/risk_circuit.go:11-59 | A circuit tripped on the day of the baseline is the same after every sync of that day |
| `Lifecycle.SyncIs` | go/pkg/manager/manager.go:1130-1147 | What a sync does to every part of a trader: figures, baseline, and the circuit cleared exactly when stale |
| `Lifecycle.ResumeEndsPauseAndCircuit` | go/pkg/manager/trader.go:170-218 | A resumed trader is asked for a decision exactly when its interval allows, whatever pause or circuit it had |
| `Lifecycle.StartKeepsThePause` | go/pkg/manager/trader.go:143-218 | A started trader has no circuit, but a pause with an end ahead still holds it |
| `Lifecycle.AskedOncePerInterval` | go/pkg/manager/trader.go:202-218 | A running trader is asked again exactly from one interval after its last decision on, and a paused or stopped one never |
| `CircuitLatch.LatchSurvivesIff` | go/pkg/manager/manager.go:403-496 | The latch of a tripped trader survives an event exactly when that is not an operator's start or resume, a recorded one, another manager's record that says running, or an auto-start whose read of the store failed |
| `CircuitLatch.LatchSurvivesRun` | go/pkg/manager/trader.go:143-218 | The same over every run of syncs, rollovers, persists, lost writes, foreign writes, crashes and registrations |
| `CircuitLatch.TrippedTraderStaysOut` | go/pkg/manager/risk_circuit.go:11-59 | After a trip that was stored, or over a record that says not running, no such run makes the trader run or be asked for a decision, whatever `auto_start` says |
| `CircuitLatch.TripLatchesIff` | go/pkg/manager/risk_circuit.go:11-41 | That is so exactly when the trip was stored or the record already said not running |
| `CircuitLatch.RunsAgain` | go/pkg/manager/manager.go:275-283 | Otherwise a crash and a registration run the trader again, from a running record or from none with `auto_start` |
| `CircuitLatch.LostTripWriteRunsAgain` | go/pkg/manager/risk_circuit.go:11-41 | The case of a running record, even without `auto_start` |
| `CircuitLatch.RolloverClearsTheFlagOnly` | go/pkg/manager/risk_circuit.go:43-59 | The first sync of another day clears the circuit but leaves the trader paused, and a restart then finds it stopped |
| `CircuitLatch.CircuitStaysBlockedThatDay` | go/pkg/manager/risk_circuit.go:43-59 | Over every run of syncs, stores, failures and other writers on its own UTC day, a blocked circuit stays as it is |
| `ControlPlane.PersistThenRecover` | go/pkg/manager/control_plane.go:231-306 | What is recovered is what was persisted, except that an expired pause without a blocked circuit is stopped and a stop over a blocked circuit is paused |
| `ControlPlane.RecoversAsIff` | go/pkg/manager/control_plane.go:231-271 | From any record, whoever wrote it, a recorded state comes back at every moment exactly when the record says the same version, pause and running |
| `ControlPlane.PersistedSays` | go/pkg/manager/control_plane.go:273-306 | What a plane stores does |
| `ControlPlane.ForeignRecordWins` | go/pkg/manager/manager.go:288-305 | A paused trader is recovered as running from a running record of a manager |
| `ControlPlane.PersistKeepsTheRest` | go/pkg/manager/control_plane.go:273-306 | Decision, allocation, performance and daily-risk detail are never altered; a circuit is cleared only by running |
| `ControlPlane.NextStateRecorded` | go/pkg/manager/control_plane.go:180-229 | Commands record pause data only in the paused state |
| `ControlPlane.NextStateObeys` | go/pkg/manager/control_plane.go:180-229 | A command is accepted exactly when the transition exists; it leaves the state it names, the end and reason of the pause for a pause and no pause otherwise, and who asked and why |
| `ControlPlane.PauseLastsUntil` | go/pkg/manager/control_plane.go:208-306 | A stored pause with an end is recovered as paused exactly before that end, unless a circuit is blocked |
| `ControlPlane.RunningNeedsStartOrResume` | go/pkg/manager/control_plane.go:180-229 | Running is reached exactly by start, or by resume from a state other than stopped; exactly which commands a state accepts |
| `ControlPlane.RestartShowsIff` | go/pkg/manager/control_plane.go:180-306 | A restart before a command changes its outcome exactly for a pause or resume in one of the two exceptions |
| `ControlPlane.FirstNamedIs` | go/pkg/manager/control_plane.go:168-178 | A lookup finds a trader of that id exactly when one is configured |
| `ControlPlane.Plane.FindTrader` | go/pkg/manager/control_plane.go:168-178 | The first configured trader with the id |
| `ControlPlane.Plane.ForeignWrite` | go/pkg/manager/manager.go:288-305 | A manager's write of the shared store changes exactly that record, and the plane no longer knows what is in it |
| `ControlPlane.Plane.Handle` | go/pkg/manager/control_plane.go:106-166 | One command at a time: exactly which are accepted; an accepted one leaves in memory and store the state, pause end, reason and requester it asks for, a rejected one changes neither; a stored pause with an end is recovered as paused exactly before that end, unless a circuit is blocked |
| `ControlPlane.Plane.RestartRecovers` | go/pkg/manager/control_plane.go:231-306 | For every trader whose record the plane wrote last, the store gives back its state up to the two exceptions |
| `ControlPlane.Plane.RestartRecoversIff` | go/pkg/manager/control_plane.go:231-306 | For every commanded trader, whoever wrote last, it does so at every moment exactly when the record says what the state in memory says |
| `ControlRace.RunKeeps` | go/pkg/manager/control_plane.go:106-166 | Over every interleaving of reading, persisting and recording: a command that persisted and recorded last left the same in memory and store |
| `ControlRace.RestartAfterRaceIff` | go/pkg/manager/control_plane.go:106-166 | After any such run in which the plane wrote the store last, a restart gives back what memory says exactly when the snapshots persisted last and recorded last are alike |
| `ControlRace.CommandsInTurnAgree` | go/pkg/manager/control_plane.go:106-166 | Commands that do not overlap leave the same in memory and store, whatever fails or restarts in between |
| `ControlRace.OverlapShowsAnotherState` | go/pkg/manager/control_plane.go:141-156 | A start and a stop that overlap: memory says running, a restart finds the trader stopped |
| `Policy.PriceGuardsIff` | go/pkg/manager/policy.go:143-204 | The guards pass exactly when stop and target lie on opposite sides of a positive entry, are present where demanded, and the reward is the demanded multiple of the risk |
| `Policy.EnforceAllowedSymbol` | go/pkg/manager/policy.go:289-303 | Passes exactly for a non-empty symbol on the whitelist, or any when the list is empty |
| `Policy.SecondaryRiskIff` | go/pkg/manager/manager.go:1535-1557 | The check passes exactly when size and projected margin are within their caps |
| `Policy.MarginCapCoversOrder` | go/pkg/manager/manager.go:1543-1555 | Within the cap means that the used margin plus the order's is at most the capped share of equity |
| `Policy.CapByCoin` | go/pkg/manager/policy.go:97-107 | BTC, ETH, BTCUSDT and ETHUSDT have the cap of major coins, all others that of altcoins |
| `Policy.TokenBinds` | go/pkg/manager/policy.go:391-417 | Decisions that fit one token are of one trader, symbol, action and leverage, and differ in size by at most twice the tolerance |
| `Execution.SymbolAvailable` | go/pkg/manager/manager.go:1213-1229 | Passes exactly for a non-empty symbol without an owner |
| `Execution.EnforceOpenRisk` | go/pkg/manager/policy.go:272-287 | Passes exactly when whitelist, daily loss, size and margin do; trips the breaker exactly on a daily loss, with its amounts in the reason |
| `Execution.Sync` | go/pkg/manager/manager.go:1117-1171 | Exactly when it succeeds; the synced trader has the account's figures and a reconciled book, the others are untouched, coverage and agreement kept |
| `Execution.ApproveOpen` | go/pkg/manager/policy.go:84-118 | An open passes exactly when every hard rule holds of the decision and the present state; a leverage above the cap of its coin is refused |
| `Execution.Approve` | go/pkg/manager/policy.go:54-141 | A token is issued exactly for an approved decision and binds trader, symbol, action, size and leverage; the only side effect is a trip |
| `Execution.QuantityCarriesSize` | go/pkg/manager/manager.go:921-924 | The quantity is worth the size at the price, and positive exactly for a positive size |
| `Execution.Place` | go/pkg/manager/manager.go:877-1094 | Exactly when an order is handed to the provider; what it carries: the quantity worth the size at the order price, as a limit order at that price or as a market order with a slippage and no price; what position is booked for its fill |
| `Execution.Fill` | go/pkg/manager/manager.go:1056-1094 | The position booked for an accepted order is the reported fill, or the order at the price that sized it where the reply reports none |
| `Execution.PrepareOpen` | go/pkg/manager/manager.go:754-771 | Ready exactly when the symbol is free before and after a successful sync and a slot is free after it |
| `Execution.SubmitOpen` | go/pkg/manager/manager.go:861-1099 | Sends exactly when risk passes and the order can be placed; books an accepted fill, and nothing otherwise |
| `Execution.ExecuteOpen` | go/pkg/manager/manager.go:754-1099 | An open order leaves exactly when it is safe against the state after the sync; that state mirrors the exchange; its leverage is the one named or the cap of the coin; what is booked, and when the breaker trips |
| `Execution.ExecuteClose` | go/pkg/manager/manager.go:772-854 | A close is sent exactly by the owner, or by anyone for an unowned symbol; so never for a symbol another trader holds, and always for one the trader holds; acceptance releases the symbol |
| `Execution.CloseIsOwn` | go/pkg/manager/manager.go:1231-1262 | What a trader may close no other registered trader holds, and what it holds it may close |
| `Execution.Execute` | go/pkg/manager/manager.go:735-1100 | Without a valid token nothing is sent; exactly when an open and a close are; exactly when an action that is neither succeeds, and that it changes nothing; a failure books nothing |
| `Execution.TokenForIsValid` | go/pkg/manager/policy.go:391-417 | A token fits its own decision until it expires, 30 seconds after approval |
| `Execution.ApprovedIsSound` | go/pkg/manager/policy.go:84-118 | An approved open has sound prices, confidence, size and leverage, an admitted mode, and trips nothing |
| `Execution.ApprovedLeverage` | go/pkg/manager/policy.go:97-107 | With a validated configuration the executed leverage is the approved one, above zero and within the cap |
| `Execution.LeverageAboveCapRefused` | go/pkg/manager/policy.go:105-107 | A decision that names a leverage above the cap of its coin is neither sound nor approved |
| `Execution.SoundLeverage` | go/pkg/manager/policy.go:97-107 | A sound decision is executed at the leverage it names, or at the cap of its coin when it names none, and never above it |
| `Execution.CapsAreByCoin` | go/pkg/manager/policy.go:97-107 | With caps of 20 and 10, a leverage of 15 is refused for SOL and within the cap for BTC |
| `Execution.SafetyIgnoresCompletion` | go/pkg/manager/manager.go:861-876 | Filling in the leverage changes none of what the account checks look at |
| `Execution.DecisionRulesIff` | go/pkg/manager/policy.go:84-107 | A decision is sound exactly when it says a size within its cap, enough confidence, a leverage within the cap of its coin, and prices with stop and target on opposite sides of the entry, the target far enough away |
| `Execution.AccountRulesIff` | go/pkg/manager/policy.go:272-350 | An open is safe in a state exactly when its symbol has no owner and is allowed, there is room for another position, the loss of the day is within the dollars and the share that are set, and the margin in use with its own is within the share of the equity |
| `Execution.ApprovedIff` | go/pkg/manager/policy.go:54-141 | Exactly what is approved: waiting; a close by the owner, or of a symbol without one; an open that satisfies every hard rule in the present state; trades only where the mode admits them, and nothing else |
| `Execution.ApprovalIgnoresPadding` | go/pkg/manager/policy.go:58-71 | Approval of a padded action equals approval of the bare one |
| `Execution.ExecutedActions` | go/pkg/manager/manager.go:749-750 | Execution recognises exactly the trade actions without surrounding white space |
| `Execution.ActionsAre` | go/pkg/manager/policy.go:67-69 | Which actions trade, which open, and which do nothing |
| `Execution.ExecuteDecision` | go/pkg/manager/manager.go:722-1100 | Every open that leaves satisfies all hard rules, each written out, against the synced state and carries the quantity that is worth its size at its entry price, at the leverage it names or else the cap of its coin, above zero and never above that cap; once accepted, the trader alone holds the symbol and has at most its maximum of positions; a close leaves only for a symbol no other trader holds; exactly when orders leave; the market is never asked for a price; a padded trade action sends nothing, changes no book, and succeeds exactly when it is approved in time |
| `Execution.WorthAtMostSizeIff` | go/pkg/exchange/hyperliquid/convenience.go:42-76 | What leaves is worth the decision's size times limit price over entry price; so at most its size exactly when it is a limit order or the provider's reference price with slippage is at most the entry price |
| `Execution.MarketWorthIs` | go/pkg/exchange/hyperliquid/convenience.go:42-76 | A market order goes out at the reference price moved by the basis points of the trader, or 50: up for a buy, down for a sale |
| `Execution.MarketOrderExceedsAnyBound` | go/pkg/manager/manager.go:930-946 | For every decision and every bound some reference price makes its market order worth more |
| `Execution.MarketOrderOutgrowsItsCap` | go/pkg/manager/manager.go:930-946 | A sound decision of 100 dollars whose market order is worth ten million under a size cap of 100 |
| `Execution.SafeOrderIsAffordable` | go/pkg/manager/manager.go:1543-1555 | The margin of a safe order that is worth at most its decision's size is at most what the equity leaves beside the margin in use, up to the tolerance |
| `CommandWorker.NextMovesForward` | go/internal/model/controlcommandsmodel.go:187-228 | No step moves a row back towards the queue, loses it or changes its command |
| `CommandWorker.NextKeepsHands` | go/pkg/manager/control_command_worker.go:47-99 | Every step keeps: a command in a worker's hand is claimed, undecided and in no other hand |
| `CommandWorker.NextKeepsHistory` | go/pkg/manager/control_command_worker.go:77-99 | Every step keeps: executed commands are decided approvals of decisions, each executed once |
| `CommandWorker.ExecutedAtMostOnce` | go/pkg/manager/control_command_worker.go:47-99 | Over every run with any workers, crashes, lost replies and lost or late writes, each command is executed at most once, and a reject never |
| `CommandWorker.RunMovesForward` | go/internal/model/controlcommandsmodel.go:187-228 | Over every run statuses never move back |
| `CommandWorker.NextIsTracked` | go/pkg/repo/control_command_repo.go:149-170 | While no id is another one padded, every step moves statuses one place along queued, processing, terminal |
| `CommandWorker.PaddedIdSkipsProcessing` | go/internal/model/controlcommandsmodel.go:216-228 | For every padded id, a run in which its rejection cancels the queued approval stored under the trimmed id |
| `CommandWorker.OrderlyRunsIff` | go/internal/model/controlcommandsmodel.go:187-228 | Over a set of ids all runs are orderly exactly when no id is another one padded |
| `CommandWorker.TrimmedRunsAreOrderly` | go/pkg/repo/control_command_repo.go:250-256 | So every run over ids without surrounding white space, as the repository makes them, is orderly |
| `CommandWorker.SubmittedWasExecuted` | go/pkg/manager/control_command_worker.go:93-98 | A row marked submitted is a trade whose decision was handed to the manager exactly once |
| `CommandWorker.OutcomeIs` | go/pkg/manager/control_command_worker.go:77-99 | A rejection is cancelled, an approval of a decision that succeeded completed, anything else failed; submitted is a completed open or close |
| `CommandWorker.Limit` | go/internal/model/controlcommandsmodel.go:191-193 | A pass asks for the batch size where that is 1 to 100, and for 10 rows otherwise |
| `CommandWorker.Oldest` | go/internal/model/controlcommandsmodel.go:194-199 | The oldest of a set of rows, by time and id |
| `CommandWorker.Table.ClaimQueued` | go/internal/model/controlcommandsmodel.go:187-214 | Claims as many available rows as the limit allows, each created before every available row left out, or at the same time with a smaller id |
| `CommandWorker.ShuffledClaim` | go/internal/model/controlcommandsmodel.go:194-206 | In whatever order the rows are returned, they are that claim |
| `CommandWorker.Table.Claim` | go/internal/model/controlcommandsmodel.go:194-206 | Exactly the claimed rows become processing |
| `CommandWorker.Table.UpdateStatus` | go/internal/model/controlcommandsmodel.go:216-228 | The row under the trimmed id, if any, gets the status |
| `CommandWorker.ProcessCommand` | go/pkg/manager/control_command_worker.go:77-99 | A rejection ends as cancelled, a usable approval of a decision asks the manager and ends as completed exactly when that succeeds, anything else as failed; the row of the trimmed id then says so |
| `CommandWorker.ProcessAll` | go/pkg/manager/control_command_worker.go:63-73 | The claimed commands one by one: a path of the protocol, each counted under its outcome |
| `CommandWorker.ClaimBatch` | go/internal/model/controlcommandsmodel.go:187-214 | The claim of a pass takes the oldest available rows, or none; it is a step of the protocol |
| `CommandWorker.ProcessOnce` | go/pkg/manager/control_command_worker.go:47-75 | A pass is a path of the protocol; it claims the oldest available commands, and all of them below the limit; claimed equals completed plus failed plus cancelled; exactly the approvals are executed, in order |
| `CommandExecution.ExecuteForTrader` | go/pkg/manager/control_command_worker.go:101-116 | Fails without effect for an unknown trader; an opening order that leaves is safe against the state after its sync; a padded trade action sends nothing and succeeds exactly when it is approved in time |
| `CommandExecution.CarryOut` | go/pkg/manager/control_command_worker.go:77-116 | The command's outcome, status write and effect: it ends as submitted only for a trade, an order then left exactly when the action has no white space around it, and an opening one was safe; a padded trade leaves nothing and yet ends as submitted exactly when it is approved in time |
| `CommandExecution.CarryOutAll` | go/pkg/manager/control_command_worker.go:63-73 | The claimed commands one by one: a path of the protocol, every effect accounted for, every row its own outcome |
| `CommandExecution.RunPass` | go/pkg/manager/control_command_worker.go:47-75 | So for a whole pass, which claims the oldest commands |
| `CommandExecution.PaddedTradeEndsSubmitted` | go/pkg/manager/control_command_worker.go:77-99 | A command to open long with a space before the action ends as completed and submitted, with nothing sent |
| `CommandExecution.SubmittedRowTellsOfOrder` | go/pkg/manager/control_command_worker.go:47-99 | A row such a pass marks as submitted had an order leave exactly for an unpadded action, and an opening one was safe against the state after its sync |
| `ControlQueue.JoinInjective` | go/internal/controlqueue/queue.go:191-196 | Joining with NUL is injective on parts without NUL |
| `ControlQueue.JoinSharedIff` | go/internal/controlqueue/queue.go:191-196 | Other parts share the joined text of given ones exactly when these contain a NUL |
| `ControlQueue.NulCollides` | go/internal/controlqueue/queue.go:191-196 | For every target, id, action and key, two requests of different purpose of which the second is answered with the first one's command |
| `ControlQueue.IndexSameIff` | go/internal/controlqueue/queue.go:191-196 | Keyed requests without NUL share an index exactly when target, target id, action and key agree |
| `ControlQueue.GoodIdsExist` | go/internal/controlqueue/queue.go:198-202 | Ids that differ for different sequence numbers, as the queue is assumed to make them, exist |
| `ControlQueue.EnqueuedIsSound` | go/internal/controlqueue/queue.go:76-124 | Enqueue keeps: list and id map hold the same commands, and the idempotency maps are inverse to each other on exactly the live keyed commands |
| `ControlQueue.RemovedIsSound` | go/internal/controlqueue/queue.go:126-148 | Remove keeps the same |
| `ControlQueue.RunIsSound` | go/internal/controlqueue/queue.go:76-148 | So it holds after every run |
| `ControlQueue.OneCommandPerPurpose` | go/internal/controlqueue/queue.go:84-92 | At most one live command exists per target, target id, action and key |
| `ControlQueue.SameIndexIsReused` | go/internal/controlqueue/queue.go:84-92 | A request with the index of a live command changes nothing and returns that command |
| `ControlQueue.ReenqueueIsReused` | go/internal/controlqueue/queue.go:84-92 | Enqueueing the same purpose again changes nothing and returns the same command |
| `ControlQueue.ReusedHasSamePurpose` | go/internal/controlqueue/queue.go:84-92 | A reused command has the purpose asked for, without NUL in the parts |
| `ControlQueue.RemoveUndoesEnqueue` | go/internal/controlqueue/queue.go:76-148 | Removing a command just added restores list and maps |
| `ControlQueue.CommandIsFrom` | go/internal/controlqueue/queue.go:173-189 | A new command carries every field of its request trimmed, target and action in lower case, and its own id for a missing correlation id |
| `ControlQueue.Queue.Enqueue` | go/internal/controlqueue/queue.go:76-124 | The new state and the result are those of the enqueue on values; a new command is put last and carries every trimmed field of its request |
| `ControlQueue.Queue.Remove` | go/internal/controlqueue/queue.go:126-148 | The new state is that of the remove on values: the first command with the trimmed id is gone, the others keep their order |
| `ControlQueue.Queue.Get` | go/internal/controlqueue/queue.go:150-159 | Finds exactly the live command with the trimmed id, which is in the list |
| `Portfolio.AppliedKeepsBasis` | go/pkg/backtest/portfolio.go:20-103 | Cash less cost basis moves by exactly the fill's cost and fee, and cash less realized gain by the fee, whether the fill adds, reduces, closes or flips |
| `Portfolio.AccountMatchesLedger` | go/pkg/backtest/portfolio.go:20-103 | After any fills the account carries the ledger's position, cost and fees |
| `Portfolio.FeeIs` | go/pkg/backtest/portfolio.go:115-120 | Ten thousand fees are the value traded times the basis points |
| `Portfolio.TotalFeesAreOfTurnover` | go/pkg/backtest/portfolio.go:20-120 | Over all fills the fees are the basis points of the turnover, the sum of price times quantity of what is booked |
| `Portfolio.AverageCostEqualsLedger` | go/pkg/backtest/portfolio.go:20-120 | For every order sequence and mark, position is the sum of signed quantities and cash plus unrealized is initial cash plus the ledger's mark-to-market gain less fees, through adds, partial and full closes and flips |
| `Portfolio.FlatAccountRealizesCashFlow` | go/pkg/backtest/portfolio.go:20-103 | Once flat, realized gain is the net cash flow of the fills |
| `Portfolio.UnsignedMean` | go/pkg/backtest/portfolio.go:38-53 | The code's average over unsigned quantities is the signed weighted mean |
| `Portfolio.UnsignedClose` | go/pkg/backtest/portfolio.go:55-103 | The code's gain on a close is the signed one |
| `Portfolio.AppliedClosesAtAverage` | go/pkg/backtest/portfolio.go:38-103 | A fill on the other side realizes the distance from the average cost for what it closes, and only that; the average stays while the position shrinks, is gone once it is flat, and a fill that crosses zero starts a new one |
| `Portfolio.Book.Apply` | go/pkg/backtest/portfolio.go:20-103 | The in-place update is the update on values; its completion flag; it realizes gains at the average cost for exactly what it closes; the fee is the basis points of the value traded, and a fill without price or quantity changes nothing |
| `Portfolio.Book.Equity` | go/pkg/backtest/portfolio.go:105-113 | Cash plus unrealized gain at the mark, which is recorded |
| `Drawdown.MaxDrawdownPct` | go/pkg/backtest/engine.go:141-154 | The largest loss from a running peak; the largest fall over all pairs exactly when no entry lies deeper below zero relative to the lowest positive value so far than the deepest does relative to its peak; so for nonnegative series, within 0 to 100 |
| `Drawdown.LargestPeakLossIsMaximum` | go/pkg/backtest/engine.go:141-154 | The running result bounds every peak loss and is attained |
| `Drawdown.LargestPeakLossIsPairwise` | go/pkg/backtest/engine.go:141-154 | For nonnegative series it is the maximum over all pairs |
| `Drawdown.PeakLossByDepth` | go/pkg/backtest/engine.go:141-154 | Once an entry is negative the result is the whole peak and the greatest depth below zero |
| `Drawdown.PairwiseIff` | go/pkg/backtest/engine.go:141-154 | That exact condition, for every series with a positive head |
| `Drawdown.NegativeEquityBreaksPairwise` | go/pkg/backtest/engine.go:141-154 | A series for which the result is not the largest fall, and a negative one for which it is |
| `Engine.ReconciledOneMore` | go/pkg/backtest/engine.go:82-107 | Sending one more order keeps the running totals reconciled with the detail rows |
| `Engine.TallyIsReconciled` | go/pkg/backtest/engine.go:82-107 | After any orders the rows are the running net positions, realized values sum to the realized total, fees to the total fees, wins and trades are counted from the fills |
| `Engine.SlippedIs` | go/pkg/backtest/engine.go:130-139 | A buy pays the slippage on top of the price, and a sale receives what with the slippage on top would be the price; so positive slippage raises a buy and lowers a sale |
| `Engine.SentByPriced` | go/pkg/backtest/engine.go:68-107 | Every order of a feed is sent at the price of its turn with the slippage |
| `Engine.SendAll` | go/pkg/backtest/engine.go:82-107 | One turn's orders, sent and booked in order |
| `Engine.Mark` | go/pkg/backtest/engine.go:108-110 | The equity of a turn is the ledger's |
| `Engine.Turn` | go/pkg/backtest/engine.go:69-110 | One turn succeeds exactly when feed, strategy and exchange do |
| `Engine.Feed` | go/pkg/backtest/engine.go:68-111 | Over all turns: the tally of everything sent and one equity per turn |
| `Engine.Run` | go/pkg/backtest/engine.go:57-128 | A result exactly for a configured, completing backtest; last equity is initial equity, or 100000, plus total gain less fees; fees are the basis points of the turnover; every row has the price of its turn with the slippage and the running position; realized values sum up, wins are at most trades, trades at most orders |
| `OrdersPage.KindsFor` | go/internal/logic/tradingcontractlogic.go:1232-1243 | Exactly which statuses ask for submitted and for failed orders, without repetition |
| `OrdersPage.NormalizeLimitOffset` | go/internal/logic/tradingcontractlogic.go:1370-1384 | The limit itself from 1 to 500, 100 below and 500 above; no negative offset |
| `OrdersPage.PageIs` | go/internal/logic/tradingcontractlogic.go:1359-1368 | A page is the elements from the offset on, up to the limit and as far as there are any |
| `OrdersPage.FilteredPageIff` | go/internal/logic/tradingcontractlogic.go:1359-1368 | Paging a filtered list gives the page of the whole exactly when nothing was filtered out up to the page's end, or the page is past the end |
| `OrdersPage.OrderIsUnique` | go/internal/logic/tradingcontractlogic.go:1213-1218 | Events with unique ids have one order by time and id, so it does not matter who sorts |
| `OrdersPage.MergedIsFiltered` | go/internal/logic/tradingcontractlogic.go:1200-1218 | Merging and sorting the replies gives the sorted log less the events too old for their reply |
| `OrdersPage.NewestAreRecent` | go/internal/model/auditeventsmodel.go:124-168 | The n newest of all events are among the n newest of their own types |
| `OrdersPage.UnfilteredPageFetched` | go/internal/logic/tradingcontractlogic.go:1193-1199 | Without a symbol and within 500, everything up to the page's end is fetched |
| `OrdersPage.OfSymbol` | go/internal/logic/tradingcontractlogic.go:1219-1227 | Exactly the records of the symbol, in order |
| `OrdersPage.AllOrdersAre` | go/internal/logic/tradingcontractlogic.go:1182-1230 | The list a page is compared with: exactly the events of the trader, status and symbol, the latest first and then by id |
| `OrdersPage.OrdersFromAuditEvents` | go/internal/logic/tradingcontractlogic.go:1182-1230 | The page equals that of the whole sorted and filtered log exactly when everything up to its end was fetched, and always without a symbol filter and with limit plus offset at most 500 |
| `OrdersPage.SymbolFilterLosesOrders` | go/internal/logic/tradingcontractlogic.go:1200-1227 | A log whose only order of a symbol is missing from its page |
| `OrdersPage.DeepPageIff` | go/internal/logic/tradingcontractlogic.go:1193-1199 | Without a symbol filter and with one event type, the page is right exactly when it ends within 500, or there are at most 500 orders, or none on the page |
| `OrdersPage.DeepPageLosesOrders` | go/internal/logic/tradingcontractlogic.go:1193-1199 | The 501st of 501 orders is missing from its page |
| `ConfigHistory.SyncedOneIsVersioned` | go/pkg/repo/trader_config_repo.go:127-168 | One record's sync keeps every history at versions 1 to v, each once, with v the row's version and the newest snapshot its detail, however its transaction ends |
| `ConfigHistory.SyncedAllIsVersioned` | go/pkg/repo/trader_config_repo.go:80-101 | So does a sync of many, wherever it stops |
| `ConfigHistory.EveryRunIsVersioned` | go/pkg/repo/trader_config_repo.go:80-168 | So does every sequence of syncs |
| `ConfigHistory.ChangesAre` | go/pkg/repo/trader_config_repo.go:204-233 | Exactly the fields that differ, in order and each once |
| `ConfigHistory.WriteIs` | go/pkg/repo/trader_config_repo.go:127-249 | What a sync that succeeds writes: the record into the row, one version on, and a history entry with its detail and exactly the fields that differed, or all for a first version |
| `ConfigHistory.RankIsAlphabetical` | go/pkg/repo/trader_config_repo.go:221 | That order is the alphabetical order of their names |
| `ConfigHistory.SyncedOneInStep` | go/pkg/repo/trader_config_repo.go:204-233 | A record is reported unchanged exactly when its row agrees; after a sync it agrees exactly when the store returns the detail's text |
| `ConfigHistory.ResyncUnchangedIff` | go/pkg/repo/trader_config_repo.go:80-233 | Syncing the same distinct records again reports all unchanged and writes nothing exactly when the store returns every detail's text |
| `ConfigHistory.UnchangedRecordGainsVersions` | go/pkg/repo/trader_config_repo.go:153-168 | A record whose detail does not come back gains a version and a history entry at every sync: n syncs add n |
| `ConfigHistory.ReformattedRecordGainsVersions` | go/pkg/repo/trader_config_repo.go:217-219 | So with a store that puts a space after the colon of an object |
| `ConfigHistory.VerbatimStoreIsStable` | go/pkg/repo/trader_config_repo.go:235-249 | A store that returns canonical text verbatim meets that condition |
| `ConfigHistory.StopsAtFailure` | go/pkg/repo/trader_config_repo.go:85-90 | After a failure the remaining records are not looked at |
| `ConfigHistory.SummaryTells` | go/pkg/repo/trader_config_repo.go:80-101 | Every record of a successful sync is listed once; one listed as inserted had no row, one listed as updated or unchanged had one or got it in the same sync; no row is lost |
| `ConfigHistory.ConfigStore.Write` | go/pkg/repo/repo.go:15-37 | Both tables or neither, also when the commit is not acknowledged; exactly what is written |
| `ConfigHistory.ConfigStore.SyncOne` | go/pkg/repo/trader_config_repo.go:127-168 | The new tables and the action are those of the sync on values |
| `ConfigHistory.ConfigStore.Sync` | go/pkg/repo/trader_config_repo.go:80-101 | The new tables and the summary are those of the sync on values; versions kept |
| `MessagePack.ConvertStr16ToStr8` | go/pkg/exchange/hyperliquid/auth.go:182-198 | The loop computes the rewrite |
| `MessagePack.ShortenedKeepsValues` | go/pkg/exchange/hyperliquid/auth.go:182-198 | Putting every short 16-bit string into the 8-bit format keeps all values, leaves none, and saves a byte for each |
| `MessagePack.RewriteKeepsValuesIff` | go/pkg/exchange/hyperliquid/auth.go:182-198 | On well-formed bytes the rewrite keeps the values exactly when only short 16-bit strings look like one to the scan; then none is left and each saves a byte |
| `MessagePack.OnlyStr16HasDaIsClean` | go/pkg/exchange/hyperliquid/auth.go:185-187 | That is so when 0xda occurs only as a format byte or inside a short 16-bit string |
| `MessagePack.IntegerIsCorrupted` | go/pkg/exchange/hyperliquid/auth.go:182-198 | The integer 55808 followed by a zero is not, and is changed |
| `Budget.BudgetGuard.ResetIfNeeded` | go/pkg/llm/budget.go:87-95 | A new day starts at zero, and the same day keeps everything |
| `Budget.BudgetGuard.AllowAttempt` | go/pkg/llm/budget.go:41-55 | Refuses exactly under strict enforcement with the limit used up |
| `Budget.BudgetGuard.RecordUsage` | go/pkg/llm/budget.go:57-85 | Adds the tokens and their cost, at the rate per million of the model, to the day's; the snapshot with usage and alert; reports exactly when strict enforcement is exceeded |
| `Budget.CostIs` | go/pkg/llm/budget.go:57-70 | A million costs are the tokens times the rate |
| `Budget.AlertIff` | go/pkg/llm/budget.go:72-79 | The alert is raised exactly when the day's tokens reach the threshold's share of the limit, and never for a threshold above 100 |
| `Budget.NextWithinBudget` | go/pkg/llm/budget.go:41-95 | Every step keeps: even if all attempts in flight use their most, usage stays within limit - 1 + k·M |
| `Budget.OvershootIsBounded` | go/pkg/llm/budget.go:41-95 | Over every interleaving and day change usage is at most limit - 1 + k·M |
| `Budget.BoundIsReached` | go/pkg/llm/budget.go:41-95 | Some run reaches that bound, for all limits, k and M |
| `Budget.UsedIsSinceReset` | go/pkg/llm/budget.go:57-95 | The tokens used and their cost are those recorded since the day last changed |
| `DecisionCap.CloseFirstOrders` | go/pkg/manager/manager.go:1960-1983 | Sorting permutes the decisions into close, open, other, each by symbol |
| `DecisionCap.CloseFirstIsStable` | go/pkg/manager/manager.go:1960-1972 | Decisions of one priority and symbol keep their order |
| `DecisionCap.CappedIs` | go/pkg/manager/manager.go:1986-2009 | The cap keeps every decision that opens nothing, and exactly the first opens |
| `DecisionCap.CapNewOpenDecisions` | go/pkg/manager/manager.go:1986-2009 | The loops compute the cap |
| `DecisionCap.Slots` | go/pkg/manager/manager.go:620-629 | Exactly the free slots, or the per-cycle cap if set and smaller |
| `DecisionCap.PlanCycle` | go/pkg/manager/manager.go:618-630 | Closes before opens before the rest, each by symbol; every non-open kept; exactly the first min(slots, opens) opens in sorted order |
| `Clock.DayIs` | go/pkg/manager/policy.go:371-376 | An instant is on a UTC day exactly from its midnight to the next, 24 hours later |
| `Text.NormalizeSymbolIdempotent` | go/pkg/manager/manager.go:1209-1211 | A normalised symbol is its own key |
| `Text.TrimIs` | go/pkg/manager/manager.go:1209-1211 | Trimming takes white space from both ends and nothing else |
| `Text.CharsAre` | go/pkg/manager/manager.go:1209-1211 | White space and case by code point |
| `Text.Fixed2SaysTheAmount` | go/pkg/manager/policy.go:45-50 | The amounts in a daily-loss reason read as the amount to the nearest cent |

## Left out

- Floating-point rounding: prices, quantities and equity are exact reals, NaN and infinities do not occur, and formatting of prices and sizes for the exchange is not modelled.
- Integers are unbounded: 64-bit token counters and sequence numbers do not wrap.
- Case mapping is ASCII, and white space is the Latin-1 part of Go's.
- Concurrency inside the manager's calls other than symbol ownership: `Trading.Manager` and `Execution` are sequential, and interleavings are the subject of `OwnershipProtocol`, `CommandWorker`, `CircuitLatch` and `Budget`.
- The runtime-store writes within manager calls: they are events of `CircuitLatch`.
- Timestamps of virtual positions, cooldowns, stop-loss and take-profit orders after a fill, journals, audit contents and metrics.
- ControlPlane.Plane.Handle: a store that is attached or exchanged while the plane is in use. Overlapping commands are the subject of `ControlRace`, where a persist, which reads the record before it writes it, is one step.
- ControlPlane.Plane.RestartRecovers: overlapping commands, which are the subject of `ControlRace`.
- Execution.WorthAtMostSizeIff: the provider's rounding of the price to significant figures; a sale is valued at its limit price, above which it may be filled.
- Nil managers, traders and decisions, and the environment checks behind the live-mode gate, which is one boolean.
- Execution.ExecuteClose: the fill price and quantity reported for a close are only recorded in an event and are not modelled.
- CommandWorker.ProcessOnce: how JSON payloads become decisions is an input; a claim's rows come in any order, as the query promises none.
- The idempotent insert of the command repository, which rests on a database index.
- ControlQueue.Queue.Enqueue: ids come from a given function assumed to differ for different sequence numbers, standing for the SHA-256 digest; the derived command type is not modelled.
- ConfigHistory.ConfigStore.SyncOne: the row cache in front of the database is not modelled, nor are the authors and reasons stored with a version.
- OrdersPage.OrdersFromAuditEvents: the page is of audit events, and their formatting as orders is not modelled. The queries for the two event types are taken to read one log, with nothing appended in between.
- Engine.Run: the Sharpe ratio and the written report. Runs that sell at a slippage of -10000 basis points, where the code divides by zero, are outside its contract, as they are outside those of `SendAll`, `Turn` and `Feed`.
- Engine.SendAll: sales at a slippage of -10000 basis points, for the same reason.
- Engine.Turn: sales at a slippage of -10000 basis points, for the same reason.
- Engine.Feed: sales at a slippage of -10000 basis points, for the same reason.
- Client calls that ask the budget but never record (go/pkg/llm/client.go:427) are attempts that vanish.
- HTTP handlers, configuration loading, the language-model client, prompt rendering, the exchange simulator and providers, signing, and the cache hydration of go/internal/persistence.
