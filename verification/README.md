# Negotiation engine: a verified model

The engine runs price negotiations between a buyer and several sellers. A session's state is never stored: it is
a fold over an append-only event log. This project models that fold, the handlers that append to the log, and the
objects around them, and proves what holds of every log and of every interleaving.

- `Protocol`, `Reducer`, `ReducerHistory`, `Admission`: event vocabulary, transition table, `deriveState` as a loop
  refining a fold, what the derived session means in terms of the raw log, and exactly which logs are accepted.
- `Routes`, `EngineRuns`: each route and enforcer action as an unlocked read of some earlier prefix of the log
  followed by a locked section that appends at most one event. A run is any sequence of such actions, over any
  number of sessions, with any stale reads and clock readings. The main safety results are about every run.
- `LogView`, `RouteLaws`: for each handler, exactly when it appends in a run, said of the raw logs.
- `SessionLocks`, `SessionManagement`, `HandlerRuns`: the FIFO lock, the count-keyed cache, and handlers cut at their
  awaits and interleaved in any order through both. Every interleaving leaves the logs of a run, so what is proved of
  runs holds of interleavings, and no handler of a session that goes on loses its append to another.
- `Enforcement`, `ControlEnvelopes`: the deadline scan, with other handlers going on while it waits, and envelope
  tombstones.
- `EventStore`, `Subscriptions`, `Visibility`: append, filtered reads, cursor polling, the replay-then-live
  subscription, and who sees what.
- `Canonical`, `QuoteSigning`, `QuoteVerification`: the canonical form, what a signature covers, and the committed
  quote as the settlement verifies it.
- `StatsCollection`, `ConnectionTracking`, `Amounts`, `PriceText`: fast or incremental forms against simple ones.
- `SampleRun`: one run in full, from the RFQ to a deal and a settlement.

Five promises turn out not to hold everywhere; each has a witness and an exact condition.

- A settlement record is seen by the seller it concerns. `/execute` compares only the quote id, so the record can name
  another seller, who then sees it while the selected one does not (`SampleRun.ExecuteCanNameAnother`). In a run every
  event reaches exactly the sellers it concerns if and only if each quote that `/execute` settled named the seller
  selected in the session (`Visibility.RunSeenExactly`). `settle-report` takes the committed quote and always names
  the deal's seller (`EngineRuns.ReportRecordsDeal`).
- A restart keeps the statistics. A replayed collector takes the buyer from the creating event's actor, a live one from
  its payload, and they differ on `StatsCollection.RELAYED` (`BuyersCanDiffer`). Nothing differs if every RFQ was
  created by the buyer it names, which is so in every run of the engine (`EngineRestartLosesNothing`); the buyers are
  equal exactly if the creators, taken together, are the buyers named (`RestartAgreesWithLive`).
- A sanitized counter is within the budget. The lower clamp is applied last, so a budget of `0.0000005` lets a counter
  of `0.000001` through (`SanitizedCanExceedBudget`). The counter is within the budget, before and after scaling,
  exactly when the budget is at least the minimum price (`SanitizedStaysInBudget`).
- Canonical forms keep every key. `sortKeys` assigns into a plain object, so a key `"__proto__"` is lost
  (`ProtoIsDropped`); forms are equal exactly up to that key, key order and empty extensions
  (`SameFormIffEquivalent`).
- Sorting twice is sorting once. It is not on a top-level `extensions` that holds nothing but `"__proto__"`
  (`NotAlwaysIdempotent`), and that is the only exception (`IdempotentIff`).

The types file speaks of a cap of 500 events per session; the code enforces none, so only the non-counter events
are bounded here.

## Model

| member | source | states |
|---|---|---|
| Reducer.DeriveState | packages/engine/src/state/session.ts:110-383 | the replay loop computes the recursive fold, for every log, including the first error it meets; which logs it accepts, and in which state, is `Admission.AcceptedLogs` and `Admission.StateFromLog` |
| Reducer.PrefixAccepted | packages/engine/src/state/session.ts:110-383 | every non-empty prefix of an accepted log is accepted |
| Reducer.RejectedForever | packages/engine/src/state/session.ts:110-383 | an error at some prefix is the result for every longer log |
| Admission.AcceptedIffAdmitted | packages/engine/src/state/session.ts:110-383 | after any accepted log the next event is accepted if and only if the raw log admits it, type by type: offers by their seller and counters to an offerer while nobody is selected, selections by the buyer of the first offer with that id, signatures and rollbacks naming the selected seller, expiry while live, cancellation while nobody is selected, settlements once committed |
| Admission.AcceptedLogs | packages/engine/src/state/state-machine.ts:18-49 | a log is accepted if and only if it is not empty and each of its events was admitted by those before it |
| Admission.StateFromLog | packages/engine/src/state/state-machine.ts:18-49 | the state of an accepted log is the one its raw events show: which ending happened, whether a selection is current, whether there is an offer |
| ReducerHistory.QuoteFieldsAreCurrent | packages/engine/src/state/session.ts:234-350 | in every accepted log the selection, quote, signatures and pending time are exactly those of the last selection with no rollback since, signatures come from later events, all are absent in OPEN, NEGOTIATING and CANCELLED, and a selected offer is on record and belongs to the selected seller |
| ReducerHistory.SessionCountsTheLog | packages/engine/src/state/session.ts:122-263 | recorded offers, counters and RFQ are those in the log; totals and per-seller counts count the log's events |
| ReducerHistory.TotalsAreSums | packages/engine/src/state/session.ts:196-202 | the offer and accept totals are the sums of the per-seller maps |
| ReducerHistory.RecordsOnlyGrow | packages/engine/src/state/session.ts:169-232 | along any accepted log the RFQ is constant and offers and counters only grow |
| ReducerHistory.CommittedIsAbsorbing | packages/engine/src/state/state-machine.ts:40-48 | after COMMITTED every event is a settlement record and only the last event id changes |
| ReducerHistory.DeadIsFinal | packages/engine/src/state/state-machine.ts:14-49 | an expired or cancelled session admits no further event |
| EngineRuns.FirstEvent | packages/engine/src/routes/rfqs.ts:158-209 | an RFQ the creation route appends starts a log that satisfies the whole engine invariant, with the actor as buyer |
| EngineRuns.OfferGuards | packages/engine/src/routes/offers.ts:84-202 | an offer that is appended has a new id, is within both caps, is in the RFQ's currency, has a positive amount and a non-empty endpoint |
| EngineRuns.CounterGuards | packages/engine/src/routes/counters.ts:117-285 | a counter that is appended has a new id and a positive round above every earlier one |
| EngineRuns.AcceptGuards | packages/engine/src/routes/accept.ts:112-225 | an accept that is appended is within both accept limits, its envelope's revision is the last event id, and the quote it stores is the selected offer's as built for this request at this instant |
| EngineRuns.QuoteHasTerms | packages/engine/src/util/quote-builder.ts:37-77 | the built quote names the offer's seller, price, currency and endpoint, the RFQ's id, buyer and service, this quote id and nonce, the fixed memo policy, blank signatures and a spec hash exactly if the RFQ has a spec, nothing else; it expires at the deadline or at the end of the settlement window, whichever comes first |
| EngineRuns.SettingsAreClamped | packages/engine/src/util/quote-builder.ts:45-49 | the settlement window is the configured one kept within 60 to 600 seconds, 300 if unset, and the cosign timeout the configured one within 15 to 120 seconds, 60 if unset |
| EngineRuns.AcceptStoresQuote | packages/engine/src/routes/accept.ts:183-222 | in every run an accept stores the quote of the selected offer built for its quote id and nonce at its instant, expiring at the deadline or the end of the window |
| EngineRuns.StoredQuotesAreBuilt | packages/engine/src/routes/accept.ts:199-219 | in every run the quote a session holds has only the built properties and expires within the window after its selection |
| EngineRuns.SettlementGuard | packages/engine/src/routes/execute.ts:70-101 | a settlement record is appended only by the two settlement routes, only if none is in the log and the session read was COMMITTED |
| EngineRuns.RunKeepsLogs | packages/engine/src/state/session-manager.ts:198-260 | in every run every session satisfies the engine invariant: limits, distinct ids, quote with its offer's terms, verified signatures, event budget |
| EngineRuns.CommittedMeansDeal | packages/engine/src/routes/cosign.ts:93-133 | in every reachable state a COMMITTED session carries a quote signed by buyer and selected seller with the price, currency and endpoint of the one recorded offer accepted, expiring no later than the RFQ deadline and within the settlement window after the selection |
| EngineRuns.SessionsAreBounded | packages/engine/src/routes/accept.ts:166-181 | at most 6 accepts (2 per seller), 50 offers (5 per seller) and 70 non-counter events per session in every run |
| EngineRuns.CounterRoundsRise | packages/engine/src/routes/counters.ts:220-260 | rounds rise strictly through the whole session and counter ids are distinct |
| EngineRuns.RecipientOfferedEarlier | packages/engine/src/state/session.ts:205-232 | in every accepted log, the recipient of a counter sent an offer event earlier in that log |
| EngineRuns.UnlockedChecksStillHold | packages/engine/src/routes/counters.ts:163-179 | the RFQ, a seller's having offered, and COMMITTED, read from any earlier prefix, are still true of the whole log |
| EngineRuns.ActsInTimeAndWithAuthority | packages/engine/src/routes/accept.ts:93-164 | in every run a participant's event is appended only before the deadline at the instant tested, signatures before the quote's expiry, accepts on a still valid offer and the buyer's envelope, declines on the selected seller's |
| EngineRuns.SettlesAtMostOnce | packages/engine/src/routes/execute.ts:79-101 | at most one settlement record per session in every run, and only in COMMITTED |
| EngineRuns.SettlementStateIsCurrent | packages/engine/src/routes/settle-report.ts:41-109 | the unlocked COMMITTED check is still true when the record is appended |
| EngineRuns.ReportRecordsDeal | packages/engine/src/routes/settle-report.ts:68-104 | in every run the record that settle-report appends names the seller, buyer and price of the deal, whatever was read before the lock |
| EngineRuns.ExpiryIsTimely | packages/engine/src/deadline-enforcer.ts:155-176 | whatever happens between scan and lock, an expiry is appended only to a live session whose deadline has passed at the instant tested |
| EngineRuns.CosignTimeoutIsTimely | packages/engine/src/deadline-enforcer.ts:178-202 | a timeout is appended only to a session pending at least the clamped timeout since its current selection |
| EngineRuns.EnvelopePinsLog | packages/engine/src/routes/accept.ts:152-159 | an event caused by an envelope is appended only where the log ends with the envelope's revision |
| EngineRuns.EnvelopeActsOnce | packages/engine/src/routes/decline.ts:87-109 | of all accept and decline envelopes naming one session and revision at most one causes an event in any run, even if every one was validated before any was recorded as used |
| RouteLaws.CreateLaw | packages/engine/src/routes/rfqs.ts:125-209 | in every run an RFQ is created if and only if none is there, its deadline is ahead, its anchor price is positive and its event id new |
| RouteLaws.OfferLaw | packages/engine/src/routes/offers.ts:84-202 | in every run an offer is appended if and only if currency, price, validity and endpoint are right, the deadline has not passed, nobody is selected and nothing has ended, its id is new and both caps leave room, all read off the raw log |
| RouteLaws.CounterLaw | packages/engine/src/routes/counters.ts:117-285 | in every run a counter is appended if and only if it is the buyer's, to a seller who had offered at the unlocked read, in the currency, of a positive amount, in time, with a new id and a positive round above every earlier one, while nobody is selected |
| RouteLaws.AcceptLaw | packages/engine/src/routes/accept.ts:84-225 | in every run an accept is appended if and only if the buyer signed its envelope for the log's last event, the offer it names is that seller's and has not lapsed, nobody is selected, the deadline has not passed and both limits leave room |
| RouteLaws.SignLaw | packages/engine/src/routes/quote-sign.ts:76-130 | in every run a buyer signature is appended if and only if a selection is pending and unsigned and it is the buyer's on the current unexpired quote before the deadline |
| RouteLaws.CosignLaw | packages/engine/src/routes/cosign.ts:75-133 | in every run a commit is appended if and only if a selection is pending, the buyer has signed it, and this is the selected seller's signature on the current unexpired quote before the deadline |
| RouteLaws.DeclineLaw | packages/engine/src/routes/decline.ts:58-125 | in every run a decline is appended if and only if a selection is pending, its seller is the one at both reads and signed the envelope for the log's last event, before the deadline |
| RouteLaws.ExpireLaw | packages/engine/src/deadline-enforcer.ts:111-176 | in every run an expiry is appended if and only if the session was live at both reads and its deadline had passed at the first |
| RouteLaws.TimeoutLaw | packages/engine/src/deadline-enforcer.ts:122-202 | in every run a cosign timeout is appended if and only if the selection pending at each read was old enough then, the deadline was ahead, and the seller's name is not empty |
| RouteLaws.ExecuteLaw | packages/engine/src/routes/execute.ts:62-101 | in every run /execute records a settlement if and only if the session was committed when read, has none yet, and the header quote names the session, a seller and the committed quote's id |
| RouteLaws.ReportLaw | packages/engine/src/routes/settle-report.ts:36-109 | in every run a report records a settlement if and only if the selected seller sends it with the committed quote's id, the session was committed when read and has none yet |
| EventStore.InMemoryEventStore.Append | packages/engine/src/state/event-store.ts:32-61 | appends at the end exactly when the session matches and the id is new in the whole store; otherwise changes nothing |
| EventStore.InMemoryEventStore.GetEvents | packages/engine/src/state/event-store.ts:101-129 | returns exactly the caller's visible events after the cursor, nothing for an unknown cursor; the buyer gets the raw log after the cursor |
| EventStore.PollingIsExact | packages/engine/src/routes/events.ts:108-120 | any number of polls with the returned cursor, with appends between, concatenate to exactly the visible log after the first cursor |
| EventStore.BuyerSeesAll | packages/engine/src/state/visibility.ts:69-70 | nothing of any log is hidden from its buyer |
| EventStore.BuyerReadsTheLog | packages/engine/src/state/event-store.ts:101-129 | the buyer reads the whole log without a cursor, what follows the first event with the cursor's id otherwise, and nothing for an unknown one |
| EventStore.BuyerPollsTheLog | packages/engine/src/routes/events.ts:108-120 | a polling buyer receives exactly the raw log after the first cursor |
| Visibility.SellersSeeExactly | packages/engine/src/state/visibility.ts:64-109 | in every accepted log an event reaches exactly the sellers it concerns (everyone for a broadcast, else the offering seller, the counter's recipient who had offered, or the selected seller) if and only if it is not an audit record naming a party other than the selected seller |
| Visibility.SellersAreApart | packages/engine/src/state/visibility.ts:64-109 | what two different sellers both read of one log is broadcasts only |
| Visibility.RunNamesSelected | packages/engine/src/routes/execute.ts:70-101 | in every run a session's settlement record names its selected seller if and only if each quote /execute settled on it did |
| Visibility.RunSeenExactly | packages/engine/src/state/visibility.ts:64-109 | in every run every event of a session reaches exactly the sellers it concerns if and only if each quote /execute settled on it named the selected seller |
| SampleRun.DealIsReached | packages/engine/src/routes/cosign.ts:93-133 | a run from RFQ through offer, accept and signature to a committed session exists |
| SampleRun.ExecuteCanNameAnother | packages/engine/src/routes/execute.ts:74-101 | a run in which the settlement record of a deal with one seller is visible to another seller and not to the selected one |
| Visibility.EverythingReadConcerns | packages/engine/src/state/event-store.ts:120-128 | in every run whose executed quotes named the selected seller, every event a seller reads sits in the log and concerns that seller |
| Subscriptions.Subscription.Append | packages/engine/src/state/event-store.ts:187-198 | an append at any phase keeps the delivery contract: before the replay is read the buffer is what was appended since registering; then sent plus waiting is exactly the visible log after the cursor; live, all of it is sent; stopped, what was sent is a prefix of it |
| Subscriptions.Subscription.ReadReplay | packages/engine/src/state/event-store.ts:200-225 | replay and deduplicated buffer together are exactly the visible log after the cursor, whatever was appended since subscribing |
| Subscriptions.Subscription.Activate | packages/engine/src/state/event-store.ts:230-242 | after activation everything sent is exactly the visible log after the cursor, in order, none twice |
| Subscriptions.Subscription.Unsubscribe | packages/engine/src/state/event-store.ts:244-249 | nothing more is sent, and what was sent is a prefix of what was due |
| Subscriptions.BuyerIsSentTheLog | packages/engine/src/state/event-store.ts:187-249 | a subscribed buyer is sent exactly the raw log after the cursor |
| SessionLocks.LockIsFairAndExclusive | packages/engine/src/state/session-manager.ts:25-115 | in every run at most one caller holds or was handed the lock, queued waiters are unsettled and exactly the waiting callers, a waiter implies the lock is taken, the queue is bounded, and grants follow arrival order among those that did not time out |
| SessionLocks.ReleaseWakesFirst | packages/engine/src/state/session-manager.ts:105-114 | a release with a queue hands the lock to its first waiter |
| SessionLocks.NobodyIsForgotten | packages/engine/src/state/session-manager.ts:41-114 | in every run an arrival is refused exactly on a full queue, runs at once on a free lock and is queued last otherwise; a queued caller's timer removes that caller only; a caller handed the lock runs when resumed; a release with nobody queued frees the lock |
| SessionLocks.SessionLock.Arrive | packages/engine/src/state/session-manager.ts:41-87 | refuses on a full queue, acquires a free lock, otherwise queues at the end; exactly one step of the transition system |
| SessionLocks.SessionLock.TimerFires | packages/engine/src/state/session-manager.ts:89-96 | removes an unsettled waiter without advancing the queue; does nothing for a settled one |
| SessionLocks.SessionLock.Release | packages/engine/src/state/session-manager.ts:105-114 | hands over to the first waiter or frees the lock; exactly one step of the transition system |
| SessionManagement.SessionManager.GetSession | packages/engine/src/state/session-manager.ts:175-191 | returns the fold of the whole stored log, cached or not |
| SessionManagement.SessionManager.AppendEvent | packages/engine/src/state/session-manager.ts:224-260 | appends exactly when called inside the lock, accepted by the reducer and accepted by the store; a failed append leaves logs and cache correct, and every stored log stays accepted |
| SessionManagement.SessionManager.EvictStaleCache | packages/engine/src/state/session-manager.ts:297-304 | keeps exactly the recently used entries, and the cache stays correct |
| SessionManagement.SessionManager.RemoveLock | packages/engine/src/state/session-manager.ts:283-291 | removes exactly when no callback runs and nobody waits, the cache stays correct, and no lock becomes taken |
| SessionManagement.SessionManager.LockedSection | packages/engine/src/state/session-manager.ts:198-212 | a handler that takes the session's free lock, reads through the cache, decides, appends and releases changes the stored logs exactly as one step of the engine's transition system, and the lock is free again |
| SessionManagement.SessionManager.Callback | packages/engine/src/state/session-manager.ts:203-211 | marking active, reading through getSession, deciding on that and appending is one step of the engine's transition system, for any earlier unlocked read |
| SessionManagement.DropStale | packages/engine/src/state/session-manager.ts:297-304 | the deleting loop leaves exactly the entries at or after the cutoff |
| HandlerRuns.EveryInterleavingIsARun | packages/engine/src/state/session-manager.ts:198-260 | every interleaving of handlers cut at their awaits, with queueing, timeouts, lock removal and cache eviction, leaves exactly the logs of the run that takes the handlers one at a time in the order of their appends |
| HandlerRuns.LockedReadIsCurrent | packages/engine/src/state/session-manager.ts:198-212 | in every interleaving, while a session has not ended at most one handler is inside its lock and what it read there is the session of the current log |
| HandlerRuns.FinishTakesItsStep | packages/engine/src/state/session-manager.ts:224-260 | in every interleaving, while the session has not ended a handler that finishes does exactly the engine step it would do alone on the logs as they are, so no append is lost to another handler's leaving |
| HandlerRuns.AloneTakesItsStep | packages/engine/src/state/session-manager.ts:198-212 | after any interleaving a handler that finds its lock free and is not interrupted takes the engine step of its action, read afresh, and leaves the lock free |
| HandlerRuns.TwoInsideMeansEnded | packages/engine/src/state/session-manager.ts:283-291 | two handlers are inside locks of one session only if that session has ended |
| HandlerRuns.DecisionIsCurrent | packages/engine/src/routes/execute.ts:79-101 | an append decided on what was read on entering is the append that the current log calls for, also when the session had ended and grew meanwhile |
| HandlerRuns.RemovalSplitsLock | packages/engine/src/state/session-manager.ts:283-291 | removing the lock of an ended session between hand-over and entry lets a newcomer hold a second lock object beside the first |
| HandlerRuns.InterleavedCommitIsDeal | packages/engine/src/routes/cosign.ts:93-133 | in every interleaving a COMMITTED session carries a deal signed by both parties |
| ControlEnvelopes.EnvelopeTombstones.Use | packages/engine/src/security/control-envelope.ts:60-64 | records the id and keeps the earliest-expiry bound |
| ControlEnvelopes.EnvelopeTombstones.Sweep | packages/engine/src/security/control-envelope.ts:67-80 | with its skip, removes exactly what a full scan would |
| ControlEnvelopes.NeverValidatesAgain | packages/engine/src/security/control-envelope.ts:159-205 | a recorded envelope never validates again at any later time, whatever is recorded or swept in between |
| ControlEnvelopes.FreshValidatesIff | packages/engine/src/security/control-envelope.ts:100-205 | after any uses and sweeps an envelope never recorded validates if and only if it has an id and a revision, is the expected action on the expected session, carries the signer's signature, was issued within 60 seconds of now and has not expired |
| ControlEnvelopes.RecordedIsRefused | packages/engine/src/security/control-envelope.ts:171-175 | a recorded id is refused for at least an hour, whatever is recorded or swept |
| ReducerHistory.TerminalIsForever | packages/engine/src/deadline-enforcer.ts:92-109 | a terminal session stays in its state, so skipping cleaned sessions loses nothing |
| Enforcement.ExpiryTakesEffect | packages/engine/src/deadline-enforcer.ts:155-176 | if the session read without the lock was live and past its deadline, the engine step of the expiry leaves it terminal, whatever was appended since the read |
| Enforcement.DueIsExpired | packages/engine/src/deadline-enforcer.ts:113-120 | a session found due in some state of the logs is ended by the enforcer's action in any later state of them |
| Enforcement.StaleTimesOut | packages/engine/src/deadline-enforcer.ts:178-197 | the enforcer's action on a session nobody touched since the scan read it, pending on a selection at least the cosign timeout old with its deadline ahead, appends a COSIGN_TIMEOUT naming that selection's seller and leaves it in NEGOTIATING |
| Enforcement.DeadlineEnforcer.ActLocked | packages/engine/src/deadline-enforcer.ts:155-202 | other handlers first, then the tests again inside the lock: all of it engine steps; a due session whose lock can be had ends, and a session nobody else appended to gets just the expiry or cosign timeout its unlocked read called for |
| Enforcement.DeadlineEnforcer.Visit | packages/engine/src/deadline-enforcer.ts:92-128 | one session's turn in the scan is engine steps; if its lock can be had it ends when due at the instant read, and if nobody else appended to it, a due session gets its expiry and a stale one its cosign timeout and nothing more; a terminal one is remembered as cleaned |
| Enforcement.DeadlineEnforcer.Scan | packages/engine/src/deadline-enforcer.ts:89-153 | with any handlers running whenever it waits, a scan is a sequence of engine steps that only extend logs; unless stopped, every listed session whose lock was free and whose deadline had passed at the start is terminal, and every one nobody else appended to whose selection was the cosign timeout old gets a COSIGN_TIMEOUT naming its seller and is in NEGOTIATING, or has expired if its deadline passed meanwhile; only terminal sessions are remembered as cleaned |
| StatsCollection.ClampNeverFires | packages/engine/src/stats/stats-collector.ts:138-141 | the count that is decremented is at least one |
| StatsCollection.LiveRunAgrees | packages/engine/src/stats/stats-collector.ts:117-162 | for every interleaving of accepted logs, live counts, totals, duration, ledger and sets are the sums and unions of what each log contributes |
| StatsCollection.RawRunAgrees | packages/engine/src/stats/stats-collector.ts:214-254 | the same for replayed statistics |
| StatsCollection.RestartAgreesWithLive | packages/engine/src/stats/stats-collector.ts:106-114 | live and session-by-session replayed statistics are equal in every field but the buyers, equal altogether if every RFQ was created by the buyer it names, and equal in the buyers exactly when creating actors and named buyers are the same set |
| StatsCollection.RestartedThenLive | packages/engine/src/stats/stats-collector.ts:106-162 | a collector rebuilt from the logs at any point and live afterwards says what one that never stopped says, buyers included if every stored RFQ was created by the buyer it names |
| StatsCollection.TraceBuildsRun | packages/engine/src/state/session-manager.ts:224-260 | the events a run appends, in order, are exactly the logs of the run, all accepted |
| StatsCollection.EngineRestartLosesNothing | packages/engine/src/stats/stats-collector.ts:106-114 | in every run, restarting the collector after any action changes nothing in what it says at the end |
| StatsCollection.BuyersCanDiffer | packages/engine/src/stats/stats-collector.ts:218-220 | an accepted log on which the two buyer sets differ |
| StatsCollection.EngineBuyersAgree | packages/engine/src/routes/rfqs.ts:186-203 | in every run of the engine every RFQ is created by the buyer it names |
| StatsCollection.WalkIsDerive | packages/engine/src/stats/stats-collector.ts:275-286 | the simplified state walk equals the reducer's state on every prefix of every accepted log |
| StatsCollection.StatesAfter | packages/engine/src/routes/admin.ts:247-258 | the loop that shows a state beside each event, in the admin and the dashboard form, shows the reducer's state |
| StatsCollection.CountsAreConserved | packages/engine/src/stats/stats-collector.ts:164-170 | active sessions plus ended ones are all sessions |
| StatsCollection.StatsCollector.constructor | packages/engine/src/stats/stats-collector.ts:106-114 | the start-up loops replay every log, session by session |
| StatsCollection.StatsCollector.ProcessRaw | packages/engine/src/stats/stats-collector.ts:214-254 | the raw update is the specified one |
| StatsCollection.StatsCollector.Observe | packages/engine/src/stats/stats-collector.ts:117-162 | the live update is the specified one |
| ConnectionTracking.IndexCountsConnections | packages/engine/src/util/connection-tracker.ts:81-94 | what the index counts per session and per caller is exactly the open connections, at most 10 and 3 |
| ConnectionTracking.AcquireIsRight | packages/engine/src/util/connection-tracker.ts:32-75 | a connection is admitted if and only if its caller is below its limit and there is room or a buyer can evict; only the oldest non-buyer goes, with whatever its callback releases; the invariant is kept |
| ConnectionTracking.FindsOldest | packages/engine/src/util/connection-tracker.ts:110-123 | finds the earliest opened non-buyer, the first listed among equals, or none if there is none |
| ConnectionTracking.RemoveKeepsValid | packages/engine/src/util/connection-tracker.ts:125-136 | removing a record, present or already gone, drops just that record and keeps the index a partition without empty sets |
| ConnectionTracking.CloseAllIsRight | packages/engine/src/util/connection-tracker.ts:96-108 | afterwards the session has no connection and no index entry; other connections go only through a callback |
| ConnectionTracking.RunKeepsValid | packages/engine/src/util/connection-tracker.ts:27-137 | in every run of operations, with callbacks re-entering release, the index partitions the connections within both limits |
| ConnectionTracking.BuyerIsServed | packages/engine/src/util/connection-tracker.ts:40-54 | in every run a buyer is admitted exactly when it holds fewer than three streams of its session |
| ConnectionTracking.CountForDid | packages/engine/src/util/connection-tracker.ts:81-90 | the counting loop counts the caller's connections |
| ConnectionTracking.ConnectionTracker.Acquire | packages/engine/src/util/connection-tracker.ts:32-75 | the object takes the specified step and returns its id |
| ConnectionTracking.ConnectionTracker.Release | packages/engine/src/util/connection-tracker.ts:125-136 | the object takes the specified step |
| ConnectionTracking.ConnectionTracker.CloseAll | packages/engine/src/util/connection-tracker.ts:96-108 | the loop over a snapshot, with callbacks that release, is the specified fold |
| Amounts.NormalizeIsFloor | packages/core/src/amounts.ts:23-39 | refuses exactly the strings outside the decimal format; otherwise gives the floor of the denoted number times 10^decimals |
| Amounts.NormalizeMonotone | packages/core/src/amounts.ts:23-39 | a larger decimal never normalizes to a smaller integer |
| Amounts.ScaleUnscale | packages/zk/src/scale.ts:8-19 | scaling undoes unscaling on every natural number |
| PriceText.UnscaledText | packages/zk/src/scale.ts:12-19 | the text written for a number is the only decimal with no needless leading zero, two to six places and no trailing zero beyond the second that scales to it |
| Amounts.SanitizedStaysInBudget | packages/strategy/src/sanitizer.ts:6-12 | however the sanitized price is written, it is at most the budget, and scales to at most the scaled budget, if and only if the budget is at least the minimum price |
| Amounts.SanitizerClamps | packages/strategy/src/sanitizer.ts:6-12 | a price between the minimum and the budget is kept, one above becomes the budget, one below or any with a budget below the minimum becomes the minimum; other actions pass |
| Amounts.SanitizedCanExceedBudget | packages/strategy/src/sanitizer.ts:6-12 | with a budget of 0.0000005 every counter becomes 0.000001, above the budget before and after scaling |
| Canonical.SameFormIffEquivalent | packages/core/src/canonical.ts:1-14 | two values have the same form if and only if they agree at every depth up to key order, the omitted empty top-level extensions and "__proto__" |
| Canonical.IdempotentIff | packages/core/src/canonical.ts:1-14 | sorting twice is sorting once below the top level always, at the top level exactly unless extensions holds only "__proto__" |
| Canonical.FormIsWellFormed | packages/core/src/canonical.ts:1-14 | a form has no key twice at any depth |
| Canonical.FormIsSorted | packages/core/src/canonical.ts:5-8 | in a form array-index keys come first by number and the others follow in code-unit order |
| Canonical.LexIsFirstDifference | packages/core/src/canonical.ts:5-8 | code-unit order is decided by the first difference, smaller unit or end of key first |
| Canonical.ProtoIsDropped | packages/core/src/canonical.ts:5-12 | two different values with one form |
| Canonical.NotAlwaysIdempotent | packages/core/src/canonical.ts:9-11 | a value that changes when sorted a second time |
| Canonical.SortKeysLoop | packages/core/src/canonical.ts:1-14 | sorting the keys and assigning them one by one to a fresh object gives the normal form |
| QuoteSigning.SigningOrderDoesNotMatter | packages/core/src/quote.ts:48-63 | in either order both signatures are over the finished quote's payload, and the finished quotes hold the same fields |
| QuoteSigning.SigningKeepsPayload | packages/core/src/quote.ts:48-63 | writing either signature field leaves the payload unchanged |
| QuoteSigning.PayloadPinsQuote | packages/core/src/quote.ts:48-51 | equal payloads exactly for quotes equivalent once their signatures are blanked |
| QuoteSigning.SignedTermsAreFixed | packages/core/src/quote.ts:48-51 | quotes with equal payloads have the same text under every key but the signatures and "__proto__" |
| QuoteVerification.SameTermsSamePayload | packages/core/src/quote.ts:48-51 | quotes of the engine that differ in nothing but signatures have one signing payload |
| QuoteVerification.EqualPayloadsEqualTexts | packages/core/src/quote.ts:48-51 | if texts are written as strings, quotes with one signing payload have the same text under every property a built quote can have but the signatures |
| QuoteVerification.PayloadIsTheTerms | packages/core/src/quote.ts:48-51 | two quotes of texts have one signing payload if and only if they differ in nothing but signatures |
| QuoteVerification.StoredQuoteIsSignedWhole | packages/engine/src/routes/accept.ts:199-219 | in every run every property of the quote a session holds, the signatures apart, is pinned by its signing payload |
| QuoteVerification.FinishedQuoteVerifies | packages/engine/src/routes/settle-report.ts:68-72 | in every run a committed session's quote with both signatures written in carries signatures of its own buyer and seller that cover its own payload |

## Left out

- Chain and transaction checks of a settlement, Ed25519, Groth16, hashing, UUIDs, JSON text: foreign code; signature checks, hashing and date parsing are functions of the environment, fresh ids are inputs.
- Schema, size, signature-format, budget-proof and replay checks of the routes, and the settlement's own checks of a header quote: one input flag, `valid`, per request. The settlement record's transaction id and verification report are not recorded.
- Dates: event timestamps and envelope instants are integers; other date strings go through the environment's parse function, and an unparsable one compares false. `toISOString` is assumed to parse back.
- Listings: the payment endpoint of the seller's listing is an input of the offer action.
- Mint table: amounts use six decimals; `registerMint` is not modelled.
- Handlers: each handler's guards are functions of what it read; its awaits are the stages of `HandlerRuns`, and the class methods run one locked section at a time.
- HandlerRuns.EveryInterleavingIsARun: each handler appends once, at the end of its callback, and all awaits of the callback come before that.
- HandlerRuns.RemovalSplitsLock: stated for any state of the locks of that shape; no run leading there is written out.
- Two clock readings with nothing state-dependent between them are one; settle-report's earlier timestamp is not distinguished.
- SessionManagement.SessionManager.RemoveLock: does not see a waiter already handed the lock whose continuation has not run, as in the source; `HandlerRuns` shows what follows from it.
- QuoteVerification.FinishedQuoteVerifies: the environment's check is assumed to look at the canonical payload of the properties the quote builder writes.
- Which error a refused request or a rejected log gets: the branches name it, no lemma states it.
- Subscriptions.Subscription.Unsubscribe: called once after the replay is read; the store's subscriber sets, and what a second call would do to a newer set, are not modelled.
- Terminal subscribers, append observers and throwing listeners.
- Enforcement.DeadlineEnforcer.Visit: which locks cannot be had in time is a parameter; closing the streams of an ended session is modelled in `ConnectionTracking` only.
- Enforcement.DeadlineEnforcer.Scan: event ids are fresh, what it says of cosign timeouts takes the listed ids to be distinct, as the keys they come from are, other handlers take their locked sections whole, and the tombstone sweep at the end is modelled in `ControlEnvelopes` only.
- NEGOTIATION_CANCELLED and the COMMIT_PENDING event: in the table and reducer only, since no route appends them.
- Minute buckets, hourly counters, averages and the ledger's per-session offer, counter and seller fields.
- Canonical.SortKeysLoop: `JSON.stringify` and the byte encoding after it; dropped `undefined` values are part of that step.
- Connection ids are numbers and the clock of `openedAt` is unconstrained.
- SQLite stores, agents, strategies other than the buyer's clamp, frontend, admin authentication, rate limiting, registry: other layers or easy members.
