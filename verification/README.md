# Dispatch, sharding, matching and surge: a verified model

This project models the parts of geo-dispatch that make decisions, and proves what they keep over every input, every run
and every interleaving.

**The dispatch protocol.** A trip is offered to ranked drivers one at a time. Each offer lives in Redis with a deadline; an
answer commits the trip, silence or a refusal releases the driver and sleeps an exponential backoff. A reconciler resumes
trips whose loop died. The protocol appears in two forms:

* as methods over mutable store objects (`Stores`, `Dispatching`, `Reconciling`), with the clock, the failures of the
  stores and the drivers' answers supplied by a `Context`. `Dispatcher.Run` is proved to leave exactly the stores, clock,
  events and result of a small-step machine (`Protocol`), about which the other modules prove what a Run computes, says
  (`Narrative`: every event and every instant), waits for and leaves behind;
* as a transition system (`Interleaving`) in which any number of those machines, with trip requests, pings, expiries,
  crashes and the passing of time, take turns on one store. `Embedding` shows that a Run alone is one of its executions.

The assumption shared by both is that **each store call is one atomic step, and a call that fails has no effect**. Four
modules look inside that assumption, for the calls that read, check and then write in separate commands: `SplitClaim`,
`SplitTransition`, `SplitSweep` and `SplitExpiry` say exactly which schedules, crashes, failures and expiries behave as the
atomic step does.

**The ring and the router** (`HashRing`, `RingTheory`, `Routing`): the sorted slice and owner map, for any hash function;
what a join or leave moves, counted exactly; and what routing the same request afresh at each node leads to,
whether or not the nodes agree on who is in.

**Candidate search and ranking** (`DriverIndex`, `CandidateSearch`, `Ranking`, `Matching`): hashes and cell sets over all
runs of pings, expiries and sweeps; the ring-by-ring search against a scan of all records; a ranking that does not depend on
input order, and what decides it. `Requests` and `Reconciling` put search, ranking and dispatch together, and `Hubs` dispatch
and routing: which loops hear their drivers.

**Surge** (`Surge`, `Multiplying`, `Demand`): a pruned aggregator against the whole event history, the price it leads to, and
what a Run's events add to it.

## Where the code is followed rather than its comments

* `internal/store/driver.go:40-41` and `:69-72` promise one cell set per driver at all times. A driver whose hash expires
  and who then pings from elsewhere is in two (`ExpiredDriverEndsInTwoCells`); `PingKeepsSingleIff` is the exact condition.
* `internal/surge/multiplier.go:33-35` says an infinite ratio hits the ceiling. It reaches the last step's multiplier, which
  is the ceiling only under the condition of `InfinityHitsCeilingIff`.
* `internal/store/offer.go:34-35` gives the offer's TTL as the offer window; the dispatcher passes window plus grace
  (`internal/offers/dispatcher.go:131`), and that is what `Protection` needs.
* `internal/offers/dispatcher.go:148-158` describes a driver found in an unexpected state under load, of unknown cause.
  With atomic calls and no expiry of a held driver it cannot happen (`ToleranceIsNeverNeeded`). Once two Runs hold one
  driver, the second's update is refused, or frees the driver the first has sent off (`SecondUpdateIsRefusedUnlessItFrees`).
  Two mechanisms lead to that: two claims interleaved inside `SetState` (`DoubleClaimIff`), and a hash that expires in
  mid-offer (`ExpiryIsSafeIffUnheld`, `ExpiryLetsTwoRunsClaim`), for which the whole way from an empty system to the
  refusal is given (`RefusalIsReached`).
* `internal/offers/reconcile.go:61-62` reads a live offer as the sign that some node is driving the trip. The sign is
  missing from the moment a Run marks its trip OFFERED until it has opened its first offer, under every configuration
  (`LivingRunLooksDeadIff`, `SomeLivingRunLooksDead`); a sweep then starts a second Run. That is safe
  (`EveryExecutionIsSafe`) but costs a driver, though no call fails (`SecondRunStrandsFirstsDriver`); with one Run per trip
  only failing calls do (`SoleRunOrphansIffCallFails`).
* `internal/offers/reconcile.go:14-21` speaks of the new owner of a cell resuming its trips. Every node sweeps, without asking
  who owns what (`cmd/disco/main.go:115-126`), while answers go to the owner: a trip resumed on any other node ends
  UNFULFILLED whatever its drivers answer (`RunElsewhereNeverMatches`).
* `internal/store/driver.go:145-146` and `internal/store/offer.go:114-118` validate a change and persist it. If the record
  expires between the two, the write leaves a stub without a TTL that fails every search of the driver's cell, or every
  sweep (`StateChangeLeavesStubIff`, `StubFailsItsCell`, `StubStopsEverySweep`).
* `internal/offers/reconcile.go:40-41` has a sweep find every OFFERED trip without a live offer. A process that stops between
  the two writes of `transitionTo` leaves one that no sweep ever finds (`CutIsHarmlessIffNotOpening`).

## Model

| member | source | states |
|---|---|---|
| Stores.Context.AwaitResponse | internal/offers/dispatcher.go:259-271 | The wait ends with the reply if it comes within the window, otherwise with no response after exactly one window. |
| Stores.Context.Sleep | internal/offers/dispatcher.go:273-280 | A sleep either lasts its whole delay or fails at once with the context's error. |
| Stores.DriverStore.UpdateLocation | internal/store/driver.go:113-143 | A ping puts the driver at the new position and in its cell, in hash and cell sets, keeps its state, and changes no other driver; a failure leaves either nothing or the script without the idle stamp. |
| Stores.DriverStore.SetState | internal/store/driver.go:147-167 | Missing record, illegal transition and write, with the idle clock restarted only on AVAILABLE; nothing but that driver's record changes. |
| Stores.DriverStore.DriversInCell | internal/store/driver.go:257-290 | Every live member exactly once, and exactly the dead members leave the set. |
| Stores.DriverStore.GetDrivers | internal/store/driver.go:190-217 | The records of exactly those ids that have one. |
| Stores.TripStore.GetTrip | internal/store/trip.go:98-130 | The record, or that there is none. |
| Stores.TripStore.TransitionTo | internal/store/trip.go:142-168 | State, matched driver and offered index move together, or an error and no change. |
| Stores.TripStore.OfferedTrips | internal/store/trip.go:171-177 | Each indexed trip once. |
| Stores.OfferStore.CreateOffer | internal/store/offer.go:56-71 | A fresh PENDING offer replaces any other of the trip, and the reverse index points its driver at the trip, with the same deadline. |
| Stores.OfferStore.CurrentOfferFor | internal/store/offer.go:75-84 | The trip the reverse index names, until its deadline. |
| Stores.OfferStore.GetOffer | internal/store/offer.go:87-112 | The offer, until its deadline. |
| Stores.OfferStore.SetOfferState | internal/store/offer.go:119-137 | Not found, stale for another driver, illegal, or settled with the reverse index cleared. |
| StateMachine.DriverMayIff | internal/statemachine/driver.go:19-29 | A driver may go one stage on along the shift, back to AVAILABLE from anywhere else, and off shift from AVAILABLE, and nothing else. |
| StateMachine.TripLives | internal/statemachine/trip.go:15-24 | The legal lives of a trip are exactly five: it is offered at most once, resolved at most once, and matched only if offered. |
| StoreSpec.OfferLastsItsTime | internal/store/offer.go:56-71 | An offer and its reverse index entry answer until their deadline, not at it; other trips' offers and other drivers' entries are as before. |
| StoreSpec.AnsweredOnce | internal/statemachine/offer.go:15-22 | Once an answer is recorded every later one is refused, by whomever and whichever, and the driver is led to the offer no more. |
| Dispatching.Dispatcher.Enter | internal/offers/dispatcher.go:74-109 | Follows the machine through reading the trip, refusing a resolved one, and marking a REQUESTED one OFFERED; the OFFERED event is published in that case alone. |
| Dispatching.Dispatcher.ClaimDriver | internal/offers/dispatcher.go:122-127 | Follows the machine; a driver lost to another trip costs neither a round nor a delay. |
| Dispatching.Dispatcher.Offer | internal/offers/dispatcher.go:131-183 | Follows the machine through one offer, its wait and its recorded outcome. |
| Dispatching.Dispatcher.Conclude | internal/offers/dispatcher.go:144-165 | Follows the machine through EN_ROUTE and MATCHED, tolerating an illegal driver transition. |
| Dispatching.Dispatcher.Yield | internal/offers/dispatcher.go:189-206 | Follows the machine through the release and, only when another round is to come, the sleep and the capped doubling. |
| Dispatching.Dispatcher.Run | internal/offers/dispatcher.go:71-215 | Whatever Run returns, the stores, the clock, the published events and the result are those of the machine's final state. |
| Protocol.BackoffSteps | internal/offers/dispatcher.go:202-205 | Doubling with a ceiling meets the closed form min(Base*2^(r-1), Max); the first delay is Base even above Max. |
| Protocol.StepKeepsLocal | internal/offers/dispatcher.go:111-207 | Whatever the rest of the system does to the stores, a Run's counters, backoff and published events agree with its place in the loop. |
| Isolation.EventsFollowTheGrammar | internal/offers/dispatcher.go:84-215 | The events of a Run stopped anywhere are accepted by the grammar for the state the trip was found in (REQUESTED with candidates: OFFERED first and once; otherwise never; then rounds 1,2,.. up to MaxRounds, drivers a subsequence of the candidates, each offer PENDING then one outcome); a nil-error Run's end in its outcome, any other's in none. |
| Isolation.OfferedIsAnnouncedIff | internal/offers/dispatcher.go:84-109 | OFFERED is announced by exactly the Runs that found the trip REQUESTED, had candidates and got past marking it; as their first event, once, for that trip and cell. |
| Isolation.StepsAreBounded | internal/offers/dispatcher.go:111-207 | A Run is finished within ten steps per candidate and ten more. |
| Isolation.RunEnds | internal/offers/dispatcher.go:71-215 | A Run always returns, and its final state is unique. |
| Isolation.WaitingIsBounded | internal/offers/dispatcher.go:198-206 | Total waiting is at most MaxRounds windows plus the MaxRounds-1 backoffs in closed form, for every configuration. |
| Isolation.DefaultConfigWaitsAtMostNinetySeconds | cmd/loadgen/main.go:68-69 | With the default configuration that is at most 90 seconds, below the load generator's trailing buffer. |
| RunBounds.TurnsAreBounded | internal/offers/dispatcher.go:111-207 | In every interleaving a Run takes at most ten steps per candidate and ten more. |
| RunBounds.LifeIsBounded | internal/offers/dispatcher.go:198-206 | In every interleaving a Run still at work was started no longer ago than MaxRounds windows and the MaxRounds-1 backoffs. |
| RunBounds.DefaultLifeIsNinetySeconds | internal/offers/dispatcher.go:27-32 | With the default configuration, 90 seconds. |
| FirstAcceptor.WillingSplits | internal/offers/dispatcher.go:113-127 | The available candidates of a concatenation are those of its parts, in order. |
| FirstAcceptor.AskedSteps | internal/offers/dispatcher.go:113-130 | Scanning one more candidate spends a round exactly when that driver is available, and on that driver. |
| FirstAcceptor.RunFindsFirstAcceptor | internal/offers/dispatcher.go:111-215 | A nil-error Run alone matches the first acceptor among the first MaxRounds AVAILABLE candidates and moves that driver alone to EN_ROUTE, or finds none and leaves every driver in its starting state. |
| FirstAcceptor.RunFailsOnlyForCause | internal/offers/dispatcher.go:71-215 | Alone, a Run fails only for an I/O error, a missing or resolved trip, or a candidate without a record. |
| FirstAcceptor.RunFailsIff | internal/offers/dispatcher.go:71-215 | Without I/O errors it fails if and only if the trip is missing or resolved, or some candidate without a record is got to: fewer than MaxRounds AVAILABLE drivers before it, none of whom accepts. |
| Narrative.RunTellsItsStory | internal/offers/dispatcher.go:84-215 | The whole outcome of a nil-error Run alone: trip and drivers; every event, an OFFERED if the trip was REQUESTED, then for each round a PENDING and what the hub delivered within the window (ACCEPTED, DECLINED, else TIMED_OUT), then the outcome; and the exact time taken, each reply's delay or a window and each backoff but one after the last round allowed or the last candidate. |
| Recovery.RunTouchesOwnTrip | internal/offers/dispatcher.go:71-215 | A Run changes no other trip's record, listing or offer. |
| Recovery.RunKeepsPlaces | internal/store/driver.go:147-167 | A Run adds and loses no driver record and moves none on the map. |
| Recovery.RunKeepsOrigins | internal/store/trip.go:142-168 | No Run changes any trip's origin. |
| Recovery.RunKeepsIndexed | internal/store/trip.go:132-168 | At every step of a Run the offered set lists exactly the OFFERED trips. |
| Recovery.ResumedTripStaysOpen | internal/offers/dispatcher.go:78-109 | A resumed trip stays OFFERED until the Run returns without error, and is then resolved as returned and no longer listed. |
| Recovery.RunKeepsExpiry | internal/offers/dispatcher.go:131 | No offer of the trip outlives one window and grace from now. |
| Recovery.CrashLeavesTripRecoverable | internal/offers/dispatcher.go:84-109 | A Run stopped between any two store calls leaves its trip REQUESTED, resolved, or OFFERED and listed, with no offer that outlives one window and grace. |
| Reconciling.Reconciler.ResumeIfStuck | internal/offers/reconcile.go:60-93 | A trip is resumed only if it is OFFERED without a live offer, and then it is offered from the cell of its origin to the shortlist of a search made now: the first acceptor among the first MaxRounds AVAILABLE is matched and alone goes EN_ROUTE, or it is UNFULFILLED if none accepts, with exactly the events and waits that calls for; left alone nothing changes. |
| Reconciling.Reconciler.Sweep | internal/offers/reconcile.go:42-58 | The trips counted are exactly those resolved, each resumed once as above, each finding the drivers as the one before left them, with nothing else published and no other driver moved; an error-free sweep resolves every listed stuck trip; live, unlisted and non-OFFERED trips are untouched; a failed sweep leaves each trip OFFERED or resolved. |
| Reconciling.Reconciler.LoneStuckTripIsServed | internal/offers/reconcile.go:42-93 | A stuck trip that is the only one listed is matched by an error-free sweep with the first acceptor of its shortlist, who alone goes EN_ROUTE, or UNFULFILLED if none accepts. |
| Reconciling.CrashedRunIsRecovered | internal/offers/reconcile.go:23-28 | After a crash at any step and the last offer's deadline, an error-free sweep leaves the trip resolved exactly when the crash found it past REQUESTED. |
| Interleaving.StepHandsOver | internal/offers/dispatcher.go:122-196 | One step takes a driver only from AVAILABLE, matches only the driver it holds, and moves no driver it does not hold unless AVAILABLE. |
| Interleaving.StepKeepsTrips | internal/statemachine/trip.go:21-24 | One step never changes a resolved trip, another trip or an origin, and a trip turns MATCHED and is given a driver only as its Run returns that driver. |
| Interleaving.TurnIsSafe | internal/offers/dispatcher.go:111-207 | Any step of any Run, succeeding or failing, keeps the whole system invariant. |
| Interleaving.OthersAreSafe | internal/store/driver.go:83-107 | Requests, retries, sweeps' new Runs, pings, crashes, waiting, and expiry of an unheld driver keep it too. |
| Interleaving.EveryExecutionIsSafe | internal/offers/dispatcher.go:116-165 | In every interleaving each driver is held by at most one Run or one matched trip, in the state its holder put it in; Runs' reports and trip records agree; every Run's events follow the grammar. |
| Interleaving.MatchedTripsNeverShareADriver | internal/offers/dispatcher.go:139-165 | Two MATCHED trips never name one driver, and a MATCHED trip's driver exists and is EN_ROUTE. |
| Interleaving.ToleranceIsNeverNeeded | internal/offers/dispatcher.go:144-159 | Neither branch that tolerates an illegal driver transition is ever reached. |
| Interleaving.ResolutionIsFinal | internal/statemachine/trip.go:21-24 | A resolved trip's record, matched driver included, never changes again. |
| Interleaving.OneMatchPerTrip | internal/offers/dispatcher.go:160-165 | However many Runs race on a trip, at most one ever returns matched, and the trip names its driver for ever. |
| Interleaving.ExpiryIsSafeIffUnheld | internal/store/driver.go:98-105 | The expiry of a driver hash keeps the invariant if and only if nothing holds the driver. |
| Interleaving.ExpiryLetsTwoRunsClaim | internal/store/driver.go:98-101 | If a held driver's hash expires and the driver pings, the next Run to reach the driver claims it a second time. |
| DoubleHold.RivalIsAtClaim | internal/offers/dispatcher.go:116-127 | Some execution has one Run holding a driver and another about to claim that driver. |
| DoubleHold.UpdateFailsIffMissing | internal/offers/dispatcher.go:144-196 | A driver update stops a Run if and only if the driver has no record; a refused one changes nothing and the Run goes on. |
| DoubleHold.SecondUpdateIsRefusedUnlessItFrees | internal/offers/dispatcher.go:144-196 | When two Runs hold one OFFERED driver, in any order of their steps and of everyone else's short of other calls on that driver: the first update to come succeeds, and the other Run's EN_ROUTE or AVAILABLE is then refused as illegal, except that a release after the other's acceptance goes through and frees the matched driver. |
| DoubleHold.RefusalIsReached | internal/offers/dispatcher.go:148-158 | From an empty system, through the expiry of a held driver's hash, an accepted offer's EN_ROUTE is refused. |
| Protection.StepKeepsGuarded | internal/offers/dispatcher.go:34-42 | Through each of its own steps a Run at work keeps its offer's deadline beyond the end of its current wait. |
| Protection.EveryExecutionIsProtected | internal/offers/dispatcher.go:131 | And so does every Run in every interleaving, other Runs of the same trip included. |
| Protection.LivingRunIsNeverSwept | internal/offers/reconcile.go:61-65 | Between a Run's first offer and its last write its trip always has a live offer, so every sweep skips it, provided each slept backoff is below the grace. |
| Protection.SleepIsCoveredIff | internal/offers/dispatcher.go:198-201 | After a full window the record lasts through the sleep if and only if the backoff is below the grace. |
| Protection.DefaultConfigSleepsShort | internal/offers/dispatcher.go:27-32 | The default configuration meets the proviso; one more round would break it, as the ceiling equals the grace. |
| Embedding.IsolatedRunIsAnExecution | internal/offers/dispatcher.go:71-215 | Whatever a Run alone does, for any answers and failures, from any reachable system with no other Run at work, the whole system can do from there. |
| Embedding.NeverSweptOnceOpenedIffShortSleeps | internal/offers/reconcile.go:61-65 | From its first offer to its last write a Run over distinct candidates is safe from sweeps in all executions if and only if every backoff the configuration can sleep is below the grace. |
| EarlySweep.LivingRunLooksDeadIff | internal/offers/reconcile.go:61-73 | Under every configuration the OFFERED trip of a Run working on it alone is what a sweep takes for stuck as long as the Run has made no offer; exactly so long, if every backoff is below the grace. |
| EarlySweep.SomeLivingRunLooksDead | internal/offers/reconcile.go:61-73 | Under every configuration some execution reaches that state. |
| Abandonment.OffersExpire | internal/offers/dispatcher.go:131 | In every interleaving no offer record outlives one window and grace from now. |
| Abandonment.AbandonedTripBecomesStuck | internal/offers/reconcile.go:23-28 | In every interleaving, an OFFERED trip no Run works on any more is, one window and grace later, listed, OFFERED and without a live offer, as a sweep looks for. |
| OfferIndex.EveryExecutionIsFindable | internal/store/offer.go:52-71 | In every interleaving the reverse index of a waiting Run's driver holds that trip and the offer's deadline. |
| OfferIndex.OfferedDriverFindsTrip | internal/store/offer.go:73-84 | For the whole of an offer window, asking for the driver's current offer gives the trip waiting for that driver. |
| Orphans.TurnOrphansIffEnds | internal/offers/dispatcher.go:139-196 | In any safe state, a step strands the driver its Run holds (not AVAILABLE, held by nobody) if and only if its call fails, the offer it is to settle is gone with an answer in hand, names another driver or is not PENDING, or the trip it is to match is no longer OFFERED. |
| Orphans.ReplacedOfferOrphans | internal/store/offer.go:124-126 | A Run that finds its offer replaced by another's strands its driver, though every call succeeds. |
| SoleRun.SoleRunOwnsItsOffer | internal/offers/dispatcher.go:131-183 | In every interleaving, the only Run on a trip finds the trip OFFERED throughout its loop, and the offer PENDING for its own driver while it awaits and records the answer. |
| SoleRun.SoleRunOrphansIffCallFails | internal/offers/dispatcher.go:139-196 | So its steps strand a driver if and only if their call fails, whatever the rest of the system does. |
| SoleRun.NoDriverIsLost | internal/offers/dispatcher.go:185-196 | Where no call fails, no Run crashes, no hash expires and each trip has one Run, no driver is ever stranded. |
| SoleRun.SecondRunStrandsFirstsDriver | internal/offers/reconcile.go:61-73 | Under every configuration, a sweep that finds the trip of a living Run stuck starts a second Run, and the first Run's driver is stranded without a failing call, a crash or an expiry. |
| Orphans.CrashOrphans | internal/offers/reconcile.go:23-28 | A crash in mid-round strands the driver of that round. |
| Orphans.OrphansWaitForExpiry | internal/store/driver.go:74-82 | A stranded driver stays so, in the same state, through all pings, sweeps and dispatches, until its hash expires. |
| Orphans.ExpiryFreesOrphan | internal/store/driver.go:98-101 | Expiry and the next ping bring it back AVAILABLE, and the system stays safe. |
| SplitClaim.WinnersReadInTime | internal/store/driver.go:147-167 | With HGET and HSET as separate commands, a driver is claimed by exactly those whose read came before the first write. |
| SplitClaim.DoubleClaimIff | internal/store/driver.go:147-167 | Two dispatchers both claim a driver if and only if both read before the first write. |
| SplitClaim.BeforeWriteIsFirst | internal/store/driver.go:147-167 | The first write is the first by a dispatcher whose own read came before it. |
| SplitClaim.DoubleClaimIsReachable | internal/offers/dispatcher.go:148-158 | Read, read, write, write is such a schedule. |
| SplitClaim.AtomicClaimsAreExclusive | internal/store/driver.go:147-167 | When each read is followed by its own write, the first dispatcher alone gets the driver. |
| SplitTransition.CutKeepsIndexIff | internal/store/trip.go:156-167 | Stopped after any number of its writes, transitionTo leaves hash and index in agreement unless it stopped between them on the way into or out of OFFERED. |
| SplitTransition.SweepsPassOver | internal/offers/reconcile.go:42-73 | No number of sweeps, failed or not, touches a trip that is unlisted or not OFFERED. |
| SplitTransition.CutIsHarmlessIffNotOpening | internal/store/trip.go:132-137 | Stopped between the two writes, a resolution stays resolved through all later sweeps, and an opening stays OFFERED through all of them. |
| SplitTransition.HalfCommitStrandsNobody | internal/store/trip.go:156-167 | A commit whose index write fails ends its Run with an error, but the driver is held by the trip, MATCHED and still listed. |
| SplitTransition.CutSettleMisleadsUntilDeadline | internal/store/offer.go:130-136 | Stopped before clearing the reverse index, SetOfferState leaves an offer no later answer can change, to which its driver is led until the deadline. |
| DriverIndex.RelocatedMembers | internal/store/driver.go:83-107 | A ping adds the driver to its new cell's set, takes it from the recorded old one, and changes no other set. |
| DriverIndex.HashTellsHistory | internal/store/driver.go:83-167 | Over all runs a driver has a hash exactly if it pinged since its last expiry, and the hash holds the position, cell and time of its last ping, whole or half, the state of its last accepted change or AVAILABLE, and as idle since the time of its last return to AVAILABLE or, without one, of its first whole ping. |
| DriverIndex.PingIsPinged | internal/store/driver.go:113-143 | A whole ping does to the hash what Interleaving takes a ping to do. |
| DriverIndex.EveryRunIsComplete | internal/store/driver.go:67-72 | Over all runs of pings, pings cut short after the script, state changes, expiries and sweeps, every driver with a hash is in its recorded cell's set. |
| DriverIndex.PingKeepsSingleIff | internal/store/driver.go:93-96 | A ping keeps drivers out of second cells if and only if the pinging driver has a hash or is in no other set. |
| DriverIndex.CleanRunIsSingle | internal/store/driver.go:40-41 | On runs of such pings no driver with a hash is ever in a second set. |
| DriverIndex.RunIsSingleIffClean | internal/store/driver.go:40-41 | Drivers stay out of second sets throughout a run if and only if every ping in it is such a ping. |
| DriverIndex.ViewIsScanIffSingle | internal/store/driver.go:253-290 | DriversInCell answers as a scan of all hashes for every cell if and only if no driver is in two sets. |
| DriverIndex.CleanRunReadsAsScan | internal/store/driver.go:253-290 | On clean runs it does. |
| DriverIndex.SweepChangesNoView | internal/store/driver.go:284-288 | Sweeping a cell removes its dead members and nothing else, and alters no cell's view. |
| DriverIndex.ExpiredDriverEndsInTwoCells | internal/store/driver.go:69-72 | A driver that expires and pings from another cell is listed in both. |
| SplitExpiry.StateChangeLeavesStubIff | internal/store/driver.go:147-167 | A state change, of a driver as of an offer, leaves a hash that exists but cannot be parsed if and only if the hash lapses between its read and its write and no ping, or new offer, makes it whole before the write. |
| SplitExpiry.StubStaysUntilWhole | internal/store/driver.go:103-105 | Such a stub never lapses, and is one until a ping, or a new offer, makes it whole. |
| SplitExpiry.ReadDrivers | internal/store/driver.go:204-216 | With its parse errors, reading a cell's drivers succeeds if and only if none of them is a stub. |
| SplitExpiry.StubFailsItsCell | internal/store/driver.go:266-279 | A driver's stub stays listed and fails every read of a cell listing it until the driver pings. |
| SplitExpiry.SweepThrough | internal/offers/reconcile.go:48-66 | A sweep gets through its list up to the first trip whose offer is a stub, and fails there. |
| SplitExpiry.StubStopsEverySweep | internal/store/offer.go:87-103 | Every sweep that lists such a trip stops short, until the trip is offered afresh. |
| SplitSweep.RemovalKeepsCompleteIff | internal/store/driver.go:266-288 | With pings between finding the dead members and removing them, no live driver is lost if and only if none found dead has pinged from that cell since. |
| SplitSweep.PromptRemovalIsSweep | internal/store/driver.go:266-288 | With nothing in between the two moments are the one step. |
| SplitSweep.RevivedDriverVanishesUntilNextPing | internal/store/driver.go:275-288 | A driver that did ping in between is live and listed nowhere in its cell until its next ping. |
| CandidateSearch.ScanCell | internal/matching/candidates.go:57-82 | The AVAILABLE live members of one cell, each once, without changing any view. |
| CandidateSearch.ScanDisk | internal/matching/candidates.go:51-83 | Exactly the cells of the disk not read before are read, once each. |
| CandidateSearch.ListedIsWithin | internal/matching/candidates.go:39-92 | On a complete, single-indexed store, what the disk's sets list is what a scan finds within its radius. |
| CandidateSearch.FindCandidates | internal/matching/candidates.go:39-92 | However stale the sets, the AVAILABLE drivers listed under the cells read, each cell once; on a single-indexed store, each driver once, exactly those within the least radius reaching MinCandidates, or MaxK. |
| CandidateSearch.StopsAtFirstSufficient | internal/matching/candidates.go:39-92 | The radius where the search stops is the first with at least MinCandidates, if one up to MaxK has them, else MaxK, and no other. |
| CandidateSearch.SearchesKeepFindable | internal/matching/candidates.go:39-92 | Neither a search nor any change of drivers' states takes a driver out of its cell's set or puts it in another. |
| Ranking.SortStable | internal/matching/ranking.go:60-65 | A permutation in order of score and then driver ID, in which ties keep the order they came in. |
| Ranking.StableSortIsUnique | internal/matching/ranking.go:60-65 | There is only one such list. |
| Ranking.Rank | internal/matching/ranking.go:40-67 | Fails exactly when an estimate fails; otherwise the scored candidates, stably permuted into order. |
| Ranking.PrecedesIff | internal/matching/ranking.go:56-65 | Of two drivers in a ranking, one precedes the other if and only if its ETA in seconds is less by more than the weight times the minutes it has been idle longer, or by exactly as much and its ID is smaller. |
| Ranking.EquallyIdleComeByEta | internal/matching/ranking.go:56-65 | Drivers idle equally long come by ETA, and at equal ETAs by ID. |
| Ranking.BeforeIsLexicographic | internal/matching/ranking.go:60-65 | The order of IDs is dictionary order. |
| Ranking.RankingIsDistinct | internal/matching/ranking.go:40-67 | Distinct drivers are each ranked once. |
| Ranking.RankingIgnoresInputOrder | internal/matching/ranking.go:35-39 | Two inputs with the same drivers in any order have one and the same ranking. |
| Ranking.ImprovingNeverMovesLater | internal/matching/ranking.go:20-25 | Coming nearer never moves a driver later in the list; with a non-negative weight, nor does idling longer. |
| Ranking.NegativeWeightPunishesWaiting | internal/matching/ranking.go:56 | With any negative weight there are two drivers whose order turns against the one who waits. |
| Matching.SearchThenRank | cmd/disco/server.go:57-64 | Ranking what the search found lists, best first and once each, the AVAILABLE drivers a scan finds within the radius. |
| Matching.Matcher.Shortlist | cmd/disco/server.go:57-64 | On a complete, single-indexed store, that is the ranking of the scan at the radius where the search stops, by the clock at the time of the request. |
| Requests.LocalHandler.Handle | cmd/disco/server.go:52-68 | A request alone ends as offering it to its shortlist does, with exactly those events and waits; on such a store it is matched with the best-ranked AVAILABLE driver within that radius who accepts, among the MaxRounds best, or goes UNFULFILLED, and no other driver changes state. |
| HashRing.Search | internal/hashring/ring.go:94 | The first index at or after the hash. |
| HashRing.InsertSorted | internal/hashring/ring.go:126-132 | The same elements and one more, in ascending order. |
| HashRing.RemoveSorted | internal/hashring/ring.go:135-141 | All elements but the given one, in ascending order. |
| HashRing.Ring.constructor | internal/hashring/ring.go:36-44 | An empty ring, with 150 replicas if none are asked for. |
| HashRing.Ring.AddNode | internal/hashring/ring.go:50-62 | The node takes exactly its positions nobody holds; slice and map stay in agreement, collisions included. |
| HashRing.Ring.RemoveNode | internal/hashring/ring.go:67-79 | Exactly the node's own positions go; slice and map stay in agreement. |
| HashRing.Ring.Lookup | internal/hashring/ring.go:85-99 | The owner of the position minimising (position - hash) mod 2^64; nothing only on an empty ring. |
| HashRing.Ring.Nodes | internal/hashring/ring.go:102-115 | Every owner, once. |
| HashRing.NearestIsUnique | internal/hashring/ring.go:81-84 | That position is unique. |
| HashRing.FirstAtOrAfterIsNearest | internal/hashring/ring.go:93-98 | Binary search and wrap-around arrive at it. |
| RingTheory.SliceIsDetermined | internal/hashring/ring.go:30-31 | The slice carries no more than the owner map: equal maps, equal slices. |
| RingTheory.JoinMovesOnlyToNewcomer | internal/hashring/ring.go:46-49 | After a join each key keeps its owner or goes to the newcomer, collisions included. |
| RingTheory.LeaveMovesOnlyOwnKeys | internal/hashring/ring.go:64-66 | After a leave exactly the leaver's keys change owner, and it owns nothing. |
| RingTheory.LeaveUndoesJoinIff | internal/hashring/ring.go:50-79 | A leave undoes a join if and only if the node owned nothing before. |
| RingTheory.JoinRelocatesToNewcomer | internal/hashring/ring.go:46-49 | The keys a join relocates are exactly those the newcomer then owns. |
| RingTheory.LeaveRelocatesOwned | internal/hashring/ring.go:64-66 | The keys a leave relocates are exactly those the leaver owned. |
| RingTheory.RelocationsSumToKeys | internal/hashring/ring.go:46-49 | Over all nodes of a ring of two or more, single departures relocate exactly as many keys as there are. |
| RingTheory.SomeLeaveMovesAnNth | internal/hashring/ring.go:1-6 | Some node's departure relocates at most one N-th of any finite set of keys. |
| RingTheory.CollisionsAreAvoidable | internal/hashring/ring.go:121-123 | For any nodes and replicas the ring has room for, some hash keeps all replicas of all of them apart. |
| RingTheory.HistoryGivesRing | internal/hashring/ring.go:50-79 | Without collisions among the nodes that join, any history of joins and leaves, repeats included, gives the ring of its members. |
| RingTheory.EqualMembersEqualRing | internal/membership/membership.go:39-40 | So, without collisions among the nodes that join, nodes that have seen the same members have the same ring. |
| RingTheory.HistoryFreeIffNoCollision | internal/hashring/ring.go:56-58 | For any set of nodes, the ring is independent of the history in which they join and leave if and only if no two of them collide. |
| Routing.OneHop | internal/router/router.go:68-95 | In a connected cluster a node handles what it owns and sends anything else to the owner it sees, where the request is routed afresh. |
| Routing.DeliveryHasCause | internal/router/router.go:68-95 | Whatever the nodes believe: only a node that takes itself for the owner handles a request, only one without an owner or an address rejects it, and it is lost only at an address where no node answers. |
| Routing.SameHandlerIffSameOwner | cmd/disco/grpc_server.go:27-33 | Every entry node gets a request to one handler with at most one forward if and only if all nodes see that owner. |
| Routing.EqualMembersOneHandler | internal/router/router.go:68-95 | Without collisions among the nodes that join, nodes with equal member sets, whatever their histories, send every request to the same node. |
| Routing.OwnersComeNearer | internal/hashring/ring.go:81-84 | Without collisions among the members, the owner one ring names, if on its own ring, names itself there or a node strictly nearer to the key. |
| Routing.EveryRequestSettles | internal/membership/membership.go:83-85 | Without collisions among the nodes, while their member sets differ in any way but each is on its own ring, every request is handled after fewer forwards than there are nodes, by a node that takes itself for the owner. |
| Routing.HearsayMakesACluster | internal/membership/membership.go:39-40 | Nodes that have each joined their own ring and heard any joins and leaves of the others form a cluster of that kind. |
| Routing.ClustersExist | internal/membership/membership.go:83-85 | For any nodes and histories of that sort, and any number of replicas the ring has room for, there is a hash without collisions, and so such a cluster. |
| Routing.SplitClusterExists | internal/membership/membership.go:83-85 | For one, two nodes with 150 replicas that have yet to hear of each other, each handling what enters at it. |
| Routing.DisagreementNeverSettles | cmd/disco/grpc_server.go:27-33 | Two nodes that each take the other for the owner forward a request for ever. |
| Routing.StrangersForwardForEver | internal/membership/membership.go:83-85 | Without the local node on its own ring that happens, for any hash and any key. |
| Hubs.OneForwardReachesIff | internal/router/router.go:103-130 | An answer reaches the loop on a node with at most one forward if and only if the node it enters at takes that node for the owner, and that node does too. |
| Hubs.EveryAnswerReachesIff | cmd/disco/server.go:79-93 | Answers sent to any node reach a loop if and only if it runs on the node all of them take for the owner. |
| Hubs.NoAnswerReachesElsewhere | cmd/disco/server.go:79-93 | However often forwarded, no answer reaches a loop on a node that takes another for the owner. |
| Hubs.DispatchStartsWhereItHears | cmd/disco/grpc_server.go:27-33 | The loop a dispatch request starts runs on a node that takes itself for the owner. |
| Hubs.RunElsewhereNeverMatches | cmd/disco/main.go:115-126 | A Run on any other node, as every node's reconciler starts them, if alone and without error, marks its trip UNFULFILLED and leaves every driver as it was, whatever the answers. |
| Hubs.RunAtOwnerHearsAll | cmd/disco/server.go:79-93 | On the node all take for the owner, a Run alone matches the first driver asked who accepts within the window, wherever the answers are sent. |
| Surge.CountWithinWindow | internal/surge/aggregator.go:134-142 | The number of entries in the window. |
| Surge.PruneMap | internal/surge/aggregator.go:144-150 | Exactly the entries in the window are kept. |
| Surge.WindowIsComplete | internal/surge/aggregator.go:119-132 | Read no earlier than the latest prune, the maps show in the window exactly what the whole history does. |
| Surge.RecordHolds | internal/surge/aggregator.go:44-68 | A trip or driver record keeps each cell in step with its history: each id's last event decides. |
| Surge.PruneHolds | internal/surge/aggregator.go:122-132 | A prune drops only what some prune time puts outside the window. |
| Surge.KeptIffEntry | internal/surge/aggregator.go:125-130 | A cell survives a prune if and only if its history has an entry in the window. |
| Surge.OpenIff | internal/surge/aggregator.go:44-54 | A trip is demand in a cell if and only if the last state reported of it there is one the trip machine does not end in, reported no longer than the window ago. |
| Surge.OpenAfterReport | internal/surge/aggregator.go:44-54 | For every trip state, after a report of it under its published name the trip counts within the window exactly if the state is not terminal. |
| Surge.AvailableIff | internal/surge/aggregator.go:59-68 | A driver is supply in a cell if and only if its last ping there said AVAILABLE, no longer than the window ago. |
| Surge.RatioTimesSupplyIsDemand | internal/surge/aggregator.go:83-99 | A finite ratio times the supply is the demand; it is infinite exactly when there is demand and no supply. |
| Surge.Aggregator.RecordTrip | internal/surge/aggregator.go:44-54 | Keeps the aggregator in step with the history, of which OpenIff says what counts. |
| Surge.Aggregator.RecordDriver | internal/surge/aggregator.go:59-68 | Keeps the aggregator in step with the history, of which AvailableIff says what counts. |
| Surge.Aggregator.ReadRatio | internal/surge/aggregator.go:83-99 | At any time not before the latest prune, the ratio of the full history. |
| Surge.Aggregator.Prune | internal/surge/aggregator.go:122-132 | Stays in step with the history, and right afterwards holds exactly the cells with an entry in the window. |
| Surge.Aggregator.Cells | internal/surge/aggregator.go:109-117 | Each cell held, once. |
| Demand.WaitingTripIsDemand | cmd/surge/main.go:46-56 | Fed the events of a Run that announced its trip and has not resolved it, the aggregator's history counts the trip as demand for one window from the announcement. |
| Demand.ResolvedTripIsNoDemand | cmd/surge/main.go:46-56 | Fed the events of a nil-error Run, it counts the trip no longer, however it was resolved. |
| Multiplying.ComputeMultiplier | internal/surge/multiplier.go:36-50 | The loop finds the last step reached and clamps its multiplier. |
| Multiplying.LevelIsHighestReached | internal/surge/multiplier.go:33-35 | With ascending thresholds that is the highest step not above the ratio. |
| Multiplying.PriceAt | internal/surge/multiplier.go:33-50 | For ascending steps the price at every ratio: that of the step whose threshold the ratio meets, exactly or beyond, short of the next; the floor below the first; never outside the bounds. |
| Multiplying.DefaultPrices | internal/surge/multiplier.go:18-31 | The default curve: 1, 1.2 from 1.5, 1.75 from 3, 2.5 from 5, 3 from 8 and without supply. |
| Multiplying.MultiplierIsBoundedAndRises | internal/surge/multiplier.go:10-16 | The price is within [Min, Max] and does not fall as the ratio rises, infinity included. |
| Multiplying.InfinityHitsCeilingIff | internal/surge/multiplier.go:33-35 | For every configuration, an infinite ratio reaches the ceiling if and only if the last step's multiplier or the floor does. |
| Multiplying.InfinityMayMissCeiling | internal/surge/multiplier.go:33-35 | The default curve without its top step misses it. |
| Multiplying.MultiplierFollowsDemandAndSupply | internal/surge/aggregator.go:79-99 | The price does not fall as trips open and does not rise as drivers become available. |
| Multiplying.DemandDecays | internal/surge/aggregator.go:134-142 | Without openings the trips open in the window only become fewer. |
| Multiplying.SurgeDecays | internal/surge/aggregator.go:83-104 | Without openings and with supply that does not shrink, the price does not rise over time. |
| Multiplying.SurgeEnds | internal/surge/aggregator.go:83-104 | One window after the last opening, the ratio is zero and the price that of no demand. |

## Left out

- Dispatching.Dispatcher.Run: the loop body is split into methods of the same class; `backoff *= 2` is on unbounded integers, so a backoff above 2^62 ns does not wrap around; metrics are not kept; a cancelled context is an error of the next call, and a wait it cuts short is an early `NoResponse`.
- Isolation.EventsFollowTheGrammar: publishing always succeeds, as the dispatcher ignores publish errors, and events carry no timestamps.
- FirstAcceptor.RunFindsFirstAcceptor: no driver hash expires during the Run; Interleaving and Orphans treat expiry.
- Interleaving.EveryExecutionIsSafe: each store call is atomic, time passes only in the offer wait and the backoff sleep, and no call that fails has an effect, and no hash expires while its driver is held, a matched trip's driver included; ExpiryIsSafeIffUnheld says the last is exactly what is needed. Driver TTLs are not counted: expiry may happen at any step.
- Protection.LivingRunIsNeverSwept: from the Run's first offer on, EarlySweep having the time before, and under the same assumptions; EXPIRE's rounding of TTLs to whole seconds is not modelled.
- Reconciling.Reconciler.Sweep: no other dispatcher runs meanwhile; the cell of a position is an arbitrary function that may fail; a trip whose offer runs out while the sweep is busy with others may be resolved or left for the next; after an error, what the last, broken-off resumption published and did to drivers is that of a Run stopped short.
- Recovery.CrashLeavesTripRecoverable: the crash falls between two store calls; SplitTransition treats a crash inside one.
- Stores.TripStore.TransitionTo: a call that fails has no effect, where the source may fail in SADD or SREM after HSET has taken effect; SplitTransition says what such a half-done call leaves, and when the index then disagrees.
- Stores.OfferStore.SetOfferState: a call that fails has no effect, where the source may fail in DEL after HSET has taken effect; SplitTransition says what that leaves. SplitExpiry treats an offer that expires between its two commands.
- Orphans.TurnOrphansIffEnds: rests on the same assumption; SplitTransition has the one error that strands nobody.
- Stores.DriverStore.SetState: one step; SplitClaim treats the interleaving of two claims, and SplitExpiry a record that expires between its read and its write.
- Stores.DriverStore.UpdateLocation: a hash that expires between the script and HSETNX is left to SplitExpiry, where HSETNX is a write of one field like HSET.
- Stores.DriverStore.DriversInCell: one step; SplitSweep treats pings between its commands.
- Stores.TripStore.GetTrip: parse errors of trips, rider IDs, idempotency keys and creation times are not modelled; stored times keep their full precision where the source truncates to seconds.
- CandidateSearch.FindCandidates: no driver moves during one search; disks are any cells with any distance, as H3 is not part of this model.
- Requests.LocalHandler.Handle: begins with a trip just created and its cell; a retry that finds the trip OFFERED or resolved, and the reading of the final record, are not modelled.
- Hubs.RunElsewhereNeverMatches: the views of the nodes stay as they are during one Run; the hub's own channel and timer races are not modelled.
- Ranking.Rank: scores are exact reals, and the estimator is an arbitrary function that may fail; rounding and congestion are not modelled.
- Surge.Aggregator.ReadRatio: read for a time before the latest prune it may count fewer than the history; ratios are exact reals with an infinity.
- Multiplying.MultiplierFollowsDemandAndSupply: requires ascending steps with non-falling multipliers and Min at most Max, as the configuration's comment demands of its user.
- Routing.SameHandlerIffSameOwner: dialling a known, listening address succeeds, and a request that reaches its owner is handled.
- HashRing.Ring.Lookup: the hash is an arbitrary function into 0..2^64-1; xxhash is not part of this model, nor are the locks.
- The statistical balance of virtual nodes depends on the real hash; the exact accounting of relocations is proved instead.
- Gossip membership is an arbitrary history of joins and leaves.
- Within its node the response hub is an oracle: which person answered, and whether a delivered answer was consumed, is not claimed.
- Idempotent trip creation is not modelled.
- Kafka, gRPC, HTTP, WebSocket and protobuf plumbing, surge persistence, and claims that a driver counts in one surge cell only.
