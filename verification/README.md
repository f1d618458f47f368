# Rider–driver matching: the claim protocol, the geo index, the circuit breaker and the fares

This project models the dispatch service of the matching marketplace and proves what it is for: no driver
is ever on two live trips, whatever interleaves, fails or crashes; a request is accepted once however often
it is retried; what a killed process leaves behind is repaired by a few sweeps; the geo index answers like a
scan over all drivers; the circuit breaker is exactly its history of reports; a degraded fare never
overcharges.

`dafny verify dfyconfig.toml` checks everything.

## How it is laid out

- `Domain`, `Tables`, `TableLaws`: the trip state machine, the two tables of `schema.sql`, each SQL
  transaction as a function on them, and what each transaction keeps.
- `Store`, `Queue`, `Api`, `Matching`, `Reaping`, `Geo`, `CircuitBreaking`, `Pricing`: the objects of the
  source as classes with the same fields, branches and loops, each method proved against the functions
  above (`Sorting` and `Decimal` hold the sort and the integer printing they need).
- `Protocol`, `ProtocolInvariant`, `ProtocolTheorems`: any number of matchers, API requests and app
  clients, one reaper, the tables, the queue and the clock as a step system. A step is one committed
  transaction, one queue operation or one local move; any process may stop before any step, any store
  operation of a matcher may raise, the queue may be lost. The theorems hold at every point of every honest
  run, that is, every run that meets the two assumptions below.
- `Leading`, `OrphanReads`: what can follow a state, and exactly which reads of the reaper nothing bad can
  follow.
- `Interference`, `CodeRuns`: the bridge. The coded `match_once`, the two sweeps and `request_ride` take what
  others do in each gap between their operations as a parameter. When those are steps other processes can
  take under the two assumptions, the call is a piece of an honest run, so the theorems hold for its outcome;
  `QuietIsPossible` shows that there are such steps.
- `MatchBranches`: every branch of `match_once`, with others at work in the gaps, in terms of rows and claims.
- `MatchOutcomes`, `Counterexamples`: what an undisturbed call achieves, why the timing assumption cannot be
  dropped, and a claim that outlives its trip.

Drivers, trips, riders and idempotency keys are strings wrapped in a type each, so that one cannot stand
for another. An exception is a constructor, a `false` or a `null`; an `Option` is a nullable column.

## What the code relies on

`HonestRun` names the two assumptions that are about behaviour; nothing else restricts a run.

- When the reaper's orphan query commits, no running matcher holds a claim older than ORPHANED_CLAIM_MS
  (`InTime`). The code relies on the 0.25 s RPC deadline (dispatch/pricing_client.py:32) and the 2 s pool wait
  (dispatch/store.py:59) for this and enforces it nowhere. `LateMatcherDoubleBooks` is a run without it that
  puts one driver on two trips; `ReadIsSafeIff` says exactly which reads are safe: when any row read is the
  claim of a running matcher, the run has a continuation that books a driver twice.
- Nobody calls `advance` with MATCHED. The transition table lets it through (dispatch/store.py:194);
  `AdvanceKeepsRowIff` says that this is the one destination that breaks a row.
- By construction of the model: one reaper, one non-decreasing clock, an operation that raises has
  committed nothing, and request ids are fresh where a theorem says `FreshIds`.

## Where the code and its documentation differ

The code is followed in each case.

- A failed probe does not start another cooldown (dispatch/pricing_client.py:51 says it does): the stamp is
  set only when the counter equals the threshold, so the next call is a probe again
  (`FailureStartsCooldownIff`, `FailedProbeQuoteStartsNoCooldown`; `ProbesGoWrong` has the calls).
- `quote` is documented never to raise for an outage; it raises for any exception that is no `RpcError`, and
  if that happens on a probe the breaker refuses for good (`QuoteIsFair`, `AbandonedProbeSkipsForGood`;
  `ProbesGoWrong` has the calls).
- A wider ring is documented to hold drivers strictly further away (dispatch/geo.py:47-49); it need not
  (`WiderRingCanBeNearer`), and `FirstNamedIsNearestIff` says exactly when the driver named first is nearer than
  every place outside the ring (`ScaledGrowsOnMeridian` and `ScaledMeasures` show that their conditions on the
  distance can be met). `neighbours` is documented to list the centre first; it lists row by row, and
  the centre is the middle one (`CentreIsMiddle`).
- A claim is documented to be deleted when its trip reaches a terminal state (schema.sql:28,
  dispatch/store.py:193). It outlives the trip when the trip is cancelled while still REQUESTED, with a matcher's
  claim on it: the driver column is NULL then and nothing is deleted. `ClaimOutlivesItsTrip` is an honest run to
  such a state, which chaos/verify.py:52-68 reports until the reaper has been there. The other case is an empty
  driver id, which Python takes for false; the API refuses one (dispatch/api.py:54), so it takes a caller that
  bypasses it. `TerminalAdvanceFreesDriver` says that `advance` leaves a claim in no third case. (A matcher that
  read the trip before can still claim a driver for it afterwards; its save conflicts, and it gives the driver back.)
- `sweep_orphaned_claims` reads `self._store._conn` (dispatch/reaper.py:82), a field the pooled store no longer
  has; the query is modelled as it is meant to run, over a pooled connection.

## Model

| member | source | states |
|---|---|---|
| ProtocolTheorems.NoDriverOnTwoLiveTrips | chaos/verify.py:26-36 | in every state of every honest run, each MATCHED or EN_ROUTE trip's driver has a claim row naming that trip, and no two live trips share a driver |
| ProtocolInvariant.StepKeeps | dispatch/store.py:123-215 | each of the sixteen kinds of step, by whatever process and in whatever state of the others, keeps the invariant the other theorems rest on |
| ProtocolInvariant.MatcherStepKeeps | dispatch/matcher.py:63-127 | a matcher's move, on any tables where its locals are sound, leaves sound tables and sound locals, on every branch including each exception path |
| ProtocolInvariant.MovesOwnClaim | dispatch/matcher.py:85-117 | a matcher's move touches no claim row but its own and makes live no trip but the one its claim names |
| ProtocolTheorems.ConflictMeansTripIsOver | dispatch/matcher.py:105-111 | a save that does not raise commits when its row is REQUESTED; on any other row it changes nothing and goes to the release that re-reads, and the trip is then COMPLETE or CANCELLED |
| ProtocolTheorems.ConflictIsReread | dispatch/matcher.py:105-111 | after that conflict the claim is deleted and then the trip is read again and returned as its row stands, which is terminal |
| ProtocolTheorems.ClaimsGoOnlyWithTheirTrip | dispatch/store.py:162-169 | whoever deletes a claim row, its trip is not live afterwards, and not before either unless the delete is part of `advance` |
| ProtocolTheorems.ClaimLeftIff | dispatch/matcher.py:96-117 | when a matcher lets go of its claim the row is still there exactly when the save committed, the trip being live with that driver, or the release raised, the trip not being live |
| ProtocolTheorems.WorklistStaysOrphaned | dispatch/reaper.py:96-107 | between the reaper's SELECT and its DELETE each row on the worklist is still that (driver, trip) claim, held by no running matcher, of a trip that is not live |
| ProtocolTheorems.WorklistClaimsUntouched | dispatch/reaper.py:80-107 | no step of any process changes a claim row while it is on the worklist |
| ProtocolTheorems.ReleasesHitTheClaimsRead | dispatch/reaper.py:96-107 | from the SELECT until its own DELETE each row read is in the claims table with the trip and the time it had at the SELECT, so every release deletes the claim that was read |
| ProtocolTheorems.FinishedSweepPushedAll | dispatch/reaper.py:66-70 | whatever happens meanwhile, a stranded sweep that ends without failing has pushed every id of its page |
| OrphanReads.ReadIsSafeIff | dispatch/reaper.py:80-107 | after a read of the orphans no honest continuation ever puts a driver on two live trips if and only if no row read is the claim of a running matcher |
| OrphanReads.OwnedRowDoubleBooks | dispatch/reaper.py:96-107 | when the reaper is about to delete a claim whose owner still runs, some continuation books the driver twice: the two deletes by driver alone free it between two matches |
| ProtocolInvariant.FindOrphansKeeps | dispatch/reaper.py:47-48 | the read keeps the invariant whenever every running matcher's claim is at most ORPHANED_CLAIM_MS old, even for a cutoff computed earlier |
| Counterexamples.LateMatcherDoubleBooks | dispatch/reaper.py:80-107 | without that, a run of ordinary steps ends with one driver on two live trips |
| ProtocolTheorems.CommittedUpdatesAreEdges | dispatch/store.py:171-215 | every committed change of a row is an edge of the transition table and raises the version by one, although no UPDATE tests the state |
| ProtocolTheorems.SnapshotsAreSound | dispatch/store.py:176-183 | every trip in a matcher's or client's memory, what `match_once` returned last included, has at most the row's version, and at equal version the row's state, driver and fare |
| ProtocolTheorems.VersionCountsTransitions | dispatch/domain.py:32-38 | along every run a row's version is the number of its state changes, at most 3; REQUESTED, MATCHED, EN_ROUTE, COMPLETE only at 0, 1, 2, 3, CANCELLED only at 1 to 3 |
| ProtocolTheorems.RowsOnlyProgress | dispatch/store.py:171-215 | a row never disappears, never changes its key, rider or pickup, keeps driver and fare once set, and never changes at all once terminal |
| ProtocolTheorems.SavedAtMostOnce | dispatch/matcher.py:71-78 | however often an id is delivered and however many matchers work on it, the number of committed saves of a trip is 1 if it has a driver and 0 if not |
| ProtocolTheorems.MatchedMeansDriverAndFare | chaos/verify.py:42-50 | driver and fare are set together, never while REQUESTED and always from MATCHED to COMPLETE |
| ProtocolTheorems.KeyBoundForEver | schema.sql:13-20 | an idempotency key once bound to a trip is bound to it at every later moment of the run |
| ProtocolTheorems.RepliesAgree | dispatch/store.py:123-145 | two requests with one key anywhere in a run are answered with the same trip id |
| ProtocolTheorems.OneAttemptPerKey | dispatch/api.py:77-89 | of all attempts with a key, exactly one creates the row and goes on to push, once the key is in use, and none before |
| ProtocolTheorems.OneRowPerKey | schema.sql:20 | there are as many rows as distinct keys |
| ProtocolTheorems.NoHintWithoutRow | dispatch/api.py:67-87 | every id in the queue, in a request between write and push, or in a matcher's hands names a row |
| CodeRuns.CodeIsARun | dispatch/matcher.py:63-127 | every execution of `match_once` with honest steps of the other processes in its gaps is a piece of an honest run, ending in the same tables and at the same point |
| CodeRuns.DriveIsSafe | dispatch/matcher.py:63-127 | so, begun in a state of an honest run, it ends in one, and no driver is on two live trips |
| CodeRuns.MatchOnceInRun | dispatch/matcher.py:63-127 | the same for a call of the coded `match_once`, on the candidates the index gives and the fares pricing gives: its tables, its return value or exception, its place in the run |
| CodeRuns.LoopTurnIsARun | dispatch/matcher.py:144-154 | a turn of the matcher's loop, from the pop to the push back when the call raised, is a piece of an honest run |
| CodeRuns.OrphanSweepIsARun | dispatch/reaper.py:72-108 | the orphan sweep as coded, with honest steps of others before its SELECT and before each DELETE and with operations that may raise, is a piece of an honest run; each release finds the very claim the SELECT read, of a trip that is not live, and no driver ends on two live trips |
| CodeRuns.FreeingHits | dispatch/reaper.py:96-107 | the release loop alone: whatever others do in its gaps, each release deletes the claim that was read |
| CodeRuns.OrphanSweepInRun | dispatch/reaper.py:72-108 | the same for a call of the coded sweep, on the page its query gave and the releases it got to |
| CodeRuns.StrandedSweepIsARun | dispatch/reaper.py:58-70 | the stranded sweep as coded, with honest steps of others before its query and before each push, is a piece of an honest run that ends with the queue the code leaves |
| CodeRuns.RequestIsARun | dispatch/api.py:77-89 | a request, with honest steps of others between its write and its push and a death in between, is a piece of an honest run that ends with the tables and the queue the code leaves; a replay touches neither |
| Matching.Matcher.MatchOnce | dispatch/matcher.py:63-127 | under arbitrary commits of others and arbitrary raised store errors in every gap, the code ends where iterating the step system's matcher move from its first read ends, on the candidates the geo index gives and the fares pricing gives |
| Matching.Matcher.TryFirstFive | dispatch/matcher.py:85-95 | the claim loop tries the first five candidates in order and stops at the first claim that commits |
| Matching.Matcher.PriceAndSave | dispatch/matcher.py:99-117 | with a claim in hand: quote, then save, with each exception branch |
| Matching.Matcher.GiveBack | dispatch/matcher.py:105-117 | the two except branches: release, then re-read or re-raise; a release that raises leaves the claim to the reaper |
| Matching.Matcher.RunOnce | dispatch/matcher.py:144-154 | one turn of the loop takes the oldest id and puts it back last exactly when the match raised, whatever others did to the queue meanwhile |
| MatchBranches.LostRace | dispatch/matcher.py:105-111 | when the row has changed between the call's read and its save, the driver is given back, the trip is read again and returned as its row then stands; nothing is raised unless the release or that read raises |
| MatchBranches.SaveCommits | dispatch/matcher.py:119-124 | when the row is as it was read, it becomes MATCHED with driver, quoted fare and the next version, nothing else changes, and the trip returned is that row |
| MatchBranches.SaveRaises | dispatch/matcher.py:112-117 | when the save raises anything else, the driver is given back and the exception goes on; a release that raises too leaves the claim |
| MatchBranches.QuoteRaises | dispatch/matcher.py:112-117 | the same for the quote |
| MatchBranches.AllRefused | dispatch/matcher.py:85-95 | after five refused claims, or as many as there are candidates, the call returns nothing |
| MatchBranches.ClaimRaises | dispatch/matcher.py:85-88 | a claim that raises anything but the refusal ends the call raised, with nothing changed |
| MatchBranches.NothingLeftToDo | dispatch/matcher.py:63-78 | a trip that has no row or is no longer REQUESTED is returned as it is |
| MatchBranches.ReadRaises | dispatch/matcher.py:65-69 | a read that raises ends the call raised |
| MatchBranches.CallerSees | dispatch/matcher.py:144-154 | those ends are what the caller gets: an exception, or the trip field by field |
| Matching.FareOf | dispatch/pricing_client.py:107-146 | the fare of a match: the service's number, or without its answer the local fare to the cent for the way from driver to rider taken twice |
| MatchOutcomes.FirstFreeDriverIsMatched | dispatch/matcher.py:85-124 | undisturbed, a REQUESTED unclaimed trip is matched to the first unclaimed of the first five candidates at the quoted fare; one row changes, one claim is added, nothing else |
| MatchOutcomes.FailedQuoteRestores | dispatch/matcher.py:112-117 | when the quote raises, both tables end as they were and the id is re-queued |
| MatchOutcomes.NobodyFreeChangesNothing | dispatch/matcher.py:80-95 | when the trip is claimed already or none of the five is free, nothing changes |
| MatchOutcomes.RedeliveryIsHarmless | dispatch/matcher.py:71-78 | a delivery of an id that has left REQUESTED, or has no row, changes nothing and returns the row |
| MatchOutcomes.DriveEnds | dispatch/matcher.py:63-127 | under any interference a call ends, returned or raised |
| MatchOutcomes.AloneAllOrNothing | dispatch/matcher.py:96-117 | with nobody else at work, whatever operations raise, a call ends with the trip matched and its claim added, or with both tables as they were, or, exactly when its release raises, with just its claim left behind |
| MatchOutcomes.FirstFreeIsNearestFree | dispatch/geo.py:142-144 | the driver settled on is the nearest unclaimed one of the five, and of the whole answering ring when it has no more than five |
| MatchOutcomes.RecoveredRiderIsMatched | dispatch/reaper.py:13-29 | after the sweeps a waiting rider gets the first of the first five candidates who is on no live trip: no crashed process's claim is in the way |
| Reaping.Reaper.SweepStrandedTrips | dispatch/reaper.py:58-70 | with others at work before the query and before each push: pushes a result of the stale-trip query in its order, up to the first operation that raises, and counts it |
| Reaping.Reaper.SweepOrphanedClaims | dispatch/reaper.py:72-108 | with others at work before the SELECT and before each DELETE: releases the drivers of a result of the orphan query, up to the first operation that raises, and counts them |
| Reaping.QuietSweepFrees | dispatch/reaper.py:96-107 | with nobody else at work the release loop takes away exactly the claims of the page |
| Reaping.PageHoldsDeadClaims | dispatch/reaper.py:80-94 | the orphan query yields claims more than 30 seconds old whose trip is neither MATCHED nor EN_ROUTE: all of them, or 500 |
| Reaping.OneSweep | dispatch/reaper.py:83-105 | with nobody else at work one sweep removes 500 dead claims, or all when fewer, and no other claim and no row |
| Reaping.SweepsReconcile | dispatch/reaper.py:72-108 | ceil(n / 500) sweeps over n dead claims leave the claims table exactly the (driver, trip) pairs of the live trips |
| Reaping.CrashedRunsRecover | dispatch/reaper.py:5-28 | the same from any state of any honest run, however many processes died in it |
| Reaping.ReaperReconciles | dispatch/reaper.py:72-108 | the same over the reaper's own steps: whenever it alone sweeps, begins ceil(n / 500) sweeps over n dead claims and is through, the claims table is exactly the (driver, trip) pairs of the live trips |
| Reaping.ReaperCanReconcile | dispatch/reaper.py:72-108 | and once no running matcher holds a claim and every claim is old, it can do so in exactly that many sweeps |
| Reaping.PageHoldsLongestWaiting | dispatch/store.py:217-229 | the stale-trip query yields different trips, REQUESTED for more than 15 seconds, oldest first: all of them, or 200 of which none is younger than one left out |
| Reaping.QuietSweepRequeuesWaiting | dispatch/reaper.py:58-70 | with nobody else at work and at most 200 such trips, the sweep leaves exactly these in the queue behind what was there |
| Reaping.FinishedSweepRequeuesWaiting | dispatch/reaper.py:58-70 | on runs, with everybody at work: a trip REQUESTED and that old at the query is pushed by a sweep that comes to its end, if at most 200 are |
| TableLaws.InsertClaimKeeps | dispatch/store.py:147-160 | a committed claim keeps the table invariant and is for a trip that is not live |
| TableLaws.DeleteClaimKeepsIff | dispatch/store.py:162-169 | the release by driver id alone keeps the table invariant if and only if the claim is not a live trip's |
| TableLaws.UpdateMatchKeeps | dispatch/store.py:171-187 | a save under the version test from a claim naming the trip commits only on a REQUESTED row and keeps the table invariant |
| TableLaws.UpdateStateKeeps | dispatch/store.py:192-212 | an `advance` to anything but MATCHED from a sound snapshot keeps the table invariant and moves the row along the transition table |
| TableLaws.AdvanceKeepsRowIff | dispatch/store.py:192-201 | an `advance` leaves a well-formed row if and only if it is not used to reach MATCHED |
| TableLaws.AdvanceCommitsIff | dispatch/store.py:192-215 | an `advance` commits exactly when the version in memory is the row's; then the row has the new state and next version, no other row changes, and on a terminal state exactly the driver's own claim on this trip goes |
| ProtocolTheorems.UpToDateClientMoves | dispatch/store.py:192-215 | a client whose trip is what the row holds can make every legal move, and holds what the row holds afterwards |
| TableLaws.TerminalAdvanceFreesDriver | dispatch/store.py:192-212 | a terminal `advance` leaves a claim on the trip if and only if there was one and the trip was REQUESTED or its driver id is empty |
| Counterexamples.ClaimOutlivesItsTrip | dispatch/store.py:206-211 | an honest run reaches a state in which a driver is claimed for a cancelled trip and no running matcher holds the claim |
| Counterexamples.FreeDriverIsLeftClaimed | dispatch/store.py:206-211 | wherever a driver is free, some continuation of the run leaves it so |
| TableLaws.SnapshotSurvives | dispatch/store.py:171-190 | an in-memory trip stays a sound basis for the version test whatever commits |
| Store.TripStore.Load | dispatch/store.py:105-111 | reads one row as a new object, or none |
| Store.TripStore.LoadByKey | dispatch/store.py:113-119 | reads the row of a key, which is unique |
| Store.TripStore.CreateTrip | dispatch/store.py:123-145 | inserts the trip, or answers the one the key belongs to, or fails on a torn write; the keys stay unique |
| Store.TripStore.ClaimDriver | dispatch/store.py:147-160 | commits exactly when neither the driver nor the trip is claimed |
| Store.TripStore.ReleaseDriver | dispatch/store.py:162-169 | removes the driver's claim and nothing else |
| Store.TripStore.SaveMatch | dispatch/store.py:171-190 | commits exactly under the version test; row and object change together or not at all, and an object that held its row holds it afterwards |
| Store.TripStore.Advance | dispatch/store.py:192-215 | illegal, conflicting or committed, with the claim's delete in the same transaction; an object that held its row commits every legal move and holds its row afterwards |
| Store.FinishRide | dispatch/store.py:192-215 | so EN_ROUTE and then COMPLETE both commit on one object when nobody else writes, and the driver is free |
| Store.TripStore.StaleMatchedTrips | dispatch/store.py:217-229 | the 200 oldest REQUESTED trips beyond the cutoff, in age order |
| Store.TripStore.FindOrphans | dispatch/reaper.py:80-94 | 500 different claims the WHERE clause selects, or all of them |
| Domain.Trip.Advance | dispatch/domain.py:103-106 | changes the state along the table, or refuses and changes nothing |
| Domain.Trip.Assign | dispatch/domain.py:108-112 | state, driver and fare change together, from REQUESTED only |
| Domain.TerminalStates | dispatch/domain.py:32-60 | a state has no way out exactly when it is COMPLETE or CANCELLED, that is neither waiting nor live |
| Domain.OpenTripsCanBeCancelled | dispatch/domain.py:32-38 | every trip that is not finished can be cancelled, and besides that goes from stage to stage in order |
| Queue.PendingQueue.Pop | dispatch/queue.py:26-37 | takes the oldest id, or none |
| Api.RideApi.RequestRide | dispatch/api.py:77-96 | durable write first, push second, with others at work in between: which of 202, 200 and no reply, what the reply holds, and what a death between the two leaves |
| Geo.InMemoryGeoIndex.Nearby | dispatch/geo.py:122-145 | answers from the smallest ring of 1..max_ring in which somebody was heard of in the last 30 seconds, with exactly those drivers, each once with its distance, nearest first; with nothing exactly when every driver within max_ring cells has been silent for longer |
| Geo.AnswerIsFresh | dispatch/domain.py:85-87 | the same in milliseconds, from the specification of the answer alone |
| Geo.InMemoryGeoIndex.CellsFindEligible | dispatch/geo.py:196-209 | the drivers found through the listed cells and the staleness filter are those the scan finds |
| Geo.InMemoryGeoIndex.Heartbeat | dispatch/geo.py:184-190 | the driver is where it says, and the cell sets stay the exact inverse of the positions |
| Geo.InMemoryGeoIndex.GoOffline | dispatch/geo.py:192-195 | the driver is gone from both structures |
| Geo.InMemoryGeoIndex.DriverInOneCell | dispatch/geo.py:9-12 | each known driver is in the set of its cell and in no other; no set holds an unknown one |
| Geo.Neighbours | dispatch/geo.py:44-57 | the ids of the square around the point, row by row from its south-west corner; none for a negative ring |
| Geo.NeighbourKeysList | dispatch/geo.py:44-57 | these are (2r+1)^2 different ids, of exactly the cells within r in both directions |
| Geo.CentreIsMiddle | dispatch/geo.py:44-45 | the centre is at index 2r(r+1), so it comes first exactly when r is 0 |
| Geo.BlockLists | dispatch/geo.py:53-57 | the nested loops list each cell of the square once |
| Decimal.CellKeyInjective | dispatch/geo.py:37-41 | two cells share an id only when both indices are equal, negative ones included |
| Geo.RingBand | dispatch/geo.py:37-57 | cells at most r apart are less than r+1 cells of degrees apart, others more than r |
| Geo.CellBounds | dispatch/geo.py:37-41 | a cell reaches from its index in hundredths of a degree up to the next |
| Geo.SomeCell | dispatch/geo.py:37-41 | the ids of two cells, negative indices included, as the code prints them |
| Geo.AnswerBand | dispatch/geo.py:122-145 | when ring r answers, every fresh driver left out is more than r cells of degrees away in latitude or longitude, every one named less than r+1 in both |
| Geo.WiderRingCanBeNearer | dispatch/geo.py:47-49 | for every distance that grows along the pickup's meridian there is an index for which `nearby` names a driver and leaves out a nearer fresh one in a wider ring |
| Geo.EdgesDecide | dispatch/geo.py:37-57 | every place outside ring r is further than m exactly when m is less than the distance to the upper edges of the ring's square and at most that to the lower ones, for any distance with a reach to parallels and meridians |
| Geo.FirstNamedIsNearestIff | dispatch/geo.py:122-145 | the head of an answer of `nearby` is strictly nearer than every place outside the answering ring exactly under that condition, and is then the nearest of all fresh drivers |
| Geo.FirstNamedOnPlaneIff | dispatch/geo.py:122-145 | the same for every place there is, on a plane with any length of a degree of longitude |
| Geo.ScaledMeasures | dispatch/geo.py:24-27 | the plane with any length of a degree of longitude has such a reach |
| Geo.DegreesAreNotEnough | dispatch/geo.py:24-27 | at 60 degrees north a driver named less than one cell of degrees away is not the nearest |
| CircuitBreaking.CircuitBreaker.TryAllow | dispatch/pricing_client.py:66-76 | the four branches of `allow` on the fields |
| CircuitBreaking.CircuitBreaker.OnFailure | dispatch/pricing_client.py:83-89 | counts, ends the probe, stamps at the threshold only |
| CircuitBreaking.FieldsAreHistory | dispatch/pricing_client.py:66-89 | for any interleaving of calls by any threads: the counter is the length of the trailing failure run, the stamp the moment of that run's threshold-th failure, the flag says whether a probe was granted since the last report |
| CircuitBreaking.ProbesAreSeparated | dispatch/pricing_client.py:73-76 | between any two probes some outcome is reported |
| CircuitBreaking.OpensOnlyAfterThresholdFailures | dispatch/pricing_client.py:66-69 | the breaker is not closed exactly when the last `threshold` reports are all failures |
| CircuitBreaking.RefusedIff | dispatch/pricing_client.py:66-76 | a call is refused exactly when the trailing failures are at the threshold and the cooldown since the threshold-th of them is not over or a probe is out |
| CircuitBreaking.FailureStartsCooldownIff | dispatch/pricing_client.py:83-89 | a failure is followed by a full cooldown of refusals if and only if it is the threshold-th of its run, or the run is longer and its stamp is not in the past |
| CircuitBreaking.FailedProbeIsFollowedByProbe | dispatch/pricing_client.py:48-51 | after a failed probe the next call is a probe at once, contrary to the documentation |
| CircuitBreaking.AbandonedProbeBlocks | dispatch/pricing_client.py:73-76 | a probe that nobody reports blocks every later call, whatever the time |
| Pricing.PricingClient.Quote | dispatch/pricing_client.py:107-134 | what each of the breaker's answers and the RPC's outcomes makes of the fare and of the breaker |
| Pricing.QuoteIs | dispatch/pricing_client.py:107-146 | the number the service answered on a call that went out, the local fare to the cent when the breaker refused or the RPC failed, nothing when anything else was raised |
| Pricing.QuoteReports | dispatch/pricing_client.py:115-134 | a quote reports success to the breaker when answered, failure when the RPC failed, and nothing when refused or when anything else was raised |
| Pricing.ProbeOutIffAbandoned | dispatch/pricing_client.py:107-134 | quotes made one after the other leave a probe out exactly when one of them went out as the probe and raised something that is no `RpcError` |
| Pricing.NetworkSkippedIff | dispatch/pricing_client.py:66-89 | for any outcomes, sequential quotes skip the network exactly when the trailing failures are at least five and less than ten seconds passed since the fifth of them or a probe was so abandoned |
| Pricing.AbandonedProbeSkipsForGood | dispatch/pricing_client.py:124-133 | after an abandoned probe no later quote reaches the network |
| Pricing.FailedProbeQuoteStartsNoCooldown | dispatch/pricing_client.py:48-51 | a quote that fails as the probe is followed by a probe at once |
| Pricing.ProbesGoWrong | dispatch/pricing_client.py:66-89 | five failed quotes and a probe after ten seconds make both happen |
| Pricing.FallbackNeverOvercharges | dispatch/pricing_client.py:136-146 | the local fare is at least 500 and at most what the pricing service charges, at any surge |
| Pricing.WithoutSurgeOnlyTheDeadhead | pricing/server.py:59-71 | without surge the two differ by at most the driver's way to the rider, and by exactly that above the minimum |
| Pricing.ServiceFareBounds | pricing/server.py:64-73 | the service charges at least 500 and at most the larger of 500 and three times the base |
| Pricing.ServiceFareMonotone | pricing/server.py:59-73 | more metres or more surge never make a ride cheaper |
| Pricing.FareWithSurge | pricing/server.py:59-71 | the service's fare to the cent: n basis points of the base rounded down, and 500 when that is less |
| Pricing.SurgeMultiplies | pricing/server.py:68-71 | double surge doubles a fare above the minimum and triple surge triples it |
| Pricing.SurgeBounds | pricing/server.py:40-47 | surge is the stored number when between 1x and 3x, 1x below and 3x above, 1x when missing or garbage |
| Pricing.QuoteIsFair | dispatch/pricing_client.py:107-134 | on every path of breaker and RPC a quote is between 500 and the service's fare; it fails exactly for a foreign exception on a call that went out |
| Pricing.FareFitsInt32 | proto/pricing.proto:29 | fares between two points on earth fit the wire's int32 |

## Left out

- MySQL, Redis, gRPC, FastAPI and pydantic: a store method is one atomic transaction with the schema's unique
  keys, the queue a sequence, the RPC an arbitrary outcome, a request a call with validated fields. Collation
  and column widths of the id columns are not modelled.
- A lost commit acknowledgement: an operation that raises is taken to have changed nothing. Pool mechanics and
  reconnects fall under this.
- A second reaper running beside the first: the step system has one, which may fail and restart at any step.
- `updated_ms`, the metrics and the logs: nothing reads them.
- The Redis variant of the geo index and its key expiry; only the in-memory variant with the inherited `nearby`
  is modelled.
- Geo.RingBand: cell arithmetic is over reals, so rounding in `math.floor(x / 0.01)` and the seam at 180 degrees
  are not captured.
- Geo.InMemoryGeoIndex.Nearby: the distance is any function of two points, not the haversine formula.
- Geo.FirstNamedIsNearestIff: that the haversine formula has a reach to parallels and meridians is not proved, since
  it needs trigonometry; that a plane with scaled longitude has one is (`ScaledMeasures`).
- Pricing.ServiceFare: metre arithmetic is over reals, so rounding of `metres / 1000.0 * 140` is not captured.
- Matching.Matcher.RunOnce: the endless loop around it, its stop flag and the depth gauge.
- Real-time promises such as a match within 60 seconds: more than 200 stranded trips can starve newer ones.
- The read-only endpoints, process wiring, signal handling, the load generator and the deployment files.
