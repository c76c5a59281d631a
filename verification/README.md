# Tripneo booking protocols

Tripneo sells seats on trains, buses and flights. Each of the three services claims seats with expiring Redis locks,
commits rows to its own database and later confirms, fails, cancels or expires the booking on payment events, user
requests and timed jobs. The same seats are described by lock entries, seat flags, booking statuses, availability
counters and, for buses, a profit ledger. This project models those machines and the generators, rules and limiter
around them, and proves that the descriptions agree after every run.

Every operation that updates tables is a method of a class whose fields are those tables. Its postcondition equates the
new tables with a function of the old ones, and the lemmas are about that function. A run is a sequence of such events;
`Runs.dfy` holds the inductions shared by all three services.

| file | subject |
|---|---|
| `SeatLocks.dfy`, `LockInterleaving.dfy` | the lock tables, all-or-nothing claims, in-place dedup; claims interleaved one Redis command at a time |
| `TrainInventory.dfy`, `TrainBooking.dfy`, `TrainSafety.dfy` | the train machine: berths, statuses, counters |
| `TrainAnswers.dfy`, `BusAnswers.dfy`, `FlightAnswers.dfy` | what requests are answered and what they leave behind, told without the functions that compute it |
| `TrainLimits.dfy`, `TrainRefunds.dfy` | runs that break it without its demands; what runs pay back |
| `SeatClaims.dfy` | the hold-by-lock protocol of buses and flights, and exactly when a payment or cancellation keeps it |
| `BusBooking.dfy`, `BusSafety.dfy`, `BusLimits.dfy`, `BusLedger.dfy` | the bus machine: exclusivity by timed lock, why its demands are needed, profit and frozen loss |
| `FlightBooking.dfy`, `FlightSafety.dfy`, `FlightExclusivity.dfy` | the flight machine: counters, exclusivity, late payments |
| `BusSeats.dfy`, `BusInventory.dfy`, `FlightSeats.dfy`, `Routes.dfy` | generators of seats, inventory and route points |
| `Refunds.dfy`, `Pricing.dfy`, `RateLimit.dfy` | refund arithmetic, pricing rules, the gateway's rate limiter |
| `Collections.dfy`, `Decimals.dfy`, `Runs.dfy` | sequences and rounding, printed numerals, runs |

Conventions. Times are milliseconds and each step reads the clock once, except that creating a booking reads it again,
any `lag` later, to stamp the payment window; `lockedUntil` remembers when the locks claimed for it lapse. Money is in
paise (rupees as reals in `Pricing.dfy`), percentages in basis points, hours in whole hours as the code rounds them. A
lock answers up to and including its last millisecond. Rows are numbered in insertion order, and a row is named by its
number. A database transaction is one step, and only that of a creation may fail. Creating a booking (check, lock,
commit) is one step, because the services read the seats before locking and do not read them again. Only
`LockInterleaving.dfy` looks inside a claim.

What is false of the code, and when it holds:

- A train `payment.failed` event for a settled booking breaks exclusivity or the counters; it is harmless exactly for
  active bookings (`FailureKeepsInvariantIff`, `LateFailureMiscounts`, `LateFailureFreesBerth`).
- A train request may name seats of another schedule, and then a counter goes wrong (`CreateKeepsCountersIff`,
  `ForeignSeatMiscounts`).
- The train rollback can delete a lock another user took over after an expiry (`BatchDeletesForeignLock`); it never
  does while no lock expires in the hands of a call that has the seat (`RollbackSparesOthers`).
- Bus and flight stamp `ExpiresAt` after claiming the locks, so a booking outlives its locks by that gap, however
  small. A payment in the gap passes the bus's expiry check; it is harmless exactly when the seats are still available
  and unlocked (`ConfirmKeepsSafeIff`, `LateStampDoubleBooks`, `ExpiryCheckEnoughIff`).
- A pending bus booking cancelled after its locks lapsed can free a seat confirmed since (`CancelKeepsSafeIff`,
  `StaleCancelDoubleBooks`).
- A flight payment has no expiry check at all, so a lapsed hold can lead to a seat confirmed twice
  (`ConfirmKeepsSafeIff`, `LapsedHoldRebooked`).
- The seat positions of the two seater generators differ in columns B and D (`PositionsAgreeIff`).
- Route points are renumbered without gaps only if no two of them are one stop row (`RenumberedIff`).
- Demand pricing is monotone only if no rule that can match has a multiplier below 1 (`ProductMonotoneIff`).
- The comment above the bus policy lookup (`bus-service/repository/booking_repo.go:188-191`) speaks of the smallest
  threshold at least the hours left; the query takes the greatest threshold at most the hours left, and so does the
  model.

## Model

| member | source | states |
|---|---|---|
| SeatLocks.Redis.LockSeats | bus-service/redis/seat_lock.go:42-59 | claims every seat or none: it succeeds exactly on requests without repeats whose seats nobody holds, and on any failure, a Redis error included, leaves the table as it was apart from expired entries |
| SeatLocks.Redis.ClaimNext | bus-service/redis/seat_lock.go:45-56 | one turn of the claim loop: one seat more is held, or everything held so far is given back |
| SeatLocks.Redis.DelIfOwner | bus-service/redis/seat_lock.go:64-70 | the script deletes a key only while it holds that owner |
| SeatLocks.Redis.UnlockSeatsByOwner | bus-service/redis/seat_lock.go:63-78 | removes exactly the live locks of the listed seats that belong to the owner |
| SeatLocks.Redis.UnlockSeats | Train-service/utils/seat_lock.go:56-68 | removes the listed keys, whoever holds them |
| SeatLocks.ClaimThenRelease | Train-service/utils/seat_lock.go:32-41 | a release of either kind undoes a claim on free seats |
| SeatLocks.LockTrainSeats | Train-service/utils/seat_lock.go:29-46 | claims every seat or none; a list with a repeat is refused whatever the table holds, as is a claim Redis answers with an error, and the table is restored |
| SeatLocks.DedupInPlace | bus-service/service/booking_service.go:268-276 | the slice that overwrites what it is reading ends as exactly the first occurrences of its old contents, and what lies behind it is untouched |
| SeatLocks.FirstOccurrencesDistinct | bus-service/service/booking_service.go:268-276 | first occurrences have no repeats and the same members |
| SeatLocks.FirstOccurrencesOrdered | bus-service/service/booking_service.go:268-276 | each kept value stands where it first occurred, so order is kept |
| SeatLocks.DedupedClaim | bus-service/service/booking_service.go:268-287 | after the dedup only a seat somebody holds can make the claim fail, and the set claimed is the set requested |
| SeatLocks.DedupAndLock | bus-service/service/booking_service.go:268-287 | dedup and claim together succeed exactly when no requested seat is held, repeats or not, and Redis answers |
| SeatLocks.DedupAndSave | bus-service/service/booking_service.go:285-323 | and when the database then refuses the booking, the release of the deduped seats gives back exactly what was claimed |
| LockInterleaving.InterleavingAccounted | bus-service/redis/seat_lock.go:42-59 | at every moment of every interleaving of LockSeats commands without expiry, no seat is held by two calls and the table is the initial one plus what the calls hold |
| LockInterleaving.WinnersDisjoint | bus-service/redis/seat_lock.go:42-59 | successful callers never share a seat, for the per-seat and for the batch rollback |
| LockInterleaving.FinalTable | Train-service/utils/seat_lock.go:29-46 | once all calls have ended the table is the initial one plus exactly the successful claims, under their users |
| LockInterleaving.SoloCall | bus-service/redis/seat_lock.go:42-59 | left alone, the commands of a call amount to the atomic claim: all its seats if none is held or repeated, otherwise nothing, with either rollback |
| LockInterleaving.CommandsFinish | bus-service/redis/seat_lock.go:45-58 | every command of an unfinished call brings it closer to its end and leaves the other calls alone |
| LockInterleaving.PerSeatDeletesOwnOnly | bus-service/redis/seat_lock.go:63-78 | even when locks expire in between, no command of the bus version deletes or changes another user's lock |
| LockInterleaving.PerSeatLockSurvives | bus-service/redis/seat_lock.go:63-78 | over whole runs with expiry a bus lock stays until it expires or its owner acts |
| LockInterleaving.RollbackSparesOthers | Train-service/utils/seat_lock.go:34-68 | over every run of calls with any expiries elsewhere: while no lock of a seat expires in the hands of a call that has the seat, no command of either version deletes or changes another user's lock of it |
| LockInterleaving.SeatWonOnce | bus-service/redis/seat_lock.go:42-59 | on such a seat two calls never both win, and the winner's lock is there, although other locks may expire |
| LockInterleaving.LockSurvives | Train-service/utils/seat_lock.go:56-68 | on such a seat a lock stays until it expires or its owner acts, with the train rollback too |
| LockInterleaving.BatchDeletesForeignLock | Train-service/utils/seat_lock.go:34-41 | without that demand the train rollback frees a seat another call has won: a run of six commands and one expiry |
| TrainInventory.GenerateBerths | Train-service/jobs/inventory_job.go:161-190 | the nested coach and berth loops produce the berths of every class, coach and position in order |
| TrainInventory.GeneratedFree | Train-service/jobs/inventory_job.go:139-194 | a generated schedule adds its announced capacity to its own free berths, class by class, and nothing to any other schedule |
| TrainInventory.DefaultCapacity | Train-service/jobs/inventory_job.go:66-75 | 24 SL, 16 3AC, 4 2AC and 2 1AC berths, in classes that have a counter |
| TrainInventory.BerthsDistinct | Train-service/jobs/inventory_job.go:161-190 | no two berths of a generated schedule share class, coach and number |
| TrainInventory.DefaultNames | Train-service/jobs/inventory_job.go:31-76 | the default coaches meet the demands of BerthsDistinct, number their berths from 1 and price them by class and place alone |
| TrainBooking.FoundAll | Train-service/repository/Inventory_repo.go:37-44 | the query finds as many rows as were asked for exactly when every id is known and none is repeated |
| TrainBooking.NoSeatError | Train-service/service/booking_service.go:127-134 | the seat check passes exactly when every requested berth is AVAILABLE and of the class |
| TrainBooking.TrainService.GenerateSchedule | Train-service/jobs/inventory_job.go:144-201 | a new schedule: its row with counters and its berths, or nothing if it exists |
| TrainBooking.TrainService.CreateBooking | Train-service/service/booking_service.go:78-264 | validation, all-or-nothing lock, transaction, and release of the locks when Redis, the booking number or the transaction fails, as one step |
| TrainBooking.TrainService.HandlePaymentCompleted | Train-service/kafka/consumer.go:86-118 | a pending booking becomes CONFIRMED with its berths BOOKED and locks released; any other event does nothing |
| TrainBooking.TrainService.HandlePaymentFailed | Train-service/kafka/consumer.go:144-162 | the booking becomes FAILED and its berths and counter are given back, without a status guard |
| TrainBooking.TrainService.CancelBookingByUser | Train-service/service/booking_service.go:283-357 | owner, status and policy checks, then berths, counter and refund row together |
| TrainBooking.TrainService.RunExpiryPass | Train-service/service/expiry_worker.go:31-89 | expires every overdue pending booking, one after another |
| TrainBooking.TrainService.GetExpiredPendingBookings | Train-service/repository/booking_repo.go:109-118 | lists exactly the overdue pending bookings |
| TrainAnswers.RouteOkIff | Train-service/service/booking_service.go:95-114 | the route check passes exactly when the last stop with the boarding code has a lower number than the last stop with the alighting code |
| TrainAnswers.ForwardOnly | Train-service/service/booking_service.go:95-114 | on a line that calls nowhere twice, with rising numbers, one may travel exactly from earlier to later stops |
| TrainAnswers.AcceptedIff | Train-service/service/booking_service.go:87-234 | a request becomes a booking exactly when it runs forward on a known schedule, names known berths once each, all AVAILABLE, of the class and unlocked, and Redis and the transaction accept it |
| TrainAnswers.RefusedBecause | Train-service/service/booking_service.go:87-234 | what each error answer says about the request |
| TrainAnswers.FareAdds | Train-service/service/booking_service.go:145-149 | the fare is the sum of the berths' prices |
| TrainAnswers.TotalTold | Train-service/service/booking_service.go:150-151 | 2% on top, exact to half a paisa |
| TrainAnswers.CreatedRow | Train-service/service/booking_service.go:160-183 | the one row an accepted request appends: its fields, total and window of 15 minutes from the stamp |
| TrainAnswers.CreatedLocks | Train-service/service/booking_service.go:136-143 | it locks the requested berths for ten minutes and leaves every other lock as it was |
| TrainAnswers.RefusedWritesNothing | Train-service/service/booking_service.go:137-262 | a refused request leaves every table and every live lock as it was |
| TrainAnswers.StatusMoves | Train-service/kafka/consumer.go:86-162 | for every event and booking, exactly which events change the status and to what; nothing else of a booking ever changes |
| TrainAnswers.ExpiresAfterWindow | Train-service/service/expiry_worker.go:31-89 | a new booking is expired by exactly the passes that run after its window |
| TrainAnswers.SettlingUnlocks | Train-service/kafka/consumer.go:108-162 | whatever settles a booking deletes the locks of its berths and no others |
| TrainAnswers.CancelAnswer | Train-service/service/booking_service.go:290-307 | accepted exactly for the owner of an active booking whose hours left an active policy covers; and what the others are answered |
| TrainAnswers.RefundRecorded | Train-service/service/booking_service.go:302-309 | the refund row holds the share, to half a paisa, that the covering policy of the greatest threshold names |
| TrainSafety.TrainExclusivity | Train-service/service/booking_service.go:119-234 | in every reachable state each berth belongs to at most one PENDING_PAYMENT or CONFIRMED booking and has exactly the status that booking implies |
| TrainSafety.TrainConservation | Train-service/repository/train_repo.go:133-153 | in every reachable state each available_* counter equals the AVAILABLE berths of its schedule and class |
| TrainSafety.StepKeepsSafe | Train-service/kafka/consumer.go:86-162 | every event keeps exclusivity; only failure and expiry of a settled booking are excluded |
| TrainSafety.StepKeepsConserved | Train-service/service/expiry_worker.go:45-68 | every event moves counters and berths together |
| TrainSafety.FailureKeepsInvariantIff | Train-service/kafka/consumer.go:144-162 | payment.failed keeps the invariants exactly when its booking is still PENDING_PAYMENT or CONFIRMED |
| TrainSafety.LateFailureBreaks | Train-service/kafka/consumer.go:151-158 | for a settled booking it frees somebody's berth or counts free berths twice |
| TrainSafety.CreateKeepsCountersIff | Train-service/service/booking_service.go:188-194 | an accepted request keeps the counters exactly when its seats belong to the requested schedule, which the code does not check |
| TrainLimits.LateFailureMiscounts | Train-service/kafka/consumer.go:144-162 | from empty tables: a schedule generated, a berth booked and cancelled, then payment.failed, and the counter ends above the free berths, whatever schedule, times and covering policies |
| TrainLimits.LateFailureFreesBerth | Train-service/kafka/consumer.go:144-162 | with the berth booked again before the failure arrives, that booking's berth ends AVAILABLE |
| TrainLimits.ForeignSeatMiscounts | Train-service/service/booking_service.go:119-134 | from empty tables: two schedules, and an accepted request for one naming a berth of the other leaves the other's counter above its free berths |
| TrainSafety.OverdueExactly | Train-service/repository/booking_repo.go:109-118 | the expiry query lists each overdue booking once, and only active ones |
| TrainSafety.StepOnlySettles | Train-service/kafka/consumer.go:93-96 | no step returns a booking to PENDING_PAYMENT |
| TrainSafety.CompletedOnce | Train-service/kafka/consumer.go:93-111 | adding or removing repeats of a payment.completed event after its first processing leaves the final state of the run unchanged |
| Refunds.ActivePolicyMonotone | bus-service/repository/booking_repo.go:192-207 | a wider window keeps the policy row or moves to a strictly higher threshold |
| Refunds.CancellationWindows | bus-service/service/booking_service.go:589-592 | the bus hours are positive exactly before departure; the train hours, cut towards zero, turn negative only an hour after it |
| Refunds.TrainPoliciesCover | Train-service/db/postgres.go:74-96 | the shipped train rows pay less and less, and cover a cancellation until exactly an hour after departure |
| Refunds.TrainRefundFalls | Train-service/service/booking_service.go:302-309 | with falling percentages the train refund never grows as departure nears, nor does a refused one come back |
| Refunds.ShippedTrainTariff | Train-service/db/postgres.go:74-96 | with the shipped rows, by the clock: 90% up to a week ahead, 50% up to two days, then nothing |
| TrainRefunds.RefundsBounded | Train-service/service/booking_service.go:309-343 | over every run a recorded refund is at most what its booking cost, and its booking is settled |
| TrainRefunds.RefundStands | Train-service/service/booking_service.go:298-300 | and it is written once: no later event changes the amount |
| TrainRefunds.WaitingNeverPays | Train-service/service/booking_service.go:302-309 | whatever events lie in between, cancelling later pays no more than cancelling now |
| Refunds.ComputeBusRefund | bus-service/service/booking_service.go:599-618 | the amount both bus paths compute, never above the total |
| Refunds.BusRefundBounded | bus-service/service/booking_service.go:605-618 | refund at most the total paid, for percentages up to 100 |
| Refunds.BusRefundFalls | bus-service/service/admin_service.go:428-456 | with falling percentages and fees that do not rise, the bus refund never grows as departure nears |
| Refunds.RisingFeeBreaksFall | bus-service/service/booking_service.go:607-614 | a fee that rises with the threshold makes the refund rise as departure nears |
| Refunds.ShippedPoliciesFall | bus-service/data/cancellation_policies.json:1-37 | the shipped policy rows meet both conditions |
| Refunds.PolicyFound | bus-service/repository/booking_repo.go:192-207 | a row is found exactly when an active one covers the time left, and it is active, covering and of the greatest such threshold |
| Refunds.PercentageIsShare | bus-service/service/booking_service.go:605-605 | the amount is within half a paisa of the named percentage of the total |
| Refunds.BusRefundTold | bus-service/service/booking_service.go:599-618 | the bus refund without the functions that compute it |
| Refunds.ShippedTariff | bus-service/data/cancellation_policies.json:1-37 | which shipped row applies at each number of hours left |
| Refunds.FlightRefundBounded | flight-service/services/booking_service.go:541-584 | flight refund between 0 and the total |
| Refunds.FlightRefundTold | flight-service/services/booking_service.go:551-583 | grace period, fare and tiers of the flight refund, to half a paisa |
| Refunds.FlightRefundFalls | flight-service/services/booking_service.go:556-583 | outside the two-hour grace period the flight refund never grows as departure nears, and leaving that period never raises it |
| BusBooking.BusService.CreateBooking | bus-service/service/booking_service.go:137-318 | checks in order, passenger loop, in-place dedup, claim and pending row, as one step; no seat row changes |
| BusBooking.BusService.QuotePassengers | bus-service/service/booking_service.go:206-266 | stops at the first passenger with an error, otherwise prices in half paise and collects the seats asked for |
| BusBooking.BusService.ConfirmBooking | bus-service/service/booking_service.go:450-493 | status and expiry guards, seats taken, own locks released, profit added |
| BusBooking.BusService.ProcessPaymentEvent | bus-service/service/booking_service.go:791-807 | the payment event has exactly the effect of a confirmation, settled bookings being skipped |
| BusBooking.BusService.CancelBooking | bus-service/service/booking_service.go:564-691 | user path: refund, seats freed, own locks dropped, profit taken back, row CANCELLED |
| BusBooking.BusService.CancelBookingByAdmin | bus-service/service/admin_service.go:410-530 | admin path: the same effect without the ownership check, locks released in the name of the booking's user |
| BusBooking.BusService.CleanupExpiredBookings | bus-service/jobs/booking_expiry_job.go:11-29 | exactly the pending rows past their window become EXPIRED |
| BusBooking.BusService.FinalizePrebookingAccounting | bus-service/jobs/accounting_job.go:13-46 | exactly the open accounts of buses departed today are closed with the clipped loss |
| BusAnswers.AllFitIff | bus-service/service/booking_service.go:195-266 | the passenger loop passes exactly when every passenger has a readable birth date and every named seat is an available seat of the bus and of the fare's type, WOMEN seats going only to women and MEN seats only to men |
| BusAnswers.UpperTold | bus-service/service/booking_service.go:219-219 | upper-casing moves small letters to their capitals and leaves everything else alone |
| BusAnswers.FirstWrong | bus-service/service/booking_service.go:204-247 | an error is about the first passenger who does not fit, and says what is wrong |
| BusAnswers.RequestedTold | bus-service/service/booking_service.go:233-233 | the seats asked for are those of the passengers who name one |
| BusAnswers.PriceTold | bus-service/service/booking_service.go:227-242 | who pays the fare, the extra charge, or half |
| BusAnswers.HalfPricesAdd | bus-service/service/booking_service.go:232-241 | prices add up passenger by passenger |
| BusAnswers.TotalTold | bus-service/service/booking_service.go:289-290 | 5% on top, exact to half a paisa |
| BusAnswers.AcceptedIff | bus-service/service/booking_service.go:159-318 | a request becomes a booking exactly when fare and points are of the bus, boarding before dropping, every passenger fits, no seat asked for is locked, and Redis and the database answer |
| BusAnswers.RefusedBecause | bus-service/service/booking_service.go:159-322 | what each error answer says about the request |
| BusAnswers.CreatedRow | bus-service/service/booking_service.go:297-318 | the one row an accepted request appends: its fields, total and window; no other row, seat or account changes |
| BusAnswers.CreatedLocks | bus-service/service/booking_service.go:282-287 | it locks the seats asked for until the configured time has passed, and leaves every other lock as it was |
| BusAnswers.RefusedWritesNothing | bus-service/service/booking_service.go:318-322 | a refused request leaves every table and every live lock as it was |
| BusAnswers.PayableInWindow | bus-service/jobs/booking_expiry_job.go:11-29 | a new booking is payable until its window ends, and swept by exactly the sweeps after it |
| BusAnswers.StatusMoves | bus-service/service/booking_service.go:450-478 | for every event and booking, exactly which events change the status and to what; a booking no event moves is untouched |
| BusAnswers.ConfirmAnswer | bus-service/service/booking_service.go:450-464 | what a confirmation is answered |
| BusAnswers.ConfirmWrites | bus-service/service/booking_service.go:466-493 | seat by seat, lock by lock and account by account what a confirmation leaves |
| BusAnswers.CancelAnswer | bus-service/service/booking_service.go:564-597 | what a cancellation is answered: the owner or an admin, an active booking, before departure |
| BusAnswers.CancelWrites | bus-service/service/booking_service.go:618-691 | seat by seat, lock by lock and account by account what a cancellation leaves |
| BusAnswers.RefundRecorded | bus-service/service/booking_service.go:589-618 | 0 for unpaid bookings, non-refundable fares and times no active policy covers; otherwise the share of the applying policy, to half a paisa, less its fee, never below 0 |
| BusAnswers.FinalizeTold | bus-service/jobs/accounting_job.go:17-38 | exactly the open accounts of buses that left today, by now, are closed with the loss they stand at; everything else is unchanged |
| BusAnswers.ClosedByTheEndOfDay | bus-service/jobs/accounting_job.go:17-38 | a run on the day a bus left, after it left, leaves its account closed, and if it was open with loss max(0, spend - profit) |
| SeatClaims.TakeKeepsSafeIff | bus-service/service/booking_service.go:285-297 | the protocol both services share: a payment keeps one holder per seat exactly when the booking's own locks still live or its seats are available and unlocked |
| SeatClaims.QuitKeepsSafeIff | bus-service/service/booking_service.go:624-631 | an owner-checked cancellation keeps it exactly when the booking still has its claim, or nobody took its seats and its user has not locked them again |
| SeatClaims.OpenKeepsSafe | bus-service/service/booking_service.go:204-297 | a claim on available, unlocked seats meets no other claim |
| BusSafety.BusExclusivity | bus-service/service/booking_service.go:204-318 | however late ExpiresAt is stamped: no run whose payments come that gap ahead of it, or find their seats free, reaches two CONFIRMED bookings with the same seat, although creation never changes is_available |
| BusSafety.StepKeepsSafe | bus-service/service/booking_service.go:450-478 | every event keeps the protocol invariant: a pending booking owns live locks until they lapse, a confirmed seat is unavailable, no seat has two claims |
| BusSafety.StepKeepsBacked | bus-service/service/booking_service.go:466-478 | and, without any demand on payments and cancellations, a live lock on a booked seat belongs to a pending booking and an unavailable booked seat to a confirmed one |
| BusSafety.CreateKeepsSafe | bus-service/service/booking_service.go:278-318 | a new booking takes only seats without any claim, however long stamping its window takes |
| BusSafety.ConfirmKeepsSafeIff | bus-service/service/booking_service.go:457-478 | an accepted confirmation keeps the invariant exactly when the booking's locks still live or its seats could be booked afresh; inside the stamp gap the check against ExpiresAt does not see this |
| BusSafety.CancelKeepsSafeIff | bus-service/service/booking_service.go:569-631 | an accepted cancellation, by user or admin, keeps the invariant exactly when the booking still has its claim, or its seats are available and not locked again by its user |
| BusSafety.ConfirmedOnce | bus-service/service/booking_service.go:791-807 | repeats of a payment event after the first that reached the booking leave the final state unchanged, a too late first one included |
| BusLimits.LateStampDoubleBooks | bus-service/service/booking_service.go:285-297 | however small the gap by which ExpiresAt is stamped late, a run with a payment in the gap confirms one seat twice |
| BusLimits.ExpiryCheckEnoughIff | bus-service/service/booking_service.go:282-297 | so the check against ExpiresAt alone keeps every run from double booking exactly when stamping takes no time |
| BusLimits.StaleCancelDoubleBooks | bus-service/service/booking_service.go:569-631 | a pending booking cancelled after its window frees a seat confirmed since, and a run confirms it twice |
| BusLedger.LedgerBalances | bus-service/repository/booking_repo.go:321-332 | over every run an account's profit is the sum of confirmed totals plus total minus refund of each booking cancelled after confirmation, every term is non-negative, and it is never below the confirmed total |
| BusLedger.SumCoversConfirmed | bus-service/service/booking_service.go:638-646 | no term is negative |
| BusLedger.StepKeepsBalance | bus-service/service/admin_service.go:479-492 | confirmations and both cancellation paths keep the books balanced |
| BusLedger.FrozenLossSound | bus-service/jobs/accounting_job.go:21-38 | once an account is closed, in every later state its loss covers max(0, spend - profit) |
| BusLedger.ClosedStaysClosed | bus-service/service/booking_service.go:583-592 | a closed account keeps its loss and terms, and its profit only grows |
| RateLimit.Gateway.IpLimit | api-gateway/middleware/ratelimit.go:12-38 | INCR, EXPIRE on 1, and the answer: on for the first 60, 429 beyond, 500 when Redis fails; other keys are untouched |
| RateLimit.Gateway.RateLimit | api-gateway/middleware/ratelimit.go:41-80 | the same per user with 500; without a user the answer is 500 |
| RateLimit.CounterIsPosition | api-gateway/middleware/ratelimit.go:17-28 | the stored counter is the request's position in its window and runs out a minute after the window's first request |
| RateLimit.DecisionIsAdmits | api-gateway/middleware/ratelimit.go:30-34 | in any mix of keys the decision on a request depends on the times of its own key only |
| RateLimit.PerWindow | api-gateway/middleware/ratelimit.go:26-34 | a window lets through exactly its first limit requests |
| RateLimit.AnyMinute | api-gateway/middleware/ratelimit.go:15-36 | any stretch of at most a minute lets through fewer than twice the limit |
| RateLimit.AnyMinuteTight | api-gateway/middleware/ratelimit.go:57-78 | that bound is reached |
| RateLimit.PublishedBounds | api-gateway/middleware/ratelimit.go:12-80 | so one address passes fewer than 120 times and one user fewer than 1000 times in any minute |
| RateLimit.RefusedOnlyWhenBusy | api-gateway/middleware/ratelimit.go:30-34 | a request is refused only if limit earlier ones of its key fell within the last minute |
| BusSeats.BuildSeats | bus-service/jobs/inventory_job.go:395-435 | the block loops with one running index give each block its seats in order |
| BusSeats.SeatNumberInjective | bus-service/jobs/inventory_job.go:445-494 | the seat number determines the index |
| BusSeats.MapSeats | bus-service/seed/seat_generator.go:96-207 | the nested loops with their counters, number set and closing duplicate check |
| BusSeats.BehaviourTold | bus-service/seed/seat_generator.go:53-110 | which column layouts and names sleep, recline or sit |
| BusSeats.SeedPositionTold | bus-service/seed/seat_generator.go:70-94 | where windows and aisles are for any column layout |
| BusSeats.SeatsPerLayout | bus-service/seed/seat_generator.go:99-168 | a seat for every row and column, two where one sleeps |
| BusSeats.LabelsAlikeIff | bus-service/seed/seat_generator.go:115-148 | two columns print alike exactly when both runes print as the replacement character |
| BusSeats.SleepersAgree | bus-service/seed/seat_generator.go:111-143 | sleeper: both generators give the same seats for every number of rows, berth and position included |
| BusSeats.SeatersAgreeIff | bus-service/seed/seat_generator.go:144-168 | seater and semi-sleeper with blocks 8, 8 and the rest: same number, type and category everywhere exactly from four rows on |
| BusSeats.PositionsAgreeIff | bus-service/seed/seat_generator.go:70-94 | positions agree everywhere except in columns B and D of seaters |
| BusSeats.SeatersHaveNoBerth | bus-service/jobs/inventory_job.go:446-448 | the seeder calls every seater seat a lower one, the inventory job gives it no berth |
| BusSeats.DuplicatesIff | bus-service/seed/seat_generator.go:203-207 | the duplicate check fires exactly on layouts so wide that column runes run into surrogates |
| BusInventory.ResolvePrebookingConfig | bus-service/jobs/inventory_job.go:101-130 | purchased seats never exceed a category, and sleepers have only GENERAL ones |
| BusInventory.ConfigTold | bus-service/jobs/inventory_job.go:101-130 | every total, purchased count and price by seat type and day, and their sums |
| BusInventory.FaresTold | bus-service/jobs/inventory_job.go:275-326 | the fares of a new bus: cost plus 30%, on sleepers a FLEXI fare 300 rupees dearer, with their fees and the purchased seats |
| BusInventory.ListingOfBlocks | bus-service/jobs/inventory_job.go:247-254 | a new instance has as many rows of a category as its blocks say |
| BusInventory.MarkedCounts | bus-service/jobs/inventory_job.go:259-273 | switching off what lies behind the first keepCount rows leaves that many available in the category whatever the order, and changes no other category or instance |
| BusInventory.InventoryJob.MarkAll | bus-service/seed/instance_seeder.go:413-474 | after all categories each has exactly its purchased seats available |
| BusInventory.InventoryJob.GenerateForDate | bus-service/jobs/inventory_job.go:136-326 | for both day types and all seat types the seats left available, category by category the purchased ones, add up to the instance counter, each fare's SeatsAvailable and the account's purchased seats; seats, fares and account are exactly the new rows, and earlier instances keep their agreement |
| Pricing.FirstMatchAt | bus-service/jobs/pricing_job.go:65-97 | the multiplier of a type is that of its first matching rule in priority order |
| Pricing.StaysOut | bus-service/jobs/pricing_job.go:70-94 | exactly when a rule of each type does not apply; a bound that is not positive is unset |
| Pricing.CollectMultipliers | bus-service/jobs/pricing_job.go:63-97 | the rule loop stores exactly the first match of each type |
| Pricing.MultiplyAll | bus-service/jobs/pricing_job.go:99-102 | the product loop gives the same value in whatever order the map is visited |
| Pricing.FinalMultiplier | bus-service/jobs/pricing_job.go:63-102 | the product of one factor per rule type |
| Pricing.ShippedFactors | bus-service/data/pricing_rules.json:1-74 | the factor of the shipped rules for every fill rate, time left and weekday |
| Pricing.ContextTold | bus-service/jobs/pricing_job.go:43-60 | hours left, ISO weekday and fill rate of an instance |
| Pricing.FaresTold | bus-service/jobs/pricing_job.go:113-136 | fare by fare what a pass writes: base price of the seat type times the multiplier, 300 more for FLEXI and SUPER FLEXI, nothing without a base price |
| Pricing.SearchPricesTold | bus-service/jobs/pricing_job.go:138-155 | search price by search price what a pass writes |
| Pricing.PricingJob.ApplyRulesToInstance | bus-service/jobs/pricing_job.go:42-151 | reprices the fares of one instance and its search prices, nothing else |
| Pricing.PricingJob.UpdatePricesBasedOnRules | bus-service/jobs/pricing_job.go:19-40 | every scheduled instance not yet departed is repriced, row by row |
| Pricing.RerunChangesNothing | bus-service/jobs/pricing_job.go:19-40 | a second pass on unchanged inputs changes nothing |
| Pricing.FlexiGap | bus-service/jobs/pricing_job.go:124-129 | FLEXI fares stay exactly 300 above the plain fare, which is the price the search shows |
| Pricing.ProductMonotoneIff | bus-service/jobs/pricing_job.go:63-102 | with falling thresholds and multipliers, and the other types' multipliers positive, the final multiplier never falls as a bus fills exactly when no demand rule that can match lowers the price |
| Pricing.FullerNeverCheaper | bus-service/jobs/pricing_job.go:104-151 | more seats booked never lower a fare or a search price the job writes |
| Pricing.ShippedRulesMonotone | bus-service/data/pricing_rules.json:1-74 | the shipped rules meet that condition, so their multiplier never falls as a bus fills |
| FlightBooking.ScanSucceedsIff | flight-service/services/booking_service.go:124-146 | the lock loop succeeds exactly when every seat asked for exists, is available, is locked by nobody and is asked for once, and Redis answers |
| FlightBooking.FlightService.CreateBooking | flight-service/services/booking_service.go:61-198 | checks, lock loop, pending row stamped some time after the locks were taken, as one step |
| FlightBooking.FlightService.LockPassengers | flight-service/services/booking_service.go:110-193 | the deferred release: on any failure, of a seat, of Redis or of the insert, the lock table is what it was |
| FlightBooking.FlightService.LockOne | flight-service/redis/redis_lock.go:13-33 | one seat lookup and lock: taken, held or claimed |
| FlightBooking.FlightService.ConfirmBooking | flight-service/services/booking_service.go:379-421 | pending becomes CONFIRMED, seats taken, counters lowered, locks of the seats deleted |
| FlightBooking.FlightService.ConfirmBookingAndSeats | flight-service/repository/booking_repository.go:82-119 | booking, seats and both counters of the booking's class in one transaction |
| FlightBooking.FlightService.CancelBooking | flight-service/services/booking_service.go:471-509 | owner and status checks, refund, seats and counters given back |
| FlightBooking.FlightService.CleanupExpiredBookings | flight-service/jobs/booking_expiry_job.go:11-29 | the row loop changes exactly the pending rows past their window, to EXPIRED, and leaves no pending row past its window |
| FlightAnswers.AcceptedIff | flight-service/services/booking_service.go:61-198 | a request becomes a booking exactly when instance and fare belong together, at most nine travel, every seat wanted is known, available, unlocked and wanted once, and Redis and the database answer |
| FlightAnswers.RefusedBecause | flight-service/services/booking_service.go:61-198 | what each error answer says about the request |
| FlightAnswers.ScanErrorTold | flight-service/services/booking_service.go:124-142 | the loop stops at the first passenger whose seat cannot be had, and says why |
| FlightAnswers.RequestedTold | flight-service/services/booking_service.go:128-146 | the seats wanted are those of passengers other than infants |
| FlightAnswers.StoredTold | flight-service/services/booking_service.go:124-163 | passengers are stored as they are, infants without a seat |
| FlightAnswers.TotalTold | flight-service/services/booking_service.go:89-108 | 18% tax on the fares, exact to half a paisa, 500 rupees service fee and the ancillaries |
| FlightAnswers.CreatedRow | flight-service/services/booking_service.go:166-194 | the one row an accepted request appends: its fields, total and window of ten minutes from the stamp |
| FlightAnswers.CreatedLocks | flight-service/services/booking_service.go:138-142 | it locks the seats wanted for ten minutes and leaves every other lock as it was |
| FlightAnswers.RefusedWritesNothing | flight-service/services/booking_service.go:114-122 | a refused request leaves every table and every live lock as it was |
| FlightAnswers.SweptAfterWindow | flight-service/jobs/booking_expiry_job.go:11-29 | a new booking is swept by exactly the sweeps after its ten minutes |
| FlightAnswers.StatusMoves | flight-service/services/booking_service.go:379-509 | for every event and booking, exactly which events change the status and to what; a booking no event moves is untouched |
| FlightAnswers.AnswersTold | flight-service/services/booking_service.go:472-483 | what payments and cancellations are answered |
| FlightAnswers.ConfirmWrites | flight-service/repository/booking_repository.go:82-119 | seat by seat, lock by lock and counter by counter what a payment leaves |
| FlightAnswers.CancelWrites | flight-service/services/booking_service.go:485-509 | seat by seat and counter by counter what a cancellation leaves |
| FlightAnswers.GraceRefund | flight-service/services/booking_service.go:551-559 | over the machine: paid and cancelled again within two hours, the whole total comes back, whatever the fare |
| FlightAnswers.LateRefund | flight-service/services/booking_service.go:561-583 | over the machine, later than that: 0 for a non-refundable fare, otherwise 60%, 25% or 0% by the time left, less the fee of each passenger, to half a paisa and never below 0 |
| FlightSafety.FlightConservation | flight-service/repository/booking_repository.go:45-118 | over every run, for each instance and class, available plus confirmed passengers is constant, and so is the quota counter |
| FlightSafety.StepKeepsLedger | flight-service/repository/booking_repository.go:101-115 | every event keeps both sums |
| FlightSafety.ConfirmedOnce | flight-service/services/booking_service.go:649-665 | repeats of a payment event after the first leave the final state unchanged |
| FlightExclusivity.ConfirmKeepsSafeIff | flight-service/services/booking_service.go:379-417 | an accepted payment keeps one holder per seat exactly when the booking's locks still live or its seats are available and unlocked; the code looks at neither |
| FlightExclusivity.StepKeepsBacked | flight-service/services/booking_service.go:379-410 | every event, late payments included, keeps locks and seat flags telling who has a claim |
| FlightExclusivity.FlightExclusive | flight-service/services/booking_service.go:124-198 | however late ExpiresAt is stamped: no run whose payments come that gap ahead of it, or find their seats free, confirms a seat twice |
| FlightExclusivity.LapsedHoldRebooked | flight-service/services/booking_service.go:138-167 | on any flight without bookings, any free seat: booked, booked again once its lock has lapsed, both paid, and confirmed twice; with a stamp gap even the first payment comes before its row says it expires |
| FlightSeats.GenerateSeats | flight-service/jobs/inventory_job.go:132-182 | the quota-bounded loops over both cabins give each class the first quota real seats of its cabin in row order |
| FlightSeats.QuotaMetIff | flight-service/jobs/inventory_job.go:135-182 | exactly the quota, just when the cabin has that many seats that are not aisles |
| FlightSeats.QuotaMet | flight-service/jobs/inventory_job.go:93-103 | 30% of real columns are enough for that |
| FlightSeats.QuotaTold | flight-service/jobs/inventory_job.go:93-103 | the quota is three tenths of the places, cut towards zero |
| FlightSeats.NumbersDistinct | flight-service/jobs/inventory_job.go:146-174 | all seat numbers of a flight are distinct, across both classes |
| FlightSeats.DigitColumnsClash | flight-service/jobs/inventory_job.go:174-174 | a column label that starts with a digit makes two seats share a number |
| FlightSeats.EconomyFollowsBusiness | flight-service/jobs/inventory_job.go:132-174 | economy starts in the row after the whole business section, or in row 1 if business has no quota |
| Routes.GroupPoints | bus-service/seed/instance_seeder.go:247-290 | each key collects its own records of both files in file order |
| Routes.OwnAdds | bus-service/seed/instance_seeder.go:247-290 | a file read in two parts gives the points of both, a record its own |
| Routes.Validate | bus-service/seed/instance_seeder.go:308-377 | the checks accept exactly the groups in strictly increasing order without overlap, repeated stops or foreign ends |
| Routes.AcceptedIff | bus-service/seed/instance_seeder.go:308-377 | exactly the groups that, boarding points first, rise strictly from origin to destination and name no stop twice |
| Routes.PassesAgree | bus-service/seed/instance_seeder.go:304-377 | the boarding and the dropping pass accept the same groups and see the same order, however their sorts break ties |
| Routes.SeedGroup | bus-service/seed/instance_seeder.go:304-405 | one pass over one group: skipped unchanged, or numbered from 1, respectively on from the last boarding point |
| Routes.RenumberedIff | bus-service/seed/instance_seeder.go:379-405 | created afresh, the points get consecutive numbers in their own order exactly when no two of them are the same stop row |
| Routes.SameStopTwice | bus-service/seed/instance_seeder.go:476-488 | two accepted points can be one stop row when one of them leaves out the city |
| Routes.GetRoute | bus-service/service/bus_service.go:150-180 | the merged list is what gets sorted |
| Routes.RouteInOrder | bus-service/service/bus_service.go:150-180 | in whatever order rows come back and however the sort treats ties, the route is boarding points then dropping points in their own order |
| Routes.ClonePoints | bus-service/jobs/inventory_job.go:331-358 | copies every row with its offset from departure |
| Routes.ChainKeepsRoute | bus-service/jobs/inventory_job.go:328-358 | however many days are cloned from one another, stop, sequence and offset from departure never drift |
| Routes.EveryPairBookable | bus-service/service/booking_service.go:186-188 | on every cloned day the points are numbered 1, 2, ... along the whole route, so every boarding point may be combined with every dropping point |

## Left out

- AnyMinute, PerWindow: the EXPIRE call is taken to succeed; a counter left without expiry is not modelled.
- NumbersDistinct: column labels are taken to differ and not to start with a digit; `DigitColumnsClash` shows the latter is needed.
- MapSeats: rows is a natural number and column numbers do not wrap around 32 bits; the check that a layout names one seat type (`bus-service/seed/seat_generator.go:31-51`) and the old-format branch (lower and upper berths) are left out, the latter because it never records seat numbers and its output is always rejected as duplicate.
- BusExclusivity, FlightExclusive, TrainExclusivity, TrainConservation: stated for runs that meet the named demand on events. Step by step the lemmas ending in Iff say exactly which events are harmful; for buses and flights the demand on a payment is the sufficient one a caller can check without knowing when a booking's locks lapse.
- LedgerBalances: policies pay back at most 100%, which the policy seeder enforces.
- RollbackSparesOthers: no lock of that seat expires while a call that has claimed it is still running or has won; `BatchDeletesForeignLock` shows why the train needs this, and the bus meets the per-command property without it (`PerSeatDeletesOwnOnly`).
- FullerNeverCheaper: the multipliers of the other rule types are not negative.
- FrozenLossSound: the departure a cancellation is measured against is no later than the one stored with the account; both are written from the same value when an instance is generated.
- BusRefundFalls: a fee may be anything on rows that pay 0%.
- FlightRefundFalls: nothing is said inside the two-hour grace period, where the whole amount is paid back.
- GenerateForDate: the boarding and dropping points it copies last are `ClonePoints` in `Routes.dfy`, apart from the other rows; ORDER BY is any rearrangement of the matching rows; arrival and departure strings are parsed elsewhere and arrive as optional times.
- RouteInOrder, PassesAgree: sort.Slice is any function that returns a sorted rearrangement.
- QuotePassengers: prices are kept in half paise so that the child discount is exact; the total is rounded to the paisa, halves up, where the database column does it.
- FinalizePrebookingAccounting: days begin at multiples of 24 hours; time zones are not modelled.
- ComputeBusRefund, Percentage: rounding is to the nearest paisa, halves up; binary floating-point rounding is not modelled.
- UpdatePricesBasedOnRules: prices are exact reals; rounding in the price columns is not modelled, and all instances are priced at one clock reading.
- CreateBooking (all three services): two requests whose checks both precede the other's claim are ordered as if one came after the other, and the locks of one request are taken at one instant.
- RefundsBounded: policies pay back at most 100%.
- SeatErrorTold: the query returns the berths in the order of the request.
- HandlePaymentCompleted: the row updates of the transaction succeed.
- HTTP handlers, routing, tokens, web sockets, e-mail, Stripe and gRPC calls, tickets and QR codes: input and output.
- The train HTTP payment callback repeats the event handlers without their status check; the event form is modelled.
- Admin overrides that rewrite state by hand (forced flight status, whole-instance cancellation, train inventory purchase, instance deletion): they do not keep the counters.
- Rerunning the flight inventory job on an existing instance: it resets the counters by design.
- The bus `available_*` changes on confirmation and cancellation: `availableColumn` matches upper-case seat types while bookings carry lower-case ones, so those updates are skipped.
- resolveStopTime and the station names copied into train bookings: they are shown to the user and change no table the properties speak of.
- PNRs, shadow keys, expiry notifications, search, live tracking, the chat bot: library behaviour or easy claims.
