# Verified model of the ticketing saga

This project models the booking saga of the ticketing platform and proves what its protocols keep: seat
holds in Postgres and Redis, the charge, the confirm transaction with its outbox, ticket generation, the
refund state machine with its recovery worker, the read cache, the gRPC wire codec and the rate limiter of
the API gateway. `dafny verify dfyconfig.toml` checks everything.

Services that update state are classes whose methods are proved equal to functions on the whole state;
protocols are state machines, and the main results hold in every state that any run reaches.

| module | subject |
|---|---|
| `SeatStore`, `HoldService`, `SeatLaws` | rows, holds, locks and cache of seat-inventory, the imperative services over them, and what each operation means seat by seat |
| `SeatInvariant`, `ReadModel`, `ExpirySweep` | the seat/hold/lock invariant with time, cache agreement and summaries, the expiry worker |
| `HoldRace`, `HoldAlone` | any number of concurrent hold, release and sale calls, one Redis or database step at a time; one call by itself |
| `Payments`, `PaymentRace` | charge and refund as whole calls, and concurrent charges step by step |
| `BookingSaga`, `BookingService`, `BookingOutcome` | creating a booking, the refund state machine, the orchestrator and recovery worker, and what a request comes to |
| `RefundResume`, `RefundAnswers`, `RefundCrash` | resuming an interrupted refund; what a cancellation answers; one refund with crashes and lost replies between any two steps |
| `MoneyLedger`, `LedgerWitnesses` | gateway takings against bookings, payments, refunds and outbox rows; runs that break their agreement |
| `Outbox`, `Delivery`, `Tickets` | the outbox worker and its drain bound, at-least-once delivery, the ticket service |
| `SalesModel`, `NoDoubleSale`, `DoubleSales` | inventory, bookings, delivery, refunds and sweeps together: no seat is sold twice, exactly under the assumptions, and runs where one fails |
| `SagaSteps` | the saga's operations as runs of the ledger and of the sales system |
| `Wire`, `WireLaws`, `RoundTrip`, `WireForm`, `Codec`, `Messages`, `EmbeddedMessages` | records, laws and imperative code of the protobuf codec |
| `RateLimiter` | the sliding window over a sorted set |

## Where the code does not do what one would expect

Each of these is proved for all inputs, with the exact condition under which the code does do it; where the
condition does not show by itself that it can fail, with an instance or a run in which it does. (The hold
protocol has assumptions instead, each with an interleaving that needs it.)

- `releaseSeats`, `markAsSold` and `relaseSoldSeats` overwrite a status without looking at it. They keep the
  seat invariant exactly when no requested seat is under somebody else's open hold (no seat is HELD, for the
  third).
- The hold protocol is exclusive under four assumptions: one call in flight per user, releases and sales by
  the holder, no lock expiring under the call that set it, none between the GET and the DEL of a release.
  Without any one of them there is an interleaving that breaks it.
- The expiry worker groups holds by `event:user`. A sweep is exact iff no two owners share a key; otherwise an
  expired hold stays behind. A release that throws is made up for by the next sweep, but for cached statuses
  that were not written after their commit.
- An absent status hash becomes a partial one at the first hold, and is then returned as if it were complete;
  a read is right iff the hash is absent or complete.
- What has to be assumed for no seat to be sold twice is exact, step by step, and for every assumption a run
  leads to a step that breaks the invariant where it fails:
  - anybody can ask for a release, of seats that are SOLD as well; it is safe iff nobody else holds one of them
    and no open booking has one, and otherwise the seats can be sold again to anybody;
  - `createBooking` lets the same user book the same held seats twice, and a hold that expires while its
    booking is being paid for is swept;
  - `seats.mark_sold` that is delivered after a refund released the seats is harmless iff they are all SOLD
    already; it can leave free seats SOLD to nobody, or take those of another user's order;
  - the seat release of a refund frees HELD seats when the user cancelled before `seats.mark_sold` was delivered,
    and when it is driven again it is harmless iff the seats are all AVAILABLE already;
  - a refused release is taken for done, and a release that commits and then throws leaves locks behind.
- A fault in the last refund transaction leaves a COMPLETED booking without its `booking.refunded` row if the
  catch can save it; if it cannot, the next drive makes it good. A refused seat release goes unnoticed, and
  matters iff the releases called until the refund is settled leave seats. Which schedules of troubles settle a
  refund, and which lose something, is decided from the state before the first tick, in closed form.
- A refund reply that is lost, or that neither the step nor the catch can save, ends in FAILED, although the
  money went back; so does a refund that the gateway accepted but that was not saved. Two refund calls of one
  booking that overlap on the server both reach the gateway.
- A crash of the payment service between the two saves of an accepted refund leaves the payment SUCCEEDED, and the
  refund of the booking is completed nevertheless.
- A payment key that already paid for something confirms the next booking that uses it for nothing, and a
  charge that the gateway accepted but that was not saved keeps the money of a booking that is cancelled.
- `booking.confirmed` delivered after a refund issues ACTIVE tickets iff there were none to cancel.
- `encode` leaves out a negative zero; the round trip is exact iff there is none.
- `decode` replaces a repeated embedded message where the Protocol Buffers Encoding guide ("Last One Wins")
  merges it. The two agree iff every field that the first record leaves set is a singular field that the second
  sets again; a payment whose id and booking come in two records loses its id.
- The reset time of the rate limiter is always a whole window away, because the oldest entry is read without
  its score. It is the right one iff the oldest request that counts was made at that very moment.

The repository's README says that a refund can fail in every state and is then retried; the code fails it
only in `refund_initiated`, never retries it then, and the model follows the code. It says the outbox worker
runs every 30 seconds (the code: 5), that a confirmed booking's effects are eventually processed (the code
gives an entry five attempts), and that a gateway interceptor adds a second layer of idempotency, which is not
part of the code.

## Model

| member | source | states |
|---|---|---|
| HoldService.SeatInventory.LockSeats | apps/seat-inventory-service/src/inventory/seat-lock.service.ts:13-65 | succeeds iff the ids are distinct and all unlocked; otherwise the lock map is as before and exactly the blocked or repeated positions are reported |
| HoldService.SeatInventory.SetKeys | apps/seat-inventory-service/src/inventory/seat-lock.service.ts:25-46 | SET NX in request order: which keys are set, for whom and until when, and which positions failed |
| HoldService.SeatInventory.ReleaseLocks | apps/seat-inventory-service/src/inventory/seat-lock.service.ts:67-92 | deletes exactly this user's locks among the requested ones and counts them |
| HoldService.NothingFailedIffLockable | apps/seat-inventory-service/src/inventory/seat-lock.service.ts:48-64 | no position fails iff the ids are distinct and unlocked |
| HoldService.LockKeysAreDistinct | apps/seat-inventory-service/src/inventory/seat-lock.service.ts:26 | lock keys of different seats differ when event ids have no ':' |
| HoldService.SeatInventory.HoldSeats | apps/seat-inventory-service/src/hold/hold.service.ts:25-114 | moves all seats, holds, locks and cached statuses, or leaves everything as before and names the seats at fault: the positions not locked, all seats not AVAILABLE, or the first one missing |
| HoldService.SeatInventory.HoldLocked | apps/seat-inventory-service/src/hold/hold.service.ts:52-101 | the transaction under the locks: all rows AVAILABLE, or nothing is written |
| HoldService.SeatInventory.ReleaseSeats | apps/seat-inventory-service/src/hold/hold.service.ts:116-167 | the new rows, holds, locks and cache after a release, and what is left when it throws before or after the commit |
| HoldService.SeatInventory.MarkAsSold | apps/seat-inventory-service/src/hold/hold.service.ts:176-229 | the new rows, holds, locks and cache after a sale |
| HoldService.SeatInventory.ReleaseSoldSeats | apps/seat-inventory-service/src/inventory/inventory.service.ts:89-109 | the new rows and cache after seats were released by a refund, and what is left when it throws before or after the save |
| HoldService.SeatInventory.CreateFromEvent | apps/seat-inventory-service/src/inventory/inventory.service.ts:19-51 | an event's rows are created once, all AVAILABLE; a second announcement changes nothing; a seat announced twice is an exception |
| SeatLaws.AnnouncedSeatsExist | apps/seat-inventory-service/src/inventory/inventory.service.ts:29-46 | the first announcement of an event creates one AVAILABLE row per seat with the announced section and price, no other row, and changes none |
| SeatLaws.OtherAnnouncementsDoNothing | apps/seat-inventory-service/src/inventory/inventory.service.ts:22-27 | an announcement does nothing iff the event has rows, a seat is announced twice or no seat is announced |
| SeatLaws.BookedAtAnnouncedPrices | apps/booking-service/src/booking/booking-orchestrator.service.ts:63-111 | seats of an announced event that are held can be booked by their holder, and the total is the sum of the announced prices |
| SeatLaws.HoldDoes | apps/seat-inventory-service/src/hold/hold.service.ts:25-114 | the rows, hold rows, locks and cached statuses after a hold, seat by seat, with ten minutes for holds and locks |
| SeatLaws.HoldSucceedsIff | apps/seat-inventory-service/src/hold/hold.service.ts:31-70 | a hold changes something iff its seats are distinct, unlocked and AVAILABLE |
| SeatLaws.VerifiedForTenMinutes | apps/seat-inventory-service/src/inventory/seat-lock.service.ts:9 | a hold is verified for its user, and nobody else, until exactly 600 seconds have passed |
| SeatLaws.HoldsExpireAfterTenMinutes | apps/seat-inventory-service/src/hold/hold.service.ts:15 | a hold expires exactly when more than 600 seconds have passed since it was stamped |
| HoldService.SeatInventory.FindBySeatIds | apps/seat-inventory-service/src/inventory/inventory.service.ts:63-70 | exactly the requested seats that have rows, once each |
| HoldService.SeatInventory.VerifyHold | apps/seat-inventory-service/src/inventory/inventory.grpc-controller.ts:44-57 | true iff every seat has a live lock of this user |
| HoldService.SeatInventory.UpdateMultipleSeatsStatus | apps/seat-inventory-service/src/cqrs/availability-read.service.ts:31-43 | the requested fields get the status, whether or not the hash or the seat exists |
| HoldService.SeatInventory.RebuildCache | apps/seat-inventory-service/src/cqrs/availability-read.service.ts:127-166 | both hashes of an event become a copy of its rows |
| HoldService.SeatInventory.GetEventSeatsWithStatus | apps/seat-inventory-service/src/cqrs/availability-read.service.ts:45-63 | every field of the hash once, after a rebuild if the hash was absent |
| HoldService.SeatInventory.GetEventAvailabilitySummary | apps/seat-inventory-service/src/cqrs/availability-read.service.ts:70-113 | the summary of exactly the seats that were read |
| SeatInvariant.HoldKeepsInv | apps/seat-inventory-service/src/hold/hold.service.ts:25-114 | a hold keeps: HELD iff exactly one open hold, live locks belong to it and do not outlive it |
| SeatInvariant.ReleaseKeepsInvIff | apps/seat-inventory-service/src/hold/hold.service.ts:143-158 | a release keeps the invariant iff no requested seat is under another user's open hold |
| SeatInvariant.MarkAsSoldKeepsInvIff | apps/seat-inventory-service/src/hold/hold.service.ts:191-218 | a sale keeps the invariant iff no requested seat is under another user's open hold |
| SeatInvariant.ReleaseSoldKeepsInvIff | apps/seat-inventory-service/src/inventory/inventory.service.ts:92-104 | releasing sold seats keeps the invariant iff none of them is HELD |
| SeatInvariant.ReleaseUpToKeepsInvIff | apps/seat-inventory-service/src/hold/hold.service.ts:143-158 | a release that throws on its way keeps the invariant iff it is rolled back, or nobody else holds a seat and no lock is left behind |
| SeatInvariant.ReleaseByStranger | apps/seat-inventory-service/src/hold/hold.service.ts:143-146 | a concrete release that breaks the invariant |
| SeatInvariant.SaleToStranger | apps/seat-inventory-service/src/hold/hold.service.ts:191-193 | a concrete sale that breaks the invariant |
| SeatInvariant.ReleaseOfHeldSeat | apps/seat-inventory-service/src/inventory/inventory.service.ts:92-96 | a concrete release of sold seats that breaks the invariant |
| SeatInvariant.StepKeepsInvIff | apps/seat-inventory-service/src/hold/hold.service.ts:25-229 | every operation and the clock keep the invariant exactly when their guard holds |
| SeatInvariant.RunKeepsInv | apps/seat-inventory-service/src/hold/hold.service.ts:25-229 | the invariant holds after every run of guarded operations and clock ticks |
| SeatInvariant.VerifiedMeansHeld | apps/seat-inventory-service/src/inventory/inventory.grpc-controller.ts:44-57 | in every reachable state a verified seat is HELD under an unexpired open hold of that user |
| ReadModel.OverwriteKeepsAgreementIff | apps/seat-inventory-service/src/cqrs/availability-read.service.ts:31-43 | a status write keeps cache and rows in agreement iff all requested seats are in the inventory |
| ReadModel.StepKeepsAgreementIff | apps/seat-inventory-service/src/hold/hold.service.ts:91-97 | every operation keeps the agreement exactly when its seats are in the inventory |
| ReadModel.RunKeepsReadModel | apps/seat-inventory-service/src/cqrs/availability-read.service.ts:31-166 | over every run of operations and reads the cache agrees with the database, and complete hashes of all events stay complete |
| ReadModel.OnceBuiltReadsAreRight | apps/seat-inventory-service/src/cqrs/availability-read.service.ts:45-63 | once a rebuild or a read built an event's hashes, every later read of it returns what the database then holds |
| ReadModel.ReadEqualsDatabaseIff | apps/seat-inventory-service/src/cqrs/availability-read.service.ts:45-63 | a read returns what the database holds iff the hash is absent or complete |
| ReadModel.FreshEventReadsWrongAfterHold | apps/seat-inventory-service/src/cqrs/availability-read.service.ts:45-63 | the first hold on a fresh event leaves a partial hash that reads wrong |
| ReadModel.Summarize | apps/seat-inventory-service/src/cqrs/availability-read.service.ts:73-112 | one line per section name with its counts; the lines' totals add up to the seats |
| ReadModel.SectionLines | apps/seat-inventory-service/src/cqrs/availability-read.service.ts:73-112 | every section of a seat that was read has a line, with the numbers of its seats by status and the price of its first seat; any other line is "Unknown" |
| ReadModel.SummaryAccountsForAllSeats | apps/seat-inventory-service/src/cqrs/availability-read.service.ts:70-113 | available + held + sold is the event's seat count and the sum of the sections |
| ExpirySweep.GroupAllPartitions | apps/seat-inventory-service/src/hold/hold-expiry.worker.ts:38-47 | the map partitions the expired holds: each is in the one group that carries its key |
| ExpirySweep.ColonFreeKeys | apps/seat-inventory-service/src/hold/hold-expiry.worker.ts:41 | keys of different owners differ when event ids have no ':' |
| ExpirySweep.KeysWithColonCollide | apps/seat-inventory-service/src/hold/hold-expiry.worker.ts:41 | with a ':' in an event id two owners can have one key |
| ExpirySweep.SweepExactIff | apps/seat-inventory-service/src/hold/hold-expiry.worker.ts:27-71 | a sweep closes exactly the expired holds and frees exactly their seats iff no two owners share a key |
| ExpirySweep.CollisionLeavesExpiredHold | apps/seat-inventory-service/src/hold/hold-expiry.worker.ts:49-64 | when two owners share a key, every sweep leaves an expired hold as it was |
| ExpirySweep.SweepIsExact | apps/seat-inventory-service/src/hold/hold-expiry.worker.ts:27-71 | with colon-free event ids a sweep is exact, keeps the invariant and leaves no expired open hold |
| ExpirySweep.SweepUpToExact | apps/seat-inventory-service/src/hold/hold-expiry.worker.ts:49-71 | when releases throw at any point, each group is released as a whole or left, apart from cached statuses |
| ExpirySweep.NextSweepCompletes | apps/seat-inventory-service/src/hold/hold-expiry.worker.ts:26-71 | after a tick in which releases threw, the invariant holds and the next sweep leaves rows, holds and locks as if nothing had been thrown |
| ExpirySweep.HoldExpiryWorker.ProcessExpiredHolds | apps/seat-inventory-service/src/hold/hold-expiry.worker.ts:20-75 | one tick is one sweep, in which any release may throw and is skipped, or nothing while another is running |
| HoldRace.EventKeepsInv | apps/seat-inventory-service/src/hold/hold.service.ts:31-114 | every single step of every call, every crash and every exception that leads to the unlock in the catch keeps the locks and database facts the other calls rely on |
| HoldRace.HoldsAreExclusive | apps/seat-inventory-service/src/hold/hold.service.ts:31-114 | in every interleaving no two calls are past locking on one seat, no two open holds share a seat, and a commit moves each seat from AVAILABLE to HELD |
| HoldAlone.HoldSucceeds | apps/seat-inventory-service/src/hold/hold.service.ts:31-101 | a hold of free AVAILABLE seats that nothing interrupts leaves them HELD with one open hold and one lock of the user each, and nothing else changed |
| HoldAlone.HoldRefused | apps/seat-inventory-service/src/inventory/seat-lock.service.ts:48-64 | one that finds a lock or names a seat twice leaves everything as it was |
| HoldAlone.HoldNotAvailable | apps/seat-inventory-service/src/hold/hold.service.ts:55-114 | one that finds a seat not AVAILABLE, or not there, gives its locks back and leaves everything as it was |
| HoldAlone.ReleaseOrSale | apps/seat-inventory-service/src/hold/hold.service.ts:116-229 | a release or sale writes the status on its seats, closes the user's open holds and deletes the user's locks on them, and changes nothing else |
| HoldRace.EarlyExpiryOverlaps | apps/seat-inventory-service/src/inventory/seat-lock.service.ts:33-39 | a lock that expires under its call lets a second hold through |
| HoldRace.ExpiryBeforeDelOverlaps | apps/seat-inventory-service/src/inventory/seat-lock.service.ts:74-89 | a lock that expires between GET and DEL: the DEL removes another call's lock |
| HoldRace.TwoCallsOfOneUserOverlap | apps/seat-inventory-service/src/inventory/seat-lock.service.ts:74-89 | a release still running deletes the lock of the same user's new hold |
| HoldRace.StrangersReleaseDoublesHold | apps/seat-inventory-service/src/hold/hold.service.ts:126-148 | a release by somebody who holds nothing leads to two open holds on one seat |
| Payments.PaymentService.InitiatePayment | apps/payment-service/src/payment/payment.service.ts:32-135 | one charge call: an existing row unchanged, or one new row that ends SUCCEEDED or FAILED with the money moved accordingly, or FAILED with the money taken when the save throws |
| Payments.PaymentService.RefundByBooking | apps/payment-service/src/payment/refund.service.ts:33-130 | one refund call: payment before key, row before gateway, both statuses on success, FAILED when anything after the insert throws |
| Payments.PaymentService.RefundPayment | apps/payment-service/src/payment/payment.grpc-controller.ts:74-99 | success iff the returned row is PROCESSED and nothing was thrown |
| Payments.ChargeIsIdempotent | apps/payment-service/src/payment/payment.service.ts:33-42 | repeating a charge that returned a row changes nothing and returns the same row |
| Payments.LostReplyEndsInFailure | apps/payment-service/src/payment/refund.service.ts:38-57 | after a processed refund a second call under the same key reports failure |
| PaymentRace.EventKeepsInv | apps/payment-service/src/payment/payment.service.ts:33-112 | every find, unique insert, charge and save of every concurrent call keeps the invariant: calls, rows and what the gateway answered agree |
| PaymentRace.ChargedAtMostOnce | apps/payment-service/src/payment/payment.service.ts:33-75 | in every interleaving each key reaches the gateway at most once and all calls that return for it return one row |
| PaymentRace.PaymentsAreTheirCalls | apps/payment-service/src/payment/payment.service.ts:44-112 | in every interleaving a payment keeps booking, key and amount of its call; it is SUCCEEDED iff that call returned and the gateway accepted, and after the return FAILED iff it declined |
| PaymentRace.SettledPaymentsStay | apps/payment-service/src/payment/payment.service.ts:33-135 | a payment whose call is over never changes again |
| PaymentRace.AloneIsCharge | apps/payment-service/src/payment/payment.service.ts:32-135 | a call that nothing interrupts ends in the rows, the answer and the money of the service's whole call |
| BookingService.LengthTestIff | apps/booking-service/src/booking/booking-orchestrator.service.ts:63-73 | the length test passes iff the requested seats are distinct and all in the inventory |
| BookingService.TotalIsSumOfItems | apps/booking-service/src/booking/booking-orchestrator.service.ts:97-100 | the total, in inventory order, is the sum of the item prices, in request order |
| BookingService.Orchestrator.CreateBooking | apps/booking-service/src/booking/booking-orchestrator.service.ts:56-204 | the whole new state of all services; a refusal happens iff a check fails, in their order, writes nothing and names exactly the seats at fault; otherwise the reply is about the new booking, and it is the booking iff the payment succeeded and the confirmation committed, or the payment did not succeed and the cancellation went through |
| BookingOutcome.CreateBookingDoes | apps/booking-service/src/booking/booking-orchestrator.service.ts:56-204 | what an accepted request leaves: the order at the seats' prices, its status, outbox rows, payment row, takings and seats, read off the request and the stores before it |
| BookingOutcome.RepliedBookingIsSettled | apps/booking-service/src/booking/booking-orchestrator.service.ts:113-204 | a caller who gets the booking finds it CONFIRMED with its two outbox rows, or CANCELLED after a payment that did not succeed |
| BookingService.Orchestrator.PersistBooking | apps/booking-service/src/booking/booking-orchestrator.service.ts:359-422 | a PENDING booking with one item per requested seat, in request order, at the seat's price; nothing when the transaction is rolled back |
| BookingService.Orchestrator.ConfirmBookingWithOutbox | apps/booking-service/src/booking/booking-orchestrator.service.ts:451-526 | CONFIRMED with its two outbox rows, or nothing, whichever statement throws |
| BookingService.Orchestrator.PayAndSettle | apps/booking-service/src/booking/booking-orchestrator.service.ts:113-198 | charge, then confirm, or cancel and release, or cancel on an exception, with every save failing or not and the seat release getting as far as it may, answered or not; which of them the caller sees |
| BookingService.Orchestrator.CancelBooking | apps/booking-service/src/booking/booking-orchestrator.service.ts:206-241 | which error for whom; otherwise the first key is fixed and the machine driven, with its exception passed on |
| RefundAnswers.CancelAnswers | apps/booking-service/src/booking/booking-orchestrator.service.ts:233-354 | a cancellation returns iff the refund is COMPLETED and no retry was counted; the first key stays and the order is not touched, whatever strikes |
| RefundAnswers.FirstCancel | apps/booking-service/src/booking/booking-orchestrator.service.ts:233-333 | a first cancellation that nothing strikes returns iff the refund call succeeds, with the booking REFUNDED, and otherwise leaves it FAILED |
| BookingService.Orchestrator.Step | apps/booking-service/src/booking/booking-orchestrator.service.ts:252-353 | one iteration of the refund loop, its saves, its catch and the save in the catch included |
| BookingService.Orchestrator.ProcessRefundStateMachine | apps/booking-service/src/booking/booking-orchestrator.service.ts:243-357 | the loop is the iterated step; it throws or leaves a COMPLETED refund, so the bound of five is never the reason it stops |
| BookingService.RefundRecoveryWorker.RecoverStuckRefunds | apps/booking-service/src/booking/refund-recovery.worker.ts:26-71 | one tick drives exactly the unfinished bookings with budget, in order, or nothing while a tick is running |
| BookingService.TickSettlesOrCounts | apps/booking-service/src/booking/refund-recovery.worker.ts:45-67 | a tick settles each stuck booking with fewer than five retries or costs it exactly one retry, unless the save in the catch fails |
| BookingService.TickLeavesSpent | apps/booking-service/src/booking/refund-recovery.worker.ts:46-51 | a tick leaves a booking that is not stuck, or has five retries, as it was |
| RefundResume.ThreeStepsSuffice | apps/booking-service/src/booking/booking-orchestrator.service.ts:245-247 | three or more iterations do what three do, whatever strikes |
| RefundResume.UninterruptedRun | apps/booking-service/src/booking/booking-orchestrator.service.ts:254-333 | what the fault-free run leaves in booking, payment, seats, tickets and outbox, on success and on failure |
| RefundResume.DriveReaches | apps/booking-service/src/booking/booking-orchestrator.service.ts:243-357 | from any progress, one drive leaves exactly the state of the next progress: refund state, retries, call, seats, tickets and outbox row |
| RefundResume.RecoverReaches | apps/booking-service/src/booking/refund-recovery.worker.ts:26-71 | after any schedule of troubles the whole state is that of the plan |
| RefundResume.CommitFaultIsFinalIff | apps/booking-service/src/booking/booking-orchestrator.service.ts:286-352 | a fault in the last transaction leaves what the fault-free run leaves iff the refund is still initiated and its call does not succeed |
| RefundResume.RefusedReleaseIsFinalIff | apps/booking-service/src/booking/booking-orchestrator.service.ts:274-284 | a seat release that is refused or stops short leaves what the fault-free drive leaves iff it is not called or does all there is to do |
| RefundResume.RecoverIsFinalIff | apps/booking-service/src/booking/refund-recovery.worker.ts:26-71 | over any schedule of troubles: a settled refund equals the fault-free drive iff it FAILED where its call does not succeed, or is COMPLETED with its outbox row and its seats released |
| RefundResume.PaidRefundSettlesIff | apps/booking-service/src/booking/refund-recovery.worker.ts:26-71 | in closed form: the first drive that is not interrupted settles the refund if the budget lasts; it loses something iff its rolled back transaction is covered up by the catch, or the releases called until then left seats |
| RefundResume.UnpaidRefundFails | apps/booking-service/src/booking/booking-orchestrator.service.ts:254-272 | a refund whose call fails, or succeeds without being saved by step or catch, is never completed; FAILED is where the fault-free drive leads iff the call did not succeed |
| RefundResume.OnePaymentIsNotRefundedAgain | apps/payment-service/src/payment/refund.service.ts:38-57 | a booking's only payment is not refunded by a repeated call, so that a reply nobody heard is lost |
| RefundResume.RefundIsResumable | apps/booking-service/src/booking/refund-recovery.worker.ts:26-71 | whatever strikes before a call takes effect or where it is made good, a settled refund equals the fault-free drive up to the retry count, and an unsettled one has spent its five retries |
| RefundCrash.RefundEffects | apps/booking-service/src/booking/booking-orchestrator.service.ts:233-354 | with crashes and lost replies anywhere: at most one gateway refund, a refund row PROCESSED only if the gateway accepted; past initiated exactly one refund row, PROCESSED under the booking's key; later states only after the replies they need; loop bound never exhausted |
| RefundCrash.PersistedStateFollowsEdges | apps/booking-service/src/booking/booking-orchestrator.service.ts:252-354 | the persisted state follows initiated, refunded, released, completed, or initiated, failed; the key never changes |
| RefundCrash.AcceptedRefundCompletes | apps/booking-service/src/booking/booking-orchestrator.service.ts:252-333 | a refund that the gateway accepts and nothing interrupts ends COMPLETED, with the payment REFUNDED, one PROCESSED refund row and no retry |
| RefundCrash.DeclinedRefundFails | apps/booking-service/src/booking/booking-orchestrator.service.ts:264-272 | one that the gateway declines ends FAILED with one retry counted |
| RefundCrash.PaymentCanStaySucceeded | apps/payment-service/src/payment/refund.service.ts:75-118 | a crash between the two saves of an accepted refund: the refund completes and the payment is still SUCCEEDED |
| RefundCrash.OverlappingCallsRefundTwice | apps/payment-service/src/payment/entities/refund.entity.ts:19 | two calls that overlap on the server both reach the gateway |
| MoneyLedger.StepKeepsInv | apps/booking-service/src/booking/booking-orchestrator.service.ts:113-163 | placing, paying, settling, abandoning, cancelling and refunding keep bookings, payments, refunds, outbox and takings in agreement |
| MoneyLedger.NetTakingsAgree | apps/booking-service/src/booking/booking-orchestrator.service.ts:113-163 | takings are the totals of CONFIRMED bookings not past initiated or failed, plus confirms that were lost, plus charges in flight or abandoned |
| SagaSteps.CreateBookingIsLedgerRun | apps/booking-service/src/booking/booking-orchestrator.service.ts:102-163 | a createBooking call that nothing interrupts is a run of three ledger steps |
| MoneyLedger.LaterRefundStatesArePaid | apps/payment-service/src/payment/refund.service.ts:33-118 | a refund state past initiated means a REFUNDED payment and exactly one refund row, PROCESSED, for the whole amount |
| MoneyLedger.ConfirmedIffOutboxRows | apps/booking-service/src/booking/booking-orchestrator.service.ts:451-526 | exactly the CONFIRMED and REFUNDED bookings have one row of each outbox kind |
| MoneyLedger.ChargeKeepsAgreementIff | apps/payment-service/src/payment/payment.service.ts:33-112 | a charge keeps the agreement iff its key has not paid for something before and an accepted charge is saved (or the total is zero) |
| MoneyLedger.RefundKeepsAgreementIff | apps/payment-service/src/payment/refund.service.ts:75-130 | a refund call keeps the agreement iff an accepted refund is saved by the payment service and heard of by the booking (or the total is zero) |
| LedgerWitnesses.UnsavedChargeIsKept | apps/payment-service/src/payment/payment.service.ts:77-135 | a run to a booking whose accepted charge is not saved: the takings disagree |
| LedgerWitnesses.ReusedKeyIsNotCharged | apps/payment-service/src/payment/payment.service.ts:33-42 | a run to a second booking under a paid key, which goes on to be confirmed and is not charged |
| LedgerWitnesses.UnsavedRefundIsLost | apps/payment-service/src/payment/refund.service.ts:75-130 | a run to a cancelled booking whose accepted refund is not saved, or not heard of: the takings disagree |
| Outbox.OutboxWorker.ProcessOutbox | apps/booking-service/src/booking/outbox.worker.ts:33-74 | one poll: the first ten pending entries end COMPLETED, PENDING again or FAILED, all others are untouched |
| Outbox.OutboxWorker.FindPending | apps/booking-service/src/booking/outbox.worker.ts:34-38 | exactly the pending entries with fewer than ten pending before them: ten of them, or all |
| Outbox.PollKeepsOk | apps/booking-service/src/booking/outbox.worker.ts:46-72 | FAILED means exactly five unsuccessful runs, COMPLETED a last run that succeeded after fewer than five others |
| Outbox.RowsTellTheirRuns | apps/booking-service/src/booking/outbox.worker.ts:46-72 | after any polls an entry's handler has run as often as it was in the batch, with these answers; COMPLETED iff the last was a success, FAILED iff five failed, and PENDING otherwise |
| Outbox.PollSpends | apps/booking-service/src/booking/outbox.worker.ts:34-72 | a poll uses up at least one remaining attempt per entry in the batch |
| Outbox.DrainBound | apps/booking-service/src/booking/outbox.worker.ts:33-74 | floor(P/10)+5 polls finish every entry, whatever the handlers do |
| Delivery.OutboxHandlers.ProcessEntry | apps/booking-service/src/booking/outbox.worker.ts:76-132 | what the handler of each event type writes, when it throws before its effect, after it, or not at all |
| Delivery.DeliveriesSell | apps/seat-inventory-service/src/hold/hold.service.ts:185-218 | the seat stores after any deliveries depend only on the set of sales |
| Delivery.DeliveriesIssue | apps/booking-service/src/ticket/ticket.service.ts:25-83 | after any deliveries a booking has the tickets it had, or else one per item if its confirmation was among them |
| Delivery.AtLeastOnceIsExactlyOnce | apps/booking-service/src/booking/outbox.worker.ts:93-121 | delivering in any order, any positive number of times, leaves the same seats, holds, locks, cache and tickets as delivering once |
| Delivery.AttemptsAreExactlyOnce | apps/booking-service/src/booking/outbox.worker.ts:46-72 | the same for handler runs that throw before or after their effect, when every entry had one run that took effect |
| Delivery.LateConfirmationIssuesIff | apps/booking-service/src/ticket/ticket.service.ts:25-43 | a confirmation delivered after a refund leaves ACTIVE tickets iff there were none to cancel |
| Tickets.TicketService.GenerateTicket | apps/booking-service/src/ticket/ticket.service.ts:25-83 | existing tickets are kept; otherwise one ACTIVE ticket per item under fresh ids |
| Tickets.TicketService.CancelByBooking | apps/booking-service/src/ticket/ticket.service.ts:121-133 | exactly the ACTIVE tickets of the booking become CANCELLED |
| Tickets.TicketService.CheckIn | apps/booking-service/src/ticket/ticket.service.ts:97-119 | the reply and the tickets afterwards: not found, already used or cancelled with nothing changed, or success, which uses the ticket up |
| Tickets.CheckInReplies | apps/booking-service/src/ticket/ticket.service.ts:97-119 | the status of the ticket decides the reply: a used or cancelled one is refused and stays, any other is used up, and no other ticket changes |
| Tickets.OpensOnce | apps/booking-service/src/ticket/ticket.service.ts:25-119 | over every run: the first check-in of a generated ticket whose booking was not cancelled succeeds, and every later one finds it used |
| Tickets.CancelledNeverOpens | apps/booking-service/src/ticket/ticket.service.ts:97-133 | over every run: a ticket that was cancelled before is never checked in |
| Tickets.CheckedInAtMostOnce | apps/booking-service/src/ticket/ticket.service.ts:25-133 | over every sequence of generations, cancellations and check-ins ids and items stay unique, and a ticket was checked in once if it is used and never otherwise |
| Tickets.UsedAndCancelledAreFinal | apps/booking-service/src/ticket/ticket.service.ts:97-133 | no sequence of operations changes a used or cancelled ticket |
| NoDoubleSale.StepKeepsSafeIff | apps/booking-service/src/booking/booking-orchestrator.service.ts:83-136 | every step that the code lets through, by anybody and at any time, keeps the invariant iff what is assumed of it holds |
| NoDoubleSale.NoSeatIsSoldTwice | apps/booking-service/src/booking/outbox.worker.ts:93-109 | in every run CONFIRMED bookings whose seats were not released share no seat; their seats are HELD by their user until delivery and SOLD afterwards; no other seat is SOLD |
| SagaSteps.CreateBookingIsSalesRun | apps/booking-service/src/booking/booking-orchestrator.service.ts:102-163 | a createBooking call is a run of two steps of the sales system, to the same bookings and seats |
| SagaSteps.DriveIsSalesRun | apps/booking-service/src/booking/booking-orchestrator.service.ts:243-357 | every drive of the refund machine, whatever strikes, is a run of refund steps of the sales system |
| NoDoubleSale.ReleaseSafeIff | apps/seat-inventory-service/src/hold/hold.service.ts:116-158 | a release by anybody is safe iff nobody else holds one of the seats and no open booking has one |
| NoDoubleSale.SellSafeIff | apps/seat-inventory-service/src/hold/hold.service.ts:176-218 | marking seats as sold, outside a delivery in time, is safe iff they all are SOLD already |
| NoDoubleSale.ReleaseSoldSafeIff | apps/seat-inventory-service/src/inventory/inventory.service.ts:89-104 | releasing seats as sold, outside a refund, is safe iff they all are AVAILABLE already |
| NoDoubleSale.SweepSafeIff | apps/seat-inventory-service/src/hold/hold-expiry.worker.ts:27-71 | a sweep is safe iff no expired hold is of a booking under way |
| NoDoubleSale.OrderSafeIff | apps/booking-service/src/booking/booking-orchestrator.service.ts:63-111 | an order that passes the checks is safe iff the user has no booking of one of the seats under way |
| NoDoubleSale.ConcludeSafeIff | apps/booking-service/src/booking/booking-orchestrator.service.ts:113-198 | the end of a createBooking call is safe iff its seat release does not commit and leave locks behind |
| NoDoubleSale.DeliverySafeIff | apps/booking-service/src/booking/outbox.worker.ts:93-109 | a delivery, at any time after the confirmation, is safe iff the booking is open or its seats are SOLD already |
| NoDoubleSale.RefundReleaseSafeIff | apps/booking-service/src/booking/booking-orchestrator.service.ts:274-284 | the seat release of a refund, once or again, complete or not, is safe iff the sale was delivered and it is not refused, or there is nothing left to release |
| DoubleSales.GivenUpSeatsAreResold | apps/seat-inventory-service/src/hold/hold.service.ts:116-158 | seats of a CONFIRMED booking given up by its user before delivery, or by anybody after it, can always be held, ordered and paid by any user |
| DoubleSales.OrderedTwice | apps/booking-service/src/booking/booking-orchestrator.service.ts:75-95 | after an order the same user passes every check again for the same seats |
| DoubleSales.OrderCanBeRepeated | apps/booking-service/src/booking/booking-orchestrator.service.ts:63-111 | a run leads to held seats that were ordered and can be ordered again |
| DoubleSales.ResoldSeatsCanBeTaken | apps/booking-service/src/booking/booking-orchestrator.service.ts:274-284 | a run leads to a refund whose seat release was not saved and a delivered booking of the same seats, which the release, driven again, takes |
| DoubleSales.FreedSeatsCanBeStranded | apps/booking-service/src/booking/outbox.worker.ts:93-109 | a run leads to a refunded booking whose late delivery leaves its seats SOLD to nobody |
| DoubleSales.ResoldSeatsCanBeMarkedSold | apps/booking-service/src/booking/outbox.worker.ts:93-109 | a run leads to a refunded booking and another user's unpaid order of the same seats, which a late delivery makes SOLD |
| DoubleSales.CancelledBeforeDelivery | apps/booking-service/src/booking/booking-orchestrator.service.ts:206-241 | a run leads to a booking cancelled and paid back before its sale was delivered, whose seat release frees seats under an open hold |
| DoubleSales.SoldSeatsCanBeReleased | apps/seat-inventory-service/src/hold/hold.controller.ts:28-39 | a run leads to SOLD seats that anybody can release, either way |
| DoubleSales.FreeSeatsCanBeSold | apps/seat-inventory-service/src/inventory/inventory.grpc-controller.ts:110-126 | wherever seats can be held they can be marked as sold to nobody |
| DoubleSales.OneSeatCanBeHeld | apps/seat-inventory-service/src/inventory/inventory.service.ts:19-51 | a concrete start for these runs: an event with one seat |
| DoubleSales.HoldCanExpire | apps/seat-inventory-service/src/hold/hold-expiry.worker.ts:27-71 | a run leads to a booking under way whose hold has expired, so that a sweep breaks the invariant |
| DoubleSales.LocksCanBeLeft | apps/seat-inventory-service/src/hold/hold.service.ts:148-161 | a run leads to an unpaid booking whose release can commit and leave its locks behind |
| DoubleSales.ReleaseCanBeRefused | apps/booking-service/src/booking/booking-orchestrator.service.ts:274-284 | a run leads to a refund that goes on although its seat release was refused, with its seats SOLD to nobody |
| Codec.BinaryWriter.Uint32 | libs/grpc/src/generated/seat-inventory.ts:116 | appends the varint of a tag or length |
| Codec.BinaryReader.ReadVarint | libs/grpc/src/generated/seat-inventory.ts:162 | reads what the varint specification says, or throws |
| Codec.BinaryReader.DoSkip | libs/grpc/src/generated/payment.ts:164-167 | skips a record of any wire type, groups up to their end tag, or throws |
| Codec.EncodeMessage | libs/grpc/src/generated/payment.ts:74-97 | appends exactly the records of the message, defaults left out |
| Codec.EncodeNested | libs/grpc/src/generated/payment.ts:336-341 | an embedded message is its tag, its length and its encoding |
| Codec.DecodeField | libs/grpc/src/generated/seat-inventory.ts:539-577 | one case of the switch: singular fields are assigned, repeated ones extended, messages decoded in place |
| Codec.DecodeNested | libs/grpc/src/generated/payment.ts:343-366 | an embedded message is its length and a decode of that many bytes on the same reader |
| Codec.DecodeMessage | libs/grpc/src/generated/payment.ts:99-169 | the loop terminates and is the specified decoding, from any position and with any length |
| WireLaws.VarintRoundTrip | libs/grpc/src/generated/seat-inventory.ts:162 | a varint is read back, with the position behind it |
| WireForm.EncodedVarintIff | libs/grpc/src/generated/seat-inventory.ts:116 | the varint of a number is the one shortest sequence of seven-bit groups, low bits first, with its value |
| WireLaws.DecodeFolds | libs/grpc/src/generated/seat-inventory.ts:157-279 | the loop folds a sequence of well-formed records into the message it starts from |
| WireLaws.DecodeConcatenation | libs/grpc/src/generated/seat-inventory.ts:113-350 | decoding a concatenation applies the second part's records to what the first decodes to |
| WireLaws.ForeignRecordsAreIgnored | libs/grpc/src/generated/seat-inventory.ts:574-578 | unknown numbers, wrong wire types and groups change nothing, at every level of nesting |
| WireLaws.UnknownFieldTolerance | libs/grpc/src/generated/payment.ts:99-169 | encodings that differ only in foreign records decode alike |
| WireForm.TruncatedDecodesIff | libs/grpc/src/generated/payment.ts:99-169 | a prefix of an encoding is decoded iff it ends where a record of the outermost message ends, and then as the records up to there |
| WireForm.StrayTag | libs/grpc/src/generated/payment.ts:164-167 | behind the records of a message a zero tag or an end of group ends the message, and wire types six and seven throw |
| WireForm.RecordsInForm | libs/grpc/src/generated/payment.ts:74-97 | the records of a message come in field order, at most one per singular field, and there are some for a field iff it is set |
| WireForm.EmptyEncodingIff | libs/grpc/src/generated/payment.ts:74-97 | a message is encoded as nothing iff none of its fields is set |
| WireForm.VerifyHoldBytes | libs/grpc/src/generated/seat-inventory.ts:357-368 | the bytes of a concrete request, with an empty string among the repeated ones |
| RoundTrip.DecodeOfEncode | libs/grpc/src/generated/payment.ts:73-170 | decoding an encoding gives the message with negative zeros made positive |
| RoundTrip.RoundTripIff | libs/grpc/src/generated/payment.ts:80-83 | the round trip is exact iff no double in the message is a negative zero |
| Messages.GeneratedTags | libs/grpc/src/generated/seat-inventory.ts:114-847 | the tags computed from the field kinds are the literals of the generated code, for every message type |
| Messages.ExactRoundTrip | libs/grpc/src/generated/seat-inventory.ts:113-350 | messages of every type without doubles are decoded exactly |
| Messages.TypesWithoutDoubles | libs/grpc/src/generated/seat-inventory.ts:113-847 | these are all message types but the payment request |
| Messages.PaymentRequestRoundTripIff | libs/grpc/src/generated/payment.ts:73-170 | a payment request is decoded exactly unless its amount is a negative zero |
| EmbeddedMessages.LastEmbeddedMessageReplaces | libs/grpc/src/generated/payment.ts:343-366 | of repeated records of an embedded message only the last counts |
| EmbeddedMessages.MergeIsSecondIff | libs/grpc/src/generated/payment.ts:343-366 | merging two parts of a message gives the second alone iff every field the first leaves set is singular and set again by the second |
| EmbeddedMessages.SplitDecodesMergedIff | libs/grpc/src/generated/payment.ts:343-366 | a message sent in two records decodes as its merge under exactly that condition |
| EmbeddedMessages.SplitPaymentLosesItsId | libs/grpc/src/generated/payment.ts:343-366 | a payment sent in two records loses the id that only the first has |
| RateLimiter.RateLimitInterceptor.Intercept | apps/api-gateway/src/rate-limit/rate-limit.interceptor.ts:51-86 | the reply and the new sorted set; a refusal's reset time is a whole window away |
| RateLimiter.SameDecisions | apps/api-gateway/src/rate-limit/rate-limit.interceptor.ts:51-86 | after any run the trimmed, expiring set decides like a limiter that keeps every request |
| RateLimiter.WindowHoldsAtMostMax | apps/api-gateway/src/rate-limit/rate-limit.interceptor.ts:54-85 | every half-open interval as long as the window contains at most max accepted requests |
| RateLimiter.RemainingIsRight | apps/api-gateway/src/rate-limit/rate-limit.interceptor.ts:54-86 | after any run, an announced number n of remaining requests means that n more at the same time are accepted and the next is refused |
| RateLimiter.RemainingIsRest | apps/api-gateway/src/rate-limit/rate-limit.interceptor.ts:54-61 | the number is the maximum less the accepted requests in the window that ends now |
| RateLimiter.EmptyWindowNeverRefuses | apps/api-gateway/src/rate-limit/rate-limit.interceptor.ts:51-86 | with a window of zero length and a positive maximum every request is accepted, with the maximum less one announced |
| RateLimiter.AcceptsAgainIff | apps/api-gateway/src/rate-limit/rate-limit.interceptor.ts:54-70 | after any run, a refusal has exactly max requests in the window, and the limiter accepts again exactly from when the oldest of them leaves it |
| RateLimiter.ResetTimeIsRightIff | apps/api-gateway/src/rate-limit/rate-limit.interceptor.ts:63-70 | the announced reset time is the moment from which it accepts again iff the oldest request that counts came at the time of the refusal |
| RateLimiter.NoMaximumRefusesForever | apps/api-gateway/src/rate-limit/rate-limit.interceptor.ts:61-70 | without a positive maximum every request is refused, and no announced time is right |
| RateLimiter.ResetTimeTooLate | apps/api-gateway/src/rate-limit/rate-limit.interceptor.ts:63-70 | a concrete refusal that announces a time five milliseconds too late |

## Left out

- Gateway proxying, authentication, notifications, event and venue services: no protocol state.
- Provider SDKs: the gateway is an arbitrary answer (accepted, declined, threw, accepted but not saved) with a ledger of the takings; a call of the gateway itself that throws moves no money.
- Amounts are integer cents; the parsing and rounding of decimal strings is not modelled.
- Session ids, attendee data, currencies, QR codes, generated numbers and codes, and timestamps other than lock and hold expiry.
- Kafka emission, including the `booking.cancelled` and `payment.*` events: nothing is claimed about delivery.
- Failure of a single Redis command or query inside a whole-operation seat method: `HoldRace` has crashes and exceptions between steps; of the whole operations `ReleaseSeats` and `ReleaseSoldSeats` may throw at each stage, the others run to their end or to the errors the code itself throws.
- The cache between the steps of one operation: agreement is stated at operation boundaries, where the code updates the cache after lock and commit.
- Redis lock keys are pairs of event and seat; `LockKeysAreDistinct` says when the key strings are as good.
- HoldRace names seats and users by integers, because it only compares them.
- RefundCrash and `RefundEffects`: a refund call is not sent while an earlier one for the same booking is still executed on the server; `OverlappingCallsRefundTwice` shows that one driver at a time alone is not enough.
- Two drivers of one booking at a time (a user's cancel and the recovery worker) are assumed not to overlap in RefundResume and MoneyLedger.
- Outbox entries left in PROCESSING by a crash, and overlapping polls: one worker that does not crash is assumed; entries created with the same timestamp are taken in table order.
- NoSeatIsSoldTwice and StepKeepsSafeIff: the checks and the insert of an order are one step, at the time of the checks; no other step reads the row of a booking that is not settled. Two overlapping orders of one user are what `OrderedTwice` shows for two in a row.
- StepKeepsSafeIff: event ids contain no ':' when a sweep runs, and requests to the inventory and deliveries run to their end; the releases of an unpaid booking and of a refund may stop on their way.
- NetTakingsAgree and StepKeepsInv: the payment service saves what the gateway answered, and the step or the catch saves the outcome of a refund call; `ChargeKeepsAgreementIff` and `RefundKeepsAgreementIff` say what it costs when it does not.
- RateLimiter: requests of one key are handled one at a time and the random part of a member is unique; the branch that lets a request through when Redis fails keeps no count and is not modelled.
- Codec: UTF-8 validity of strings is not checked; the reader and writer library, `@bufbuild/protobuf`, which is not part of the repository, is modelled from the Protocol Buffers Encoding guide ("Base 128 Varints", "Message Structure", "Length-Delimited Records").
- EncodeMessage: lengths below 2^32 and eight-byte doubles are required, as the writer demands.
- GeneratedTags: the three answers that consist of one `success` flag share the constant `SUCCESS_RESPONSE`.
