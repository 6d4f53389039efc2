# Hotel booking platform: a verified model

A Dafny model of the rules that move rooms, guests and money through the booking platform: admission
and the booking lifecycle, payment capture and the double-entry ledger, payout batches, refunds and
disputes, one-time passwords, login sessions, property onboarding, and the anomaly sweep. Run
`dafny verify dfyconfig.toml` to check everything.

## How it is built

- **Data** are datatypes and maps: a table is a `map` from id to row, time is integer milliseconds, money
  is integer paise, percentages are exact hundredths of a percent, `Math.round` is the nearest integer
  with halves going up (section 21.3.2.28 of ECMA-262, ES2022).
- **Operations** that change rows are methods of classes (`BookingsService`, `PaymentsService`,
  `PayoutsService`, `LedgerService`, `DisputesService`, `PropertiesService`, `OtpService`,
  `UsersRepository`, `AuthService`, `AnomaliesService`), with the branches and loops of the code, each
  proved equal to a function of the old state.
- **Protocols** are deterministic machines over a sequence of actions; an action that is not enabled
  changes nothing. Theorems quantify over every sequence, so over every interleaving.
  `Lifecycle` splits each booking operation into the read that evaluates its guards and the later
  compare-and-set; `Disputes`, `PaymentProtocol`, `PayoutProtocol` and `OnboardingProtocol` separate every
  read of their services from every later write; `Otp` takes the Lua scripts and the MULTI as the only atomic units;
  `Sessions` separates reading a session, sending a rotation and its commit.
- **Guards** are parameters of the protocols: tests the code could make and does not. With all of them off a
  protocol is the code; the theorems say which guard each property needs, exactly.

| file | what it holds |
|---|---|
| `common.dfy`, `money.dfy`, `booking.dfy` | results, sums, finite sets; pricing and rounding; the booking row, guards and patches |
| `lifecycle.dfy`, `commits.dfy` | the status protocol under stale reads; what each winning commit does |
| `room_holding.dfy` | which bookings hold a room |
| `allocator.dfy`, `overbooking_alarm.dfy` | counting against concrete rooms; search; the overbooking rule |
| `bookings_service.dfy` | booking and admin operations, the three sweeps |
| `payments_service.dfy`, `payments_protocol.dfy` | payment operations; paying under interleaving |
| `ledger.dfy`, `payouts.dfy`, `payout_batches.dfy`, `payout_invariants.dfy`, `conservation.dfy` | the money chain |
| `payout_shares.dfy`, `payouts_service.dfy` | what a batch pays for each booking; payout operations |
| `payouts_protocol.dfy` | payouts under interleaving, next to bookings and captures |
| `disputes.dfy`, `dispute_steps.dfy`, `filings.dfy`, `refund_writes.dfy` | disputes under interleaving and on their own, their number per booking, what is left of their refunds |
| `refunds.dfy`, `disputes_service.dfy` | whole dispute operations and what a booking gives back |
| `otp.dfy`, `otp_calls.dfy`, `otp_codes.dfy` | one-time passwords: the key commands, whole calls, which guesses are right |
| `sessions.dfy`, `auth_service.dfy` | refresh tokens and session binding |
| `properties.dfy`, `onboarding.dfy`, `properties_service.dfy` | onboarding operations |
| `onboarding_protocol.dfy`, `onboarding_guards.dfy` | onboarding and moderation under interleaving |
| `anomalies.dfy`, `anomaly_races.dfy` | the anomaly sweep; sweeps that overlap |

## Where the code falls short of the property

Each of these has a concrete run in the model and the exact condition under which the property holds.

- *Check-out never before check-in.* `forceCheckout` decides on a clock reading taken after a read it does
  not test, so a slow one can complete a booking that was checked in later. The order holds in every run
  if and only if it refuses rows it reads as pending or confirmed (`Lifecycle.CheckOutOrderExact`).
- *No overbooking.* `extend` checks and then writes, so a booking admitted in between takes the same room
  (`Allocator.StaleExtendOverbooks`). An extension keeps every instant within the room count if and only
  if at every instant of the added time the other guests leave a room (`Allocator.ExtendExact`); no moment
  of a run is overbooked if and only if every extension it commits meets that at its commit
  (`Allocator.NeverOverbooked`). Guests keep their rooms if and only if the guest's own room is free for
  the added time (`Allocator.ExtendKeepsSeatsExact`, `Allocator.HousingContinues`).
- *An approved property is bookable.* `submit` and `revise` write the status first and replace the rooms in
  a second transaction, which fails when two counted rooms share a category. An approval in between, or
  one after such a failure, approves a property with no room (`OnboardingGuards.ApprovedInTheGap`,
  `OnboardingGuards.ApprovedWithoutRooms`). An approved property is bookable at every moment of a run if and
  only if every approval written finds rooms priced for the policy and every replacement written on an
  approved property is clean (`OnboardingProtocol.ApprovalsExact`). For whatever has been submitted and
  settled to be bookable as well, no approval may be written while rooms are still to be replaced (unless
  those there are priced) and the replacements that settle a submission must be clean too, exactly
  (`OnboardingProtocol.GuaranteeExact`).
- *Moderation decisions are final; a property under review is frozen; at most four reviews.* Moderation,
  submission and saving a step all read and later write without a test. Decisions are final in every run if
  and only if moderation writes test that the review is still open and submission writes the status they
  read (`OnboardingGuards.DecidedForGood`); the file under review stays as it is if and only if saved steps
  test that it is editable and submission writes the status (`OnboardingGuards.FrozenExact`); there are at
  most four reviews if and only if submission writes test the status and revision requests the revision
  count they read (`OnboardingGuards.ReviewRounds`).
- *An expired session never rotates.* The expiry test carries the client's clock reading, so a rotation can
  commit as late as its delay after it. If the test asked for a margin of validity left, the property would
  hold if and only if no commit is later than that margin; the code's margin is zero
  (`Sessions.NoLateRotationExact`).
- *One dispute per booking.* Filing looks for an earlier dispute and inserts later. No history gives a
  booking two disputes if and only if the insert is guarded by a unique key on the booking
  (`Filings.UniqueExact`); the table has none, and `Filings.TwoDisputes` is the run. Each of the two still
  has at most one effect (`Disputes.AtMostOneEffect`).
- *Every refund decided on is kept.* Each dispute has exactly the effect it decided on
  (`Disputes.EffectsComplete`), but a booking's refund is one number that every writer sets: an admin's and
  a dispute's to a sum over an earlier reading, a cancellation's and a void's outright. A refund written in
  between is overwritten (`RefundWrites.RefundLost`), and so is one that a cancellation finds, with nothing
  interleaved at all (`RefundWrites.RefundCancelledAway`). Every booking of every history shows all the
  refunds written to it if and only if each was written over the refund its writer went by, which for a
  cancellation or a void means that there was none (`RefundWrites.RefundsSurvive`).
- *The owners' account is never overdrawn.* A batch keeps the amounts of a booking that another batch has
  linked since it was read, and holding and releasing write without testing the status they read; either way
  an owner can be paid twice (`PayoutProtocol.CountedTwice`, `PayoutProtocol.ReleasedTwice`). In every
  history the account is what captures brought in less what released items paid out, and never negative, if
  and only if such a batch is refused and the status is tested (`PayoutProtocol.OwnerSafeExact`).
- *A captured payment stays captured.* The mark on a payment whose signature was refused does not test that
  it was captured meanwhile (`PaymentProtocol.LateFailure`). Every payment charged stays marked captured, in
  every history, if and only if it does (`PaymentProtocol.MarkedExact`).
- *The overbooking anomaly means overbooking.* The rule compares bookings pairwise without the room count;
  it never reports a legally seated house if and only if the room type has at most one room
  (`OverbookingAlarm.AlarmExact`).
- *One unresolved anomaly per rule and entity.* A sweep looks for one and inserts later. Overlapping sweeps
  never leave two, in any history, if and only if a unique key guards the insert
  (`AnomalyRaces.OneUnresolvedExact`); the table has none, and `AnomalyRaces.ReportedTwice` is the run.
- *A booking gives back at most its total.* A run of whole operations keeps to that at every moment if and
  only if each resolution and each auto-close refunds no more than what is left of the total, which admin
  refunds test and disputes do not (`Refunds.WithinTotalExact`); otherwise it may reach twice the total, for
  every price (`Refunds.RefundBound`, `Refunds.TwiceTheTotal`).

## Model

| member | source | states |
|---|---|---|
| Money.Round | src/modules/platform/platform-config.service.ts:39-41 | the nearest integer to n/d, halves going up: commission, GST and TDS are all within half a paisa of the exact percentage |
| Money.PriceShape | src/modules/bookings/bookings.service.ts:120-128 | the base is the hourly rate times the hours or the full-day rate; GST is 18 % and the commission its percentage of it, each to half a paisa; the guest pays base plus GST, never the commission on top |
| Money.SplitExact | src/modules/payouts/payouts.service.ts:46-56 | every paisa of the base is commission, refund taken from the owner, TDS or net, once; TDS and net are never negative |
| Money.RoundingDrift | src/modules/payouts/payouts.service.ts:54-56 | summed per-booking rounding differs from the exact percentage of the sum by at most half a paisa per booking |
| Money.DriftIsTight | src/modules/payouts/payouts.service.ts:54-56 | two bookings reach that bound, so it cannot be lowered |
| Booking.UpdateIfStatus | src/modules/bookings/bookings.repository.ts:114-125 | the conditional update wins exactly when the row is in one of the expected statuses; it then patches that row and no other, and a losing one changes nothing |
| Booking.CancellationTiers | src/modules/bookings/bookings.service.ts:29-37 | everything back exactly with two hours' notice (24 for a full-day stay), otherwise nothing (half, rounded down), and never more for cancelling later |
| Booking.BookedAsAsked | src/modules/bookings/bookings.service.ts:95-154 | a new booking is for the guest, property, arrival and kind asked for, for exactly the hours asked for (24 for a full day), at its rate times those hours plus 18 % GST; it awaits payment and nothing else has happened to it |
| Booking.OnlyItsGuest | src/modules/bookings/bookings.service.ts:257-266 | to anyone but its guest a booking does not exist for paying, checking in, checking out or cancelling |
| Booking.SweepSettles | src/modules/bookings/bookings.repository.ts:192-208 | a scheduled sweep leaves nothing due: repeated at the same instant it changes nothing |
| Lifecycle.LifecyclePath | src/modules/bookings/bookings.repository.ts:114-125 | under every interleaving of stale-read operations a booking's committed statuses are one path of the lifecycle graph, at most three changes, none twice, none out of a terminal status |
| Lifecycle.TrailsGrow | src/modules/bookings/bookings.repository.ts:114-125 | no run rewrites a status once committed |
| Lifecycle.EventsAtMostOnce | src/modules/bookings/bookings.service.ts:257-441 | each lifecycle event is emitted at most once per booking, and each of the six exactly when the booking went through its status |
| Lifecycle.EvidenceAlways | src/modules/bookings/bookings.service.ts:276-441 | in every reachable state: confirmed has a QR code; checked in or completed has a consumed one and an arrival within 15 minutes before to 30 minutes after; no-show was marked more than 30 minutes late; completed exactly when a check-out is recorded; cancelled by the system only when unpaid for over 30 minutes; voided means refunded in full; amounts add up and the recorded hours are the length of the stay |
| Lifecycle.CommitStep | src/modules/bookings/bookings.repository.ts:114-125 | whatever stale row it was planned from, a winning commit moves the current row along one legal edge and keeps its evidence and amounts consistent |
| Lifecycle.RowsEvolve | src/modules/bookings/bookings.repository.ts:106-125 | every step of every request keeps a booking's room type, property, owner, guest, booked arrival, price, recorded check-in and check-out, and terminal status |
| Lifecycle.CaptureStep | src/modules/bookings/payments.service.ts:147-159 | a winning capture finds the booking never before confirmed and its price as captured when read |
| Lifecycle.CheckOutOrderExact | src/modules/bookings/admin/admin-bookings.service.ts:328-337 | check-out never precedes check-in in any run if and only if force-checkout refuses rows it reads as pending or confirmed (it does not) |
| Lifecycle.LateForceCheckout | src/modules/bookings/admin/admin-bookings.service.ts:328-337 | the failing run: a force-checkout that read before the guest arrived |
| Lifecycle.CodeBreaksOrder | src/modules/bookings/admin/admin-bookings.service.ts:328-337 | the code, which tests no status there, has such a run |
| Commits.CommitsAreExact | src/modules/bookings/bookings.service.ts:257-441 | in every run a commit that wins finds its booking as the operation demands, however stale its read, and changes it by exactly the fields and amounts of the operation: a check-in presents the code the booking holds and uses it up, a cancellation gives back the tier of the current price, a void all of it |
| RoomHolding.HoldsWhileMovable | src/modules/bookings/bookings.repository.ts:6-10 | a booking holds a room exactly while some change of status is still open to it: pending, confirmed or checked in |
| RoomHolding.EdgesAreTaken | src/modules/bookings/bookings.repository.ts:114-125 | the lifecycle graph has an edge exactly for each change of status that some operation makes |
| RoomHolding.OverlappingExact | src/modules/bookings/bookings.repository.ts:89-96 | the bookings counted for an interval are those of the room type that can still change status and share an instant with it |
| RoomHolding.CountedInRuns | src/modules/bookings/bookings.repository.ts:89-96 | in every run a booking is counted exactly while pending, confirmed or checked in, for every interval its stay meets |
| RoomHolding.EndedNeverCounts | src/modules/bookings/bookings.repository.ts:89-96 | once completed, cancelled, a no-show or voided, a booking is counted against nothing in any later run |
| RoomHolding.RoomComesBack | src/modules/bookings/bookings.repository.ts:80-104 | after a commit that ends a booking a new one is admitted exactly when the others leave it a room |
| RoomHolding.RoomStillHeld | src/modules/bookings/bookings.repository.ts:80-104 | until then the booking takes one room from every request for its room type and time |
| Allocator.CountingIsExact | src/modules/bookings/bookings.repository.ts:80-104 | fewer overlapping active bookings than rooms if and only if every legal seating of the guests leaves some room free for the whole stay |
| Allocator.RoomLeft | src/modules/bookings/bookings.repository.ts:89-99 | when the count admits, every legal seating has a room free throughout the stay |
| Allocator.BlockEveryRoom | src/modules/bookings/bookings.repository.ts:89-99 | when the count refuses, some legal seating blocks every room at some point of the stay |
| Allocator.SeatableExact | src/modules/bookings/bookings.repository.ts:80-104 | concrete rooms can be handed out to all active bookings of a room type if and only if at no instant there are more of them than rooms |
| Allocator.RoomsAlwaysAssigned | src/modules/bookings/bookings.repository.ts:80-104 | in every run whose extensions still pass their overlap check when they commit, concrete rooms can be handed out at every moment, stays sharing a room disjoint |
| Allocator.HousingContinues | src/modules/bookings/admin/admin-bookings.service.ts:377-394 | whatever rooms have been handed out in a run, one more step can be housed with nobody moved if and only if an extension it commits finds the guest's own room free |
| Allocator.NobodyMoves | src/modules/bookings/bookings.repository.ts:80-104 | the assignment of any earlier moment is contained in every later one: no guest is moved |
| Allocator.NeverOverbooked | src/modules/bookings/bookings.repository.ts:80-104 | no instant of any room type is overbooked at any moment of a run if and only if every extension it commits finds, at its commit, the other guests leaving a room throughout the added time |
| Allocator.ExtendExact | src/modules/bookings/admin/admin-bookings.service.ts:377-394 | a lengthened stay keeps every instant within the room count if and only if at each instant of the added time the other guests leave a room |
| Allocator.ExtendKeepsSeatsExact | src/modules/bookings/admin/admin-bookings.service.ts:377-394 | a lengthened stay keeps a given seating if and only if the guest's own room is free for the added time |
| Allocator.ExtendKeepsSeats | src/modules/bookings/admin/admin-bookings.service.ts:377-394 | an extension whose overlap check still holds keeps the seating without moving anyone |
| Allocator.StaleExtendOverbooks | src/modules/bookings/admin/admin-bookings.service.ts:377-394 | an extension that checks and then writes can promise the only room twice |
| Allocator.SearchAgrees | src/modules/properties/properties.repository.ts:144-157 | in every run the search shows a property for an interval if and only if admission would take it for one of its room types; and, in every state that is not overbooked, if and only if one of them has a room free under every legal seating |
| OverbookingAlarm.AlarmExact | src/modules/bookings/admin/anomalies.repository.ts:231-253 | the pairwise overbooking rule reports only real double bookings if and only if the room type has at most one room |
| OverbookingAlarm.AlarmComplete | src/modules/bookings/admin/anomalies.repository.ts:231-253 | of two bookings holding one room type at one instant one is always reported |
| BookingServices.QuoteExact | src/modules/bookings/bookings.service.ts:69-128 | for a property approved in a run with safe approvals a booking is refused only for the request's own faults (a kind not sold, too few hours, an arrival more than ten minutes ago or ninety days ahead, too many guests), never for a missing policy or price; whatever is quoted is for at least one hour and priced above zero |
| BookingServices.QuoteTerms | src/modules/bookings/bookings.service.ts:69-128 | what is quoted is for the guest, category, kind and arrival of the request, the hours asked for or else the least the property takes (three by default), at the room's own rate for that kind and the property's owner |
| BookingServices.RoomTypesApart | src/modules/bookings/bookings.service.ts:75-78 | bookings of two categories or of two properties never share a room type |
| BookingServices.BookingsRepository.CreateWithOverlapCheck | src/modules/bookings/bookings.repository.ts:80-104 | inserts exactly when fewer bookings of the room type that are pending, confirmed or checked in overlap the stay than there are rooms, otherwise changes nothing |
| BookingServices.BookingsRepository.HasOverlappingBooking | src/modules/bookings/bookings.repository.ts:50-66 | true exactly when there is another booking of the room type, pending, confirmed or checked in, that shares an instant with the interval |
| BookingServices.BookingsRepository.UpdateRow | src/modules/bookings/bookings.repository.ts:114-125 | is the compare-and-set and returns the row as written |
| BookingServices.BookingsRepository.FindDue | src/modules/bookings/bookings.repository.ts:192-208 | lists each due row once: in the sweep's status and past its deadline |
| BookingServices.BookingsService.CreateBooking | src/modules/bookings/bookings.service.ts:69-181 | answers exactly as quoted and counted: not found, bad request, conflict when as many pending, confirmed or checked-in bookings overlap as there are rooms, else the priced pending row |
| BookingServices.BookingsService.AssertBookingTypeAllowed | src/modules/bookings/bookings.service.ts:443-451 | allowed exactly when a policy is set and sells the requested kind |
| BookingServices.BookingsService.CheckIn | src/modules/bookings/bookings.service.ts:257-303 | lets in exactly the guest of a confirmed booking who shows its code from 15 minutes before to 30 minutes after the booked arrival, uses the code up, stamps the arrival and emits the event; otherwise changes nothing |
| BookingServices.BookingsService.CheckOut | src/modules/bookings/bookings.service.ts:305-332 | completes exactly the guest's own checked-in booking at the clock reading and emits the event; otherwise changes nothing |
| BookingServices.BookingsService.Cancel | src/modules/bookings/bookings.service.ts:334-364 | cancels exactly the guest's own confirmed booking with the tiered refund and emits the event; otherwise changes nothing |
| BookingServices.BookingsService.RunAutoCheckout | src/modules/bookings/bookings.service.ts:368-391 | completes exactly the overdue stays at their booked check-out, one event each, and returns how many |
| BookingServices.BookingsService.RunNoShowDetection | src/modules/bookings/bookings.service.ts:393-414 | marks exactly the confirmed bookings past the grace period, one event each, and returns how many |
| BookingServices.BookingsService.RunPaymentTimeouts | src/modules/bookings/bookings.service.ts:416-441 | cancels exactly the unpaid bookings past the timeout, one event each, and returns how many |
| BookingServices.AdminBookingsService.Void | src/modules/bookings/admin/admin-bookings.service.ts:194-234 | voids a confirmed booking with a full refund, or changes nothing |
| BookingServices.AdminBookingsService.Cancel | src/modules/bookings/admin/admin-bookings.service.ts:237-274 | cancels a confirmed booking with the tiered refund, or changes nothing |
| BookingServices.AdminBookingsService.Refund | src/modules/bookings/admin/admin-bookings.service.ts:277-325 | adds a refund up to the remaining balance of a confirmed, checked-in or completed booking, or changes nothing |
| BookingServices.AdminBookingsService.ForceCheckout | src/modules/bookings/admin/admin-bookings.service.ts:328-361 | completes a checked-in booking now, or changes nothing |
| BookingServices.AdminBookingsService.Extend | src/modules/bookings/admin/admin-bookings.service.ts:364-423 | lengthens a checked-in stay exactly when no other pending, confirmed or checked-in booking of the room type overlaps the added time, with the rounded hours and the surcharge on the total, or changes nothing |
| BookingServices.OperationIsReadThenCommit | src/modules/bookings/bookings.service.ts:257-364 | an operation run alone is the protocol's read step followed by its commit step |
| BookingServices.AdmissionIsCreate | src/modules/bookings/bookings.repository.ts:80-104 | the service admits a booking exactly when the protocol's create step is enabled, with the same row |
| PaymentServices.PaymentsService.CreateOrder | src/modules/bookings/payments.service.ts:56-84 | orders the booking's total exactly when its guest's booking awaits payment |
| PaymentServices.PaymentsService.VerifyAndCapture | src/modules/bookings/payments.service.ts:104-200 | with nothing in between, goes through exactly for the guest's own pending booking, its order not yet captured and a good signature: booking confirmed, payment captured and legs posted together; otherwise none of the three, and a bad signature only marks the payment failed; no booking has two captured payments |
| PaymentServices.PaymentsService.CommitCapture | src/modules/bookings/payments.service.ts:147-180 | the transaction from a booking read earlier goes through exactly when the booking still awaits payment, and then confirms, marks and posts the price read; otherwise it does none of the three |
| PaymentProtocol.ChargedOnce | src/modules/bookings/payments.service.ts:104-177 | under every interleaving a booking is charged at most once, with accepted legs that take from the guest exactly the amount ordered; a payment marked captured is one of those charges, and no booking has two |
| PaymentProtocol.ConfirmedIffCharged | src/modules/bookings/payments.service.ts:147-177 | under every interleaving a booking has been confirmed if and only if a charge was posted for it |
| PaymentProtocol.MarkedExact | src/modules/bookings/payments.service.ts:118-122 | every payment charged stays marked captured in every history if and only if the failed mark tests that it is not captured (it does not) |
| PaymentProtocol.LateFailure | src/modules/bookings/payments.service.ts:118-122 | the failing run: a refused signature read before the payment went through is marked after it |
| PaymentProtocol.SoloVerify | src/modules/bookings/payments.service.ts:104-177 | with nothing in between, the protocol's read, look and write are the service's operation, whatever the guard |
| Ledger.CaptureAccepted | src/modules/bookings/payments.service.ts:133-145 | the legs of every priced booking pass the balance check after zero legs are dropped, and move exactly the total out of guest clearing, base less commission to the owner, the commission to the platform and the GST to the tax account, nothing else |
| Ledger.ReleaseAccepted | src/modules/payouts/payouts.service.ts:183-187 | the legs of every positive item pass the balance check, and move exactly the gross out of the owner's account, the TDS to its account and the rest to the bank, nothing else |
| Ledger.LedgerSumsToZero | src/modules/finance/ledger.service.ts:55-69 | after any run of postings the balances of all accounts sum to zero |
| Ledger.GroupsMakeBalance | src/modules/finance/ledger.service.ts:75-87 | grouping by account and direction and then signing equals the entry-by-entry balance |
| Ledger.LedgerService.AssertBalanced | src/modules/finance/ledger.service.ts:30-48 | accepts exactly two or more positive legs whose debits equal their credits |
| Ledger.LedgerService.Post | src/modules/finance/ledger.service.ts:55-69 | appends the legs exactly when they are accepted, and nothing otherwise |
| Ledger.LedgerService.Balances | src/modules/finance/ledger.service.ts:75-87 | returns the true balance of every account that has an entry, and no other account |
| Payouts.GroupPartitions | src/modules/payouts/payouts.service.ts:85-103 | one item per property, holding exactly that property's rows with a positive gross in order, and no property missing |
| Payouts.GroupConserves | src/modules/payouts/payouts.service.ts:85-116 | any amount summed over the items is that amount summed over the paying rows |
| Payouts.DraftBounds | src/modules/payouts/payouts.repository.ts:217-220 | per item net is gross less TDS, TDS is between zero and gross, gross is positive |
| Payouts.TotalsAgree | src/modules/payouts/payouts.service.ts:105-116 | the batch totals are those of the rows, net is gross less TDS, TDS is between zero and gross |
| Payouts.GroupByProperty | src/modules/payouts/payouts.service.ts:85-103 | the one-pass map loop computes the specified grouping, in the map's insertion order |
| PayoutShares.BatchPaysShares | src/modules/payouts/payouts.service.ts:46-101 | a batch links exactly the bookings completed in its cycle, not yet linked and with a share left, each once, for the whole share: base less commission less what the table shows as refunded, TDS to half a paisa |
| PayoutShares.ItemsForOwners | src/modules/payouts/payouts.service.ts:95-100 | each item of a new batch is pending, for a property with such a booking and made out to its owner; earlier items stay as they are |
| PayoutShares.ItemsCounted | src/modules/payouts/payouts.service.ts:103 | there are as many items as properties with a share to pay |
| PayoutServices.PayoutsService.CreateBatchAtomic | src/modules/payouts/payouts.repository.ts:203-261 | creates batch, items and links together, refused exactly when the batch reference is taken |
| PayoutServices.PayoutsService.InsertBookingLinks | src/modules/payouts/payouts.repository.ts:241-247 | inserts each line's link unless the booking is already linked |
| PayoutServices.PayoutsService.FindDue | src/modules/payouts/payouts.repository.ts:143-160 | every completed, unlinked booking of the cycle once, and no other |
| PayoutServices.PayoutsService.ItemsOf | src/modules/payouts/payouts.service.ts:127-134 | every item of the batch once |
| PayoutServices.PayoutsService.GenerateBatch | src/modules/payouts/payouts.service.ts:75-124 | stores a pending batch that links exactly the due bookings with a share left, each for base less commission less refunds, with the number of paying properties and the total gross, TDS and net; refused exactly when the batch reference is taken |
| PayoutServices.PayoutsService.HoldItem | src/modules/payouts/payouts.service.ts:151-158 | holds a pending item and refuses any other status |
| PayoutServices.PayoutsService.ReleaseItem | src/modules/payouts/payouts.service.ts:160-168 | releases or fails a held item and refuses any other status |
| PayoutServices.PayoutsService.ReleaseItemInternal | src/modules/payouts/payouts.service.ts:170-217 | released with its posted transaction, or failed with none |
| PayoutServices.PayoutsService.ReleaseBatchItems | src/modules/payouts/payouts.service.ts:126-149 | tries every pending item of a batch not yet released (released when the posting goes through, else failed), leaves all other items, counts released and skipped, and marks the batch released when every item was pending, failed when none was, else partial |
| PayoutInvariants.GenerateKeeps | src/modules/payouts/payouts.service.ts:75-124 | generating a batch leaves existing items alone and keeps every payout invariant |
| PayoutInvariants.ReleaseOneKeeps | src/modules/payouts/payouts.service.ts:170-217 | releasing keeps items worth their links, links unique, and ledger references exact |
| PayoutInvariants.ReleaseBatchKeeps | src/modules/payouts/payouts.service.ts:126-149 | releasing a batch settles its pending items, leaves all others, and keeps every payout invariant |
| PayoutProtocol.OwnerSafeExact | src/modules/payouts/payouts.service.ts:75-217 | in every interleaving of batches, holds, releases and bookings the owner account is base less commission of all captured bookings minus the gross of released items, and never negative, if and only if a batch is refused once a booking it read is linked and holding and releasing test the status they read (they do not) |
| PayoutProtocol.CountedTwice | src/modules/payouts/payouts.service.ts:82-83 | a failing run, from the empty database: two batches both read a booking before either links it |
| PayoutProtocol.ReleasedTwice | src/modules/payouts/payouts.service.ts:126-149 | another: two releases of one item both read it before either writes |
| PayoutProtocol.SoloIsStep | src/modules/payouts/payouts.service.ts:75-168 | a payout request whose write follows its read at once does what the whole operation does, whatever the guards |
| Conservation.OwnerAccountConserved | src/modules/payouts/payouts.service.ts:75-200 | over every history of whole payout operations, next to interleaved bookings, the owner account is base less commission of all captured bookings minus the gross of released items, and never negative |
| Conservation.AccountsConserved | src/modules/bookings/payments.service.ts:133-145 | over every history each of the six accounts holds what its captures and releases moved on it: guest clearing less every price paid, the platform its commissions, the tax account the GST, the withholding account the TDS of the released items, the bank their nets |
| Conservation.LinksPayShares | src/modules/payouts/payouts.service.ts:46-101 | over every history whatever a batch pays for a booking is the share its owner had left when the batch was made, of a booking then due |
| Conservation.EveryShareIsPaid | src/modules/payouts/payouts.service.ts:82-101 | over every history, once a batch is made each booking that was due is on exactly one item, for its share, or on none when refunded for the whole of it |
| Conservation.PaidForGood | src/modules/payouts/payouts.repository.ts:241-247 | what a booking was paid is never changed or taken back |
| Conservation.LedgerAlwaysBalances | src/modules/finance/ledger.service.ts:30-87 | over every history of captures and payouts all accounts sum to zero |
| Conservation.NoBookingPaidTwice | src/modules/payouts/payouts.repository.ts:143-160 | no booking is linked twice, and every item is worth exactly its links |
| Conservation.CaptureAlwaysPosts | src/modules/bookings/payments.service.ts:147-177 | a winning capture is never rolled back by its ledger posting |
| Conservation.ReleasedIffReferenced | src/modules/payouts/payouts.service.ts:189-216 | an item is released exactly when the ledger holds its one balanced transaction; any other item is referenced by nothing |
| Conservation.SettledForGood | src/modules/payouts/payouts.service.ts:126-217 | a released or failed item never changes again, in any later run |
| Conservation.ReleasedBatchFinal | src/modules/payouts/payouts.service.ts:126-149 | a batch once marked released stays so in every later run, and holds only released or failed items |
| DisputeRules.DecideShape | src/modules/disputes/disputes.service.ts:323-368 | each kind of resolution is accepted exactly when the amount it needs is there and in range, and leaves its own status and exactly its amount: the total for a full refund, the amount asked for in part, a credit of the amount asked for and no refund, or neither |
| DisputeRules.FiledExactly | src/modules/disputes/disputes.service.ts:115-143 | the guest of a completed stay may file up to 48 hours after its check-out, nobody else and no later; the dispute is due seven days after its stamp |
| DisputeSteps.SoloFile | src/modules/disputes/disputes.service.ts:115-159 | with nothing in between, the protocol's filing is the service's |
| DisputeSteps.SoloStatus | src/modules/disputes/disputes.service.ts:210-312 | with nothing in between, viewing, asking for a response (48 hours) and answering are the service's |
| DisputeSteps.SoloResolve | src/modules/disputes/disputes.service.ts:315-434 | with nothing in between, the protocol's resolution is the service's, with its refund or its one credit |
| DisputeSteps.SoloSweep | src/modules/disputes/disputes.service.ts:448-498 | with nothing in between, the protocol's auto-close is the service's |
| Disputes.ResolvedOnce | src/modules/disputes/disputes.repository.ts:62-73 | once a dispute leaves its open statuses no step of any later run changes its row |
| Disputes.DisputesInTime | src/modules/disputes/disputes.service.ts:115-144 | in every run each dispute concerns a completed stay, was filed within 48 hours of its check-out plus the longest delay of a filing between testing the window and stamping it, and is closed for want of a response only after its seven days |
| Filings.UniqueExact | src/modules/disputes/disputes.service.ts:127-143 | no history ever gives a booking two disputes if and only if the insert is guarded by a unique key on the booking (it is not) |
| Filings.TwoDisputes | src/modules/disputes/disputes.service.ts:127-143 | the failing run, from the empty database: two filings both look before either inserts |
| Disputes.AtMostOneEffect | src/modules/disputes/disputes.service.ts:372-498 | under every interleaving each dispute causes at most one booking refund or wallet credit, of the kind it was closed with, never both, none while open |
| Disputes.EffectsComplete | src/modules/disputes/disputes.service.ts:372-498 | when nothing is in progress every closed dispute has had exactly the effect it was closed with: one refund of the amount decided on its booking, one credit of the amount decided, or none |
| RefundWrites.RefundsSurvive | src/modules/disputes/disputes.service.ts:384-393 | in every history every booking shows at most all the refunds written to it, by admins, disputes, cancellations and voids, and all of them if and only if each was written over the refund its writer went by, which for a cancellation or void is none |
| RefundWrites.RefundCancelledAway | src/modules/bookings/bookings.service.ts:334-350 | a failing run with nothing interleaved: an admin gives back one paisa of a confirmed booking, and a late cancellation sets the refund to zero |
| RefundWrites.RefundLost | src/modules/bookings/admin/admin-bookings.service.ts:277-297 | the failing run: an admin refund of one paisa, read before and written after a full dispute refund, is all the booking shows |
| Disputes.SweepNeverLoses | src/modules/disputes/disputes.service.ts:448-498 | the compare-and-set on the booking that ends an auto-close always wins |
| Refunds.RefundBound | src/modules/bookings/admin/admin-bookings.service.ts:277-297 | in every run of whole operations the recorded refund is at most the total until a dispute refund, afterwards at most the total plus that refund, and a booking has at most one dispute |
| Refunds.WithinTotalExact | src/modules/disputes/disputes.service.ts:372-396 | a run of whole operations keeps every booking's refund within its total at every moment if and only if each resolution and auto-close refunds no more than what is left of the total |
| Refunds.TwiceTheTotal | src/modules/disputes/disputes.service.ts:323-399 | for every price some run gives back exactly twice the total |
| DisputeServices.DisputesService.FileDispute | src/modules/disputes/disputes.service.ts:115-159 | files exactly for the guest's completed booking, up to 48 hours after its check-out and when it has no dispute yet, due seven days after the stamp |
| DisputeServices.DisputesService.GetDetail | src/modules/disputes/disputes.service.ts:210-219 | moves a filed dispute to review and leaves any other as it is |
| DisputeServices.DisputesService.RequestResponse | src/modules/disputes/disputes.service.ts:256-280 | asks the hotel exactly when filed or under review and gives it exactly 48 hours |
| DisputeServices.DisputesService.SubmitHotelResponse | src/modules/disputes/disputes.service.ts:283-312 | accepted exactly from an allowed user while awaited and within the deadline |
| DisputeServices.DisputesService.Resolve | src/modules/disputes/disputes.service.ts:315-434 | closes an open dispute once with the status of the resolution; the booking's refund rises by exactly its total or the part asked for, the wallet gains exactly one credit of the amount asked for, or neither; otherwise changes nothing |
| DisputeServices.DisputesService.ApplyRefundBookkeeping | src/modules/disputes/disputes.service.ts:486-498 | adds the refund exactly when the booking is still in the status seen |
| DisputeServices.DisputesService.FindExpired | src/modules/disputes/disputes.repository.ts:165-175 | lists each open dispute past its deadline once |
| DisputeServices.DisputesService.UpdateIfStatus | src/modules/disputes/disputes.repository.ts:62-73 | writes exactly when the dispute is in one of the expected statuses |
| DisputeServices.DisputesService.RunAutoClose | src/modules/disputes/disputes.service.ts:448-484 | closes every expired dispute whose booking exists, and returns how many there were |
| DisputeServices.CloseAllCloses | src/modules/disputes/disputes.service.ts:448-484 | after the sweep every listed dispute is closed for the guest with the whole total, every other dispute and every booking status is as before |
| Otp.LogIsLegal | src/modules/auth/services/otp.service.ts:25-74 | under every interleaving each issued code sees at most four wrong guesses and then one success, or five and then none, and nothing is counted without a code |
| Otp.GuessBound | src/modules/auth/services/otp.service.ts:25-74 | between two writes at most five wrong guesses are counted, and successes never outnumber issued codes |
| Otp.CounterOutlivesRecord | src/modules/auth/services/otp.service.ts:48-56 | while the record lives the counter cannot expire and holds exactly the wrong guesses since the write |
| Otp.FailReplyExact | src/modules/auth/services/otp.service.ts:33-58 | under every interleaving the attempts left in a reply are five less the wrong guesses since the write, and the fifth locks for fifteen minutes |
| Otp.LoggedExactly | src/modules/auth/services/otp.service.ts:25-74 | the log gains a success exactly when the phone is recorded as verified, and a wrong guess exactly when one is added to the counter |
| OtpCalls.CodesSpaced | src/modules/auth/services/otp.service.ts:105-124 | consecutive codes are at least 30 seconds apart |
| OtpCalls.WindowHoldsThree | src/modules/auth/services/otp.service.ts:126-143 | a rate window holds at most three codes |
| OtpCalls.SixPerHour | src/modules/auth/services/otp.service.ts:105-162 | any half-open hour sees at most six codes |
| OtpCalls.NothingAcceptedWhileLocked | src/modules/auth/services/otp.service.ts:93-192 | no send and no verification is accepted within fifteen minutes of any lock |
| OtpCodes.SendExact | src/modules/auth/services/otp.service.ts:93-162 | a send is accepted exactly when no lock and no cooldown is live and the hour's window has seen fewer than three; it stores its code for five minutes, starts the count afresh and opens thirty seconds of cooldown |
| OtpCodes.OnlyTheLastCode | src/modules/auth/services/otp.service.ts:172-246 | over every history a verification is accepted only for the code sent last, uses it up and records the phone as verified for fifteen minutes; a refused one leaves the phone as it was |
| OtpCodes.TheLastCodeWorks | src/modules/auth/services/otp.service.ts:192-246 | over every history, with no live lock, time left on the code and a transaction that goes through, the code sent last is accepted at once |
| OtpCodes.AnyOtherIsCounted | src/modules/auth/services/otp.service.ts:33-58 | under the same conditions any other guess is refused and counted; the fifth deletes the code and locks the phone for fifteen minutes |
| OtpCodes.WorksOnce | src/modules/auth/services/otp.service.ts:60-74 | between two accepted verifications a new code was sent |
| OtpCalls.OtpService.Send | src/modules/auth/services/otp.service.ts:86-170 | its key commands are the specified send call |
| OtpCalls.OtpService.Verify | src/modules/auth/services/otp.service.ts:172-308 | its retry loop is the specified verify call over three rounds |
| Sessions.OneRotationPerHash | src/modules/auth/repositories/user.repository.ts:34-50 | of all refreshes that read one stored hash at most one commits |
| Sessions.RevokedForGood | src/modules/auth/repositories/user.repository.ts:34-91 | from any point of any run on, owner and expiry never change, and a revoked session never rotates or becomes unrevoked |
| Sessions.NoLateRotationExact | src/modules/auth/repositories/user.repository.ts:39-47 | were the test to ask for a margin of validity left, an expired session would never rotate in any run if and only if no commit is later after its clock reading than that margin; the code's margin is zero |
| Sessions.RefreshExact | src/modules/auth/services/auth.service.ts:296-350 | a refresh goes on exactly for the active owner of a live session who presents its current token and, when privileged, comes from no other known device or address; it ends the session exactly when expired or a privileged owner comes from another of either; a deactivated owner is forbidden |
| Sessions.UsersRepository.RotateSessionRefreshToken | src/modules/auth/repositories/user.repository.ts:34-50 | replaces the hash exactly when it is the one read, unrevoked and unexpired |
| Sessions.UsersRepository.RevokeSession | src/modules/auth/repositories/user.repository.ts:86-91 | stamps the session revoked and touches nothing else |
| Sessions.UsersRepository.RevokeExpiredSessions | src/modules/auth/repositories/user.repository.ts:52-84 | batch by batch revokes exactly the expired unrevoked sessions and returns how many |
| Sessions.UsersRepository.FindStale | src/modules/auth/repositories/user.repository.ts:55-63 | the first so many expired unrevoked ids in order |
| AuthService.RotationHandsOver | src/modules/auth/services/auth.service.ts:344-363 | after a rotation the new token is accepted and the old one never again |
| AuthService.AuthService.RefreshToken | src/modules/auth/services/auth.service.ts:296-370 | rejects, revokes or rotates exactly as the row read decides, and succeeds only when the rotation wins |
| AuthService.AuthService.EnforceSessionBinding | src/modules/auth/services/auth.service.ts:453-497 | revokes exactly when a privileged user's device or address is known and another one |
| AuthService.AuthService.Logout | src/modules/auth/services/auth.service.ts:372-395 | revokes exactly the live session whose token was presented |
| Properties.ConditionalFieldsExact | src/modules/properties/properties.service.ts:505-598 | no error is found exactly when everything required by policy, kind, amenities and entity is there |
| Properties.RateErrorsNamed | src/modules/properties/properties.service.ts:519-542 | every rate error names the place, among the counted rooms, of one that lacks a rate the policy needs, and each such room has one |
| Properties.MissingNamed | src/modules/properties/properties.service.ts:583-593 | every document error names a document that is required and not there, and each such document has one |
| Properties.AssertConditionalFields | src/modules/properties/properties.service.ts:505-598 | returns the step-3 errors, else the step-5 errors, in the order pushed; none exactly for a complete submission |
| Properties.ReplacedExact | src/modules/properties/properties.repository.ts:240-254 | replacing the rooms succeeds exactly when the counted categories are distinct, and stores one room per category |
| Properties.MaterializedPriced | src/modules/properties/properties.service.ts:440-448 | a complete submission materializes each counted room as entered, rates in paise to the nearest, and nothing else, with a positive rate for everything the policy sells |
| Onboarding.SubmissionExact | src/modules/properties/properties.service.ts:263-328 | a submission changes only status, policy, minimum stay, wizard and rooms, to what was entered; the property is bookable exactly when its counted categories are distinct or its previous rooms are priced for the new policy |
| Onboarding.SavesExact | src/modules/properties/properties.service.ts:182-232 | saving a step is refused under review and once approved, stores what was given, and leaves everything else as it is |
| OnboardingProtocol.SoloIsStep | src/modules/properties/properties.service.ts:182-328 | a request whose writes follow its read at once does what the service operation does on its own, whatever the guards |
| OnboardingProtocol.GuaranteeExact | src/modules/properties/properties.service.ts:263-328 | in a run, whatever is approved or has been submitted and settled is bookable at every moment if and only if no approval is written while rooms are still to be replaced (unless those there are priced) and the replacement that settles a submission or changes an approved property is clean |
| OnboardingProtocol.ApprovalsExact | src/modules/properties/admin/admin-properties.service.ts:99-105 | in a run an approved property is bookable at every moment if and only if every approval written finds rooms priced for the policy and every replacement written on an approved property is clean |
| OnboardingProtocol.GuaranteeCovers | src/modules/properties/properties.service.ts:263-328 | a run that keeps whatever is submitted and settled bookable also has safe approvals |
| OnboardingProtocol.ApprovedIsBookable | src/modules/properties/properties.service.ts:401-553 | in every run with safe approvals an approved property has a room type, a minimum stay of one to three hours, and a positive rate for each kind of booking its policy sells and for no other |
| OnboardingGuards.ApprovedInTheGap | src/modules/properties/admin/admin-properties.service.ts:99-105 | the failing run: an approval written between the two writes of a clean submission leaves an approved property with no room, whatever the guards |
| OnboardingGuards.ApprovedWithoutRooms | src/modules/properties/properties.service.ts:273-282 | the other failing run: two counted rooms of one category, nothing interleaved |
| OnboardingGuards.DecidedForGood | src/modules/properties/admin/admin-properties.service.ts:99-201 | approved, rejected and escalated are final in every run if and only if moderation writes test that the review is open and submission writes test the status they read (they do not) |
| OnboardingGuards.FrozenExact | src/modules/properties/properties.service.ts:191-225 | under review or approved the wizard, the papers and the policy stay as they are in every run if and only if saved steps test that the property is editable and submission writes test the status they read (they do not) |
| OnboardingGuards.ReviewRounds | src/modules/properties/admin/admin-properties.service.ts:157-201 | at most four reviews in every run if and only if submission writes test the status and revision requests the revision count they read (they do not) |
| OnboardingGuards.CodeKeepsNone | src/modules/properties/admin/admin-properties.service.ts:99-201 | the code, which makes none of these tests, keeps none of the three |
| PropertyServices.PropertiesService.Submit | src/modules/properties/properties.service.ts:263-292 | only drafts; leaves exactly the row the submission specifies |
| PropertyServices.PropertiesService.Revise | src/modules/properties/properties.service.ts:300-328 | only properties sent back; leaves exactly the row the submission specifies |
| PropertyServices.PropertiesService.ReplaceRoomTypes | src/modules/properties/properties.repository.ts:240-254 | all counted rooms or, when a category repeats, the old ones |
| PropertyServices.PropertiesService.SaveRoomsStep | src/modules/properties/properties.service.ts:182-232 | stores step 3 when editable, valid and with a counted room |
| PropertyServices.PropertiesService.ValidateAndMaterialize | src/modules/properties/properties.service.ts:401-485 | yields steps 1 and 3 exactly when all five steps are stored, valid and complete |
| PropertyServices.PropertiesService.UpdateRoom | src/modules/properties/properties.service.ts:377-387 | changes only the given fields of one existing room, rates in range and a hundred paise to the rupee |
| PropertyServices.PropertiesService.Approve | src/modules/properties/admin/admin-properties.service.ts:99-119 | approves only a property under review |
| PropertyServices.PropertiesService.Reject | src/modules/properties/admin/admin-properties.service.ts:122-148 | rejects only a property under review |
| PropertyServices.PropertiesService.RequestRevision | src/modules/properties/admin/admin-properties.service.ts:157-201 | sends a property under review back three times, and escalates it the fourth |
| Anomalies.SweepKeeps | src/modules/bookings/admin/admin-anomalies.service.ts:283-312 | a sweep only appends; afterwards exactly the reported and the earlier ones have an unresolved anomaly, never two |
| Anomalies.SweepDetects | src/modules/bookings/admin/admin-anomalies.service.ts:283-312 | every row a sweep adds is a reported hit, as detected |
| Anomalies.SweepCount | src/modules/bookings/admin/admin-anomalies.service.ts:219-234 | one new row per reported rule and entity that had none unresolved |
| Anomalies.SweepTwice | src/modules/bookings/admin/admin-anomalies.service.ts:219-513 | a second sweep over the same data at the same instant changes nothing, whatever the order of the query results |
| Anomalies.OneUnresolvedEach | src/modules/bookings/admin/admin-anomalies.service.ts:183-280 | after every sequence of whole sweeps, views and status changes at most one unresolved anomaly per rule and entity, and resolved ones stay resolved |
| AnomalyRaces.OneUnresolvedExact | src/modules/bookings/admin/admin-anomalies.service.ts:277-304 | in every history of overlapping sweeps at most one unresolved anomaly per rule and entity if and only if a unique key guards the insert (none does) |
| AnomalyRaces.ReportedTwice | src/modules/bookings/admin/admin-anomalies.service.ts:277-304 | the failing run: two sweeps both look before either inserts |
| AnomalyRaces.ResolvedForGood | src/modules/bookings/admin/anomalies.repository.ts:185-196 | whatever overlaps, a resolved anomaly stays as it was resolved |
| AnomalyRaces.SoloReport | src/modules/bookings/admin/admin-anomalies.service.ts:277-304 | a look followed by its insert at once is what a sweep does with one hit |
| Anomalies.BookingRateRules | src/modules/bookings/admin/anomalies.repository.ts:200-229 | cancellations: more than three in ten of at least five bookings within seven days; payment failures: more than five of the bookings within an hour |
| Anomalies.ComplaintRules | src/modules/bookings/admin/anomalies.repository.ts:272-334 | no-shows: more than three within a day; disputes settled for the guest: more than five within thirty days |
| Anomalies.LateNightRule | src/modules/bookings/admin/anomalies.repository.ts:287-302 | more than ten bookings within six hours made between 23:00 and 05:00 |
| Anomalies.GuestRules | src/modules/bookings/admin/anomalies.repository.ts:256-319 | more than five bookings by a guest within a day; money given back for more than four in ten of at least five within ninety days |
| Anomalies.BookingRules | src/modules/bookings/admin/anomalies.repository.ts:231-349 | a booking flagged by hand, and one whose room type a later one, confirmed or checked in like itself, holds at an instant of its stay |
| Anomalies.AnomaliesService.Candidates | src/modules/bookings/admin/anomalies.repository.ts:200-349 | returns exactly the entities the rule reports |
| Anomalies.AnomaliesService.Detect | src/modules/bookings/admin/admin-anomalies.service.ts:283-513 | one rule's loop reports each of its hits once and counts what it created |
| Anomalies.AnomaliesService.RunDetection | src/modules/bookings/admin/admin-anomalies.service.ts:219-234 | returns exactly the number of anomalies created, for exactly the hits of the nine rules |
| Anomalies.AnomaliesService.ChangeStatus | src/modules/bookings/admin/admin-anomalies.service.ts:183-216 | changes an unresolved anomaly when notes and type are given as required, otherwise nothing |
| Anomalies.AnomaliesService.GetDetail | src/modules/bookings/admin/admin-anomalies.service.ts:141-180 | the first view moves a detected anomaly to investigating |

## Left out

Assumptions the model makes because the code needs them:

- Room counts never decrease (an owner may lower one at `src/modules/properties/properties.service.ts:380`, and a booking may be admitted against the count read before).
- Allocator.RoomsAlwaysAssigned: over runs whose extensions still pass their overlap check when they commit, which the code does not ensure; whether a seating survives any other extension depends on the rooms handed out, and `Allocator.HousingContinues` says exactly when it does.
- Conservation.OwnerAccountConserved: over whole payout operations; what interleaved ones need is `PayoutProtocol.OwnerSafeExact`, in which the status of a batch is not kept and a batch may always be read for release again.
- Anomalies.OneUnresolvedEach: over whole sweeps; what overlapping ones need is `AnomalyRaces.OneUnresolvedExact`.
- Announcing a payout never throws: a listener that did would mark an item failed whose transaction is posted.
- Request ranges hold: rates are positive, hours at least one, commission and TDS between 0 and 100 %, refund and extension amounts positive.
- Room edits leave out a rate or give one in range: an explicit null passes the optional check (`src/modules/properties/properties.service.ts:377-387`) and is stored as a rate of zero, so a live room can lose its price.
- Percentages and rates are exact rationals; double-precision effects are not modelled.
- Refunds.RefundBound: over whole operations, with filing as one step; what interleaved refunds leave is `RefundWrites.RefundsSurvive`.
- Refunds.WithinTotalExact: over the same whole operations.
- Otp.GuessBound: for interleaved commands a success is not tied to the code compared before it, because the success script tests only that a record exists; for calls that do not overlap, `OtpCodes.OnlyTheLastCode` ties it.

Not modelled:

- The Redis WATCH (one connection is shared); an aborted EXEC is an arbitrary outcome of each verify round.
- Cryptography: signatures, password and token hashing are equality of abstract values or a Boolean input; a new hash is fresh.
- Verification tokens, registration and password reset, which consume what the one-time password flow leaves.
- Reading the platform settings, which creates the defaults on first use; commission and TDS are inputs.
- Payment orders at the gateway, sandbox checkout, payment failure events; verifying reads the row of a booking once, and an order is priced from it.
- Saving step 5 writes the papers and then the step number; only the papers are kept.
- Events other than the six lifecycle ones (created, extended, refunded, payment captured or failed).
- The second clock reading of a cancellation: its refund tier and its timestamp use one reading.
- Notifications, audit rows, listeners, e-mail, SMS and push delivery.
- Reviews and ratings, support tickets, super-admin settings, dashboards, list and filter queries: simple aggregates.
- Booking references, submission references and batch names, beyond the uniqueness of the batch reference (its day).
- Photos, documents, addresses and other descriptive fields of a property; steps 2 and 4 are stored or not.
- The suspended property status, which no operation sets.
- Booking flags and failed payments are inputs of the anomaly rules; entity labels, evidence and descriptions are not kept.
- The calendar: a late-night booking is judged by the hour of its instant, without a time zone.
- Several guest rooms per property are addressed by category; the ids that replacing rooms renews are not kept.
- The wallet: a credit is recorded, spending it is not part of this model.
