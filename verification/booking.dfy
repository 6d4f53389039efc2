/**
 The booking row, the partial updates the services write to it, and each
 operation split the way the code splits it: `Plan` is what a request decides
 from the row it has read, `UpdateIfStatus` is the later compare-and-set.
 */
module Booking {
  import opened Common
  import opened Money

  datatype BookingStatus = PendingPayment | Confirmed | CheckedIn | Completed | Cancelled | NoShow | Voided

  datatype PaymentStatus = Unpaid | Paid | Refunded

  datatype Actor = Guest | System | Admin

  const ACTIVE: set<BookingStatus> := {PendingPayment, Confirmed, CheckedIn}
  const REFUNDABLE: set<BookingStatus> := {Confirmed, CheckedIn, Completed}

  const NO_SHOW_GRACE: int := 30 * MINUTE
  const EARLY_WINDOW: int := 15 * MINUTE
  const PAYMENT_TIMEOUT: int := 30 * MINUTE
  const PAST_GRACE: int := 10 * MINUTE
  const HORIZON: int := 90 * DAY

  datatype Row = Row(
    propertyId: nat, roomTypeId: nat, ownerId: nat, guestId: nat,
    kind: BookingType, checkInAt: int, checkOutAt: int, durationHours: int,
    base: int, gst: int, fee: int, total: int,
    status: BookingStatus, payment: PaymentStatus, qrCode: Option<nat>,
    checkedInAt: Option<int>, checkedOutAt: Option<int>,
    cancelledAt: Option<int>, cancelledBy: Option<Actor>,
    refund: Option<int>, noShowAt: Option<int>, voidedAt: Option<int>, createdAt: int)

  type Table = map<nat, Row>

  predicate Active(b: Row) { b.status in ACTIVE }

  // The half-open stays [checkInAt, checkOutAt) and [from, to) share an instant.
  predicate Overlaps(b: Row, from: int, to: int) { b.checkInAt < to && b.checkOutAt > from }

  function RefundedSoFar(b: Row): int { if b.refund.Some? then b.refund.value else 0 }

  // ---- creation ----

  datatype NewBooking = NewBooking(
    propertyId: nat, roomTypeId: nat, ownerId: nat, guestId: nat,
    kind: BookingType, checkInAt: int, hours: int, rate: int, commissionPct: int)

  // Ranges the request validation, the room's rate and the platform settings guarantee.
  ghost predicate InRange(n: NewBooking) { n.rate > 0 && n.hours >= 1 && IsPct(n.commissionPct) }

  predicate CheckInAcceptable(n: NewBooking, now: int) {
    now - PAST_GRACE <= n.checkInAt <= now + HORIZON
  }

  function CheckOutFor(n: NewBooking): int {
    n.checkInAt + (if n.kind == Hourly then n.hours else FULLDAY_HOURS) * HOUR
  }

  function FreshRow(n: NewBooking, now: int): Row {
    var p := PriceOf(n.kind, n.rate, n.hours, n.commissionPct);
    Row(n.propertyId, n.roomTypeId, n.ownerId, n.guestId,
        n.kind, n.checkInAt, CheckOutFor(n), if n.kind == Hourly then n.hours else FULLDAY_HOURS,
        p.base, p.gst, p.fee, p.total,
        PendingPayment, Unpaid, None, None, None, None, None, None, None, None, now)
  }

  /** A new booking is the one asked for, for exactly the hours asked for (24 for a full day), at
      the price of its rate; it awaits payment, and nothing has happened to it yet. */
  lemma BookedAsAsked(n: NewBooking, now: int)
    requires InRange(n)
    ensures var b := FreshRow(n, now);
            && b.propertyId == n.propertyId && b.roomTypeId == n.roomTypeId && b.ownerId == n.ownerId
            && b.guestId == n.guestId && b.kind == n.kind && b.checkInAt == n.checkInAt && b.createdAt == now
            && b.durationHours == (if n.kind == Hourly then n.hours else 24)
            && b.checkOutAt - b.checkInAt == b.durationHours * 3_600_000
            && b.base == (if n.kind == Hourly then n.rate * n.hours else n.rate) && b.total == b.base + b.gst
            && -50 <= 100 * b.gst - 18 * b.base <= 50
            && -5_000 <= 10_000 * b.fee - n.commissionPct * b.base <= 5_000
            && b.status == PendingPayment && b.payment == Unpaid && b.qrCode == None && b.refund == None
            && b.checkedInAt == None && b.checkedOutAt == None && b.cancelledAt == None && b.cancelledBy == None
            && b.noShowAt == None && b.voidedAt == None
  {
    PriceShape(n.kind, n.rate, n.hours, n.commissionPct);
  }

  // ---- partial updates ----

  datatype Patch =
    | ConfirmPatch(qr: nat)
    | CheckInPatch(at: int)
    | CheckOutPatch(at: int)
    | CancelPatch(at: int, actor: Actor, refund: int)
    | NoShowPatch(at: int)
    | VoidPatch(at: int, refund: int)
    | RefundPatch(refund: int)
    | ExtendPatch(checkOutAt: int, hours: int, total: int)

  function Apply(b: Row, p: Patch): Row {
    match p
    case ConfirmPatch(qr) => b.(status := Confirmed, payment := Paid, qrCode := Some(qr))
    case CheckInPatch(at) => b.(status := CheckedIn, checkedInAt := Some(at), qrCode := None)
    case CheckOutPatch(at) => b.(status := Completed, checkedOutAt := Some(at))
    case CancelPatch(at, actor, refund) =>
      b.(status := Cancelled, cancelledAt := Some(at), cancelledBy := Some(actor), refund := Some(refund))
    case NoShowPatch(at) => b.(status := NoShow, noShowAt := Some(at))
    case VoidPatch(at, refund) =>
      b.(status := Voided, voidedAt := Some(at), payment := Refunded, refund := Some(refund))
    case RefundPatch(refund) => b.(refund := Some(refund), payment := Refunded)
    case ExtendPatch(out, hours, total) => b.(checkOutAt := out, durationHours := hours, total := total)
  }

  // The conditional update every status change goes through: first commit wins.
  function UpdateIfStatus(rows: Table, id: nat, from: set<BookingStatus>, p: Patch): (r: (Table, bool))
    ensures r.1 <==> id in rows && rows[id].status in from
    ensures !r.1 ==> r.0 == rows
    ensures r.1 ==> r.0.Keys == rows.Keys && (forall j :: j in rows && j != id ==> r.0[j] == rows[j])
    ensures r.1 ==> r.0[id] == Apply(rows[id], p)
  {
    if id in rows && rows[id].status in from then (rows[id := Apply(rows[id], p)], true) else (rows, false)
  }

  // ---- operations ----

  datatype Op =
    | Capture(guest: nat, qr: nat)
    | CheckIn(guest: nat, code: nat)
    | CheckOut(guest: nat)
    | CancelByGuest(guest: nat)
    | CancelByAdmin
    | VoidByAdmin
    | RefundByAdmin(amount: int)
    | ForceCheckout
    | Extend(newCheckOutAt: int, surcharge: int)
    | AutoCheckout
    | NoShowSweep
    | PaymentTimeout
    | DisputeBookkeeping(expected: BookingStatus, amount: int)

  // Scheduled jobs take their clock reading before they query.
  predicate IsSweep(op: Op) { op.AutoCheckout? || op.NoShowSweep? || op.PaymentTimeout? }

  // Request ranges; and only completed bookings are ever disputed (Disputes.SweepNeverLoses).
  ghost predicate OpInRange(op: Op) {
    && (op.RefundByAdmin? ==> op.amount > 0)
    && (op.Extend? ==> op.surcharge > 0)
    && (op.DisputeBookkeeping? ==> op.expected == Completed && op.amount >= 0)
  }

  function CancellationRefund(b: Row, now: int): int {
    if b.kind == Hourly then
      if b.checkInAt - now >= 2 * HOUR then b.total else 0
    else if b.checkInAt - now >= 24 * HOUR then b.total
    else b.total / 2
  }

  /** The cancellation tiers: everything back with two hours' notice (a day's for a full-day
      stay), else nothing (half); cancelling later never gives back more. */
  lemma CancellationTiers(b: Row, now: int, later: int)
    requires b.total > 0 && now <= later
    ensures var r := CancellationRefund(b, now);
            && (r == b.total <==> b.checkInAt - now >= (if b.kind == Hourly then 2 else 24) * 3_600_000)
            && (r != b.total ==> if b.kind == Hourly then r == 0 else b.total - 1 <= 2 * r <= b.total)
            && CancellationRefund(b, later) <= r
  {
  }

  datatype Commit = Commit(from: set<BookingStatus>, patch: Patch)

  // Guards and partial update computed from the row read, at clock reading `t`.
  function Plan(op: Op, b: Row, t: int): Result<Commit> {
    match op
    case Capture(guest, qr) =>
      if b.guestId != guest then Err(NotFound)
      else if b.status != PendingPayment then Err(Conflict)
      else Ok(Commit({PendingPayment}, ConfirmPatch(qr)))
    case CheckIn(guest, code) =>
      if b.guestId != guest then Err(NotFound)
      else if b.status != Confirmed || b.qrCode != Some(code) then Err(Conflict)
      else if t < b.checkInAt - EARLY_WINDOW || t > b.checkInAt + NO_SHOW_GRACE then Err(Conflict)
      else Ok(Commit({Confirmed}, CheckInPatch(t)))
    case CheckOut(guest) =>
      if b.guestId != guest then Err(NotFound)
      else if b.status != CheckedIn then Err(Conflict)
      else Ok(Commit({CheckedIn}, CheckOutPatch(t)))
    case CancelByGuest(guest) =>
      if b.guestId != guest then Err(NotFound)
      else if b.status != Confirmed then Err(Conflict)
      else Ok(Commit({Confirmed}, CancelPatch(t, Guest, CancellationRefund(b, t))))
    case CancelByAdmin => Ok(Commit({Confirmed}, CancelPatch(t, Admin, CancellationRefund(b, t))))
    case VoidByAdmin => Ok(Commit({Confirmed}, VoidPatch(t, b.total)))
    case RefundByAdmin(amount) =>
      if b.status !in REFUNDABLE then Err(Conflict)
      else if amount > b.total - RefundedSoFar(b) then Err(BadRequest)
      else Ok(Commit({b.status}, RefundPatch(RefundedSoFar(b) + amount)))
    case ForceCheckout => Ok(Commit({CheckedIn}, CheckOutPatch(t)))
    case Extend(newOut, surcharge) =>
      if b.status != CheckedIn then Err(Conflict)
      else if newOut <= b.checkOutAt then Err(BadRequest)
      else Ok(Commit({CheckedIn}, ExtendPatch(newOut, Round(newOut - b.checkInAt, HOUR), b.total + surcharge)))
    case AutoCheckout =>
      if b.status == CheckedIn && b.checkOutAt <= t then Ok(Commit({CheckedIn}, CheckOutPatch(b.checkOutAt)))
      else Err(Conflict)
    case NoShowSweep =>
      if b.status == Confirmed && b.checkInAt < t - NO_SHOW_GRACE then Ok(Commit({Confirmed}, NoShowPatch(t)))
      else Err(Conflict)
    case PaymentTimeout =>
      if b.status == PendingPayment && b.createdAt < t - PAYMENT_TIMEOUT then
        Ok(Commit({PendingPayment}, CancelPatch(t, System, 0)))
      else Err(Conflict)
    case DisputeBookkeeping(expected, amount) =>
      Ok(Commit({expected}, RefundPatch(RefundedSoFar(b) + amount)))
  }

  // The operations a guest asks for; `guest` is who asks.
  predicate ByGuest(op: Op) { op.Capture? || op.CheckIn? || op.CheckOut? || op.CancelByGuest? }

  /** Only the booking's own guest pays for it, checks in or out, or cancels it, and to
      anyone else the booking does not exist. */
  lemma OnlyItsGuest(op: Op, b: Row, t: int)
    requires ByGuest(op)
    ensures op.guest != b.guestId <==> Plan(op, b, t) == Err(NotFound)
  {
  }

  // ---- queries over the table ----

  function Overlapping(rows: Table, roomTypeId: nat, from: int, to: int): set<nat> {
    set id | id in rows && rows[id].roomTypeId == roomTypeId && Active(rows[id]) && Overlaps(rows[id], from, to)
  }

  // `extend` refuses when another active booking of the room type touches the added time.
  function HasOverlap(rows: Table, roomTypeId: nat, from: int, to: int, exclude: nat): bool {
    |Overlapping(rows, roomTypeId, from, to) - {exclude}| > 0
  }

  lemma OverlapExists(rows: Table, roomTypeId: nat, from: int, to: int, exclude: nat)
    ensures HasOverlap(rows, roomTypeId, from, to, exclude)
            <==> exists id :: id in rows && id != exclude && rows[id].roomTypeId == roomTypeId
                              && Active(rows[id]) && Overlaps(rows[id], from, to)
  {
    var others := Overlapping(rows, roomTypeId, from, to) - {exclude};
    if |others| > 0 {
      var id :| id in others;
      assert id in rows && id != exclude;
    } else {
      assert others == {};
      forall id | id in rows && id != exclude && rows[id].roomTypeId == roomTypeId && Active(rows[id])
        ensures !Overlaps(rows[id], from, to)
      {
        assert id !in others;
      }
    }
  }

  // The one check that looks beyond the row itself.
  predicate RoomStaysFree(rows: Table, id: nat, op: Op, b: Row) {
    op.Extend? ==> !HasOverlap(rows, b.roomTypeId, b.checkOutAt, op.newCheckOutAt, id)
  }

  function PlanIn(rows: Table, id: nat, op: Op, t: int): Result<Commit> {
    if id !in rows then Err(NotFound)
    else
      var planned := Plan(op, rows[id], t);
      if planned.Ok? && !RoomStaysFree(rows, id, op, rows[id]) then Err(Conflict) else planned
  }

  // One whole operation: read, guards, compare-and-set on the current row.
  function Execute(rows: Table, id: nat, op: Op, t: int): (Table, Result<Row>) {
    var planned := PlanIn(rows, id, op, t);
    if planned.Err? then (rows, Err(planned.error))
    else
      var (after, won) := UpdateIfStatus(rows, id, planned.value.from, planned.value.patch);
      if won then (after, Ok(after[id])) else (after, Err(Conflict))
  }

  // A scheduled sweep on a quiet table: every due row is moved, no other.
  function Swept(rows: Table, op: Op, t: int): Table {
    map id | id in rows :: if Plan(op, rows[id], t).Ok? then Apply(rows[id], Plan(op, rows[id], t).value.patch)
      else rows[id]
  }

  function DueIds(rows: Table, op: Op, t: int): set<nat> { set id | id in rows && Plan(op, rows[id], t).Ok? }

  lemma RowSettles(b: Row, op: Op, t: int)
    requires IsSweep(op) && Plan(op, b, t).Ok?
    ensures Plan(op, Apply(b, Plan(op, b, t).value.patch), t).Err?
  {
  }

  /** A sweep leaves nothing due: running it again at the same instant changes nothing. */
  lemma SweepSettles(rows: Table, op: Op, t: int)
    requires IsSweep(op)
    ensures DueIds(Swept(rows, op, t), op, t) == {} && Swept(Swept(rows, op, t), op, t) == Swept(rows, op, t)
  {
    forall id | id in rows ensures Plan(op, Swept(rows, op, t)[id], t).Err? {
      if Plan(op, rows[id], t).Ok? {
        RowSettles(rows[id], op, t);
      }
    }
  }
}
