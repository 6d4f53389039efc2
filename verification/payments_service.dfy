/** Payment orders and the capture transaction: booking, payment and ledger together or not at all. */
module PaymentServices {
  import opened Common
  import opened Booking
  import opened Lifecycle
  import opened Ledger
  import opened BookingServices

  datatype GatewayStatus = Created | Captured | FailedPayment

  datatype Payment = Payment(bookingId: nat, amount: int, status: GatewayStatus)

  // The booking is the guest's and awaits payment.
  function Payable(rows: Table, id: nat, guest: nat): Result<()> {
    if id !in rows || rows[id].guestId != guest then Err(NotFound)
    else if rows[id].status != PendingPayment then Err(Conflict)
    else Ok(())
  }

  // The order is the booking's and not captured yet.
  function Chargeable(payments: map<nat, Payment>, id: nat, order: nat): Result<()> {
    if order !in payments || payments[order].bookingId != id then Err(NotFound)
    else if payments[order].status == Captured then Err(Conflict)
    else Ok(())
  }

  // Every guard before the transaction, in order.
  function MayCapture(rows: Table, payments: map<nat, Payment>, id: nat, guest: nat, order: nat,
          valid: bool): Result<()> {
    if Payable(rows, id, guest).Err? then Payable(rows, id, guest)
    else if Chargeable(payments, id, order).Err? then Chargeable(payments, id, order)
    else if !valid then Err(BadRequest)
    else Ok(())
  }

  // Reaching the signature check with a bad signature marks the payment failed.
  predicate SignatureRefused(rows: Table, payments: map<nat, Payment>, id: nat, guest: nat, order: nat, valid: bool) {
    !valid && MayCapture(rows, payments, id, guest, order, true).Ok?
  }

  ghost predicate AwaitingPriced(rows: Table) {
    forall id :: id in rows && rows[id].status == PendingPayment ==> Priced(rows[id])
  }

  // A captured payment means a booking past payment, and no booking has two.
  ghost predicate CapturesOk(rows: Table, payments: map<nat, Payment>) {
    && (forall o :: o in payments && payments[o].status == Captured ==>
         payments[o].bookingId in rows && rows[payments[o].bookingId].status != PendingPayment)
    && (forall o, p ::
          o in payments && p in payments && o != p && payments[o].status == Captured &&
            payments[p].status == Captured ==>
          payments[o].bookingId != payments[p].bookingId)
  }

  class PaymentsService {
    const repo: BookingsRepository
    const ledger: LedgerService
    var payments: map<nat, Payment>
    var events: seq<Emitted>

    constructor (repo: BookingsRepository, ledger: LedgerService)
      ensures this.repo == repo && this.ledger == ledger && payments == map[] && events == []
    {
      this.repo, this.ledger := repo, ledger;
      payments, events := map[], [];
    }

    method CreateOrder(id: nat, guest: nat, order: nat) returns (r: Result<int>)
      requires order !in payments && CapturesOk(repo.rows, payments)
      modifies this`payments
      ensures CapturesOk(repo.rows, payments)
      ensures r.Ok? <==> id in repo.rows && repo.rows[id].guestId == guest && repo.rows[id].status == PendingPayment
      ensures r.Ok? ==>
        r.value == repo.rows[id].total && payments == old(payments)[order := Payment(id, r.value, Created)]
      ensures r.Err? ==> payments == old(payments)
    {
      if id !in repo.rows || repo.rows[id].guestId != guest { return Err(NotFound); }
      var booking := repo.rows[id];
      if booking.status != PendingPayment { return Err(Conflict); }
      payments := payments[order := Payment(id, booking.total, Created)];
      return Ok(booking.total);
    }

    /** The transaction, from the booking read earlier: it goes through if and only if the
        booking still awaits payment, and then confirms it, marks the payment captured and
        posts the legs of the price read; otherwise it does none of the three. */
    method CommitCapture(id: nat, order: nat, booking: Row, qr: nat) returns (r: Result<Row>)
      requires ledger.Valid() && Priced(booking) && order in payments
      modifies this`payments, repo, ledger
      ensures ledger.Valid()
      ensures r.Ok? <==> id in old(repo.rows) && old(repo.rows)[id].status == PendingPayment
      ensures r.Ok? ==>
        && r.value == old(repo.rows)[id].(status := Confirmed, payment := Paid, qrCode := Some(qr))
        && repo.rows == old(repo.rows)[id := r.value]
        && payments == old(payments)[order := old(payments)[order].(status := Captured)]
        && ledger.entries == old(ledger.entries) + Tag(BookingRef(id), CaptureLegs(booking))
      ensures r.Err? ==>
        && r.error == Conflict && repo.rows == old(repo.rows)
        && payments == old(payments) && ledger.entries == old(ledger.entries)
    {
      var legs := CaptureLegs(booking);
      CaptureAccepted(id, booking);
      // A posting that failed would undo the two updates.
      var updated := repo.UpdateRow(id, {PendingPayment}, ConfirmPatch(qr));
      if updated.None? { return Err(Conflict); }
      payments := payments[order := payments[order].(status := Captured)];
      var posted := ledger.Post(BookingRef(id), legs);
      assert posted;
      return Ok(updated.value);
    }

    /** For a priced booking the transaction never fails once the guards pass: the booking
        is confirmed, the payment captured, and the legs posted; otherwise none of the three. */
    method VerifyAndCapture(id: nat, guest: nat, order: nat, valid: bool, qr: nat, now: int) returns (r: Result<Row>)
      requires ledger.Valid() && AwaitingPriced(repo.rows) && CapturesOk(repo.rows, payments)
      modifies this`payments, this`events, repo, ledger
      ensures ledger.Valid() && AwaitingPriced(repo.rows) && CapturesOk(repo.rows, payments)
      ensures r.Ok? <==>
        && id in old(repo.rows) && old(repo.rows)[id].guestId == guest && old(repo.rows)[id].status == PendingPayment
        && order in old(payments) && old(payments)[order].bookingId == id
        && old(payments)[order].status != Captured && valid
      ensures r.Ok? <==> MayCapture(old(repo.rows), old(payments), id, guest, order, valid).Ok?
      ensures r.Ok? ==>
        && (repo.rows, r) == Execute(old(repo.rows), id, Capture(guest, qr), now)
        && r.value == old(repo.rows)[id].(status := Confirmed, payment := Paid, qrCode := Some(qr))
        && repo.rows == old(repo.rows)[id := r.value]
        && payments == old(payments)[order := old(payments)[order].(status := Captured)]
        && ledger.entries == old(ledger.entries) + Tag(BookingRef(id), CaptureLegs(old(repo.rows)[id]))
        && events == old(events) + [Emitted(id, BookingConfirmed)]
      ensures r.Err? ==>
        && r.error == MayCapture(old(repo.rows), old(payments), id, guest, order, valid).error
        && repo.rows == old(repo.rows) && ledger.entries == old(ledger.entries) && events == old(events)
        && payments == if SignatureRefused(old(repo.rows), old(payments), id, guest, order, valid)
                       then old(payments)[order := old(payments)[order].(status := FailedPayment)] else old(payments)
    {
      if id !in repo.rows || repo.rows[id].guestId != guest { return Err(NotFound); }
      var booking := repo.rows[id];
      if booking.status != PendingPayment { return Err(Conflict); }
      if order !in payments || payments[order].bookingId != id { return Err(NotFound); }
      var payment := payments[order];
      if payment.status == Captured { return Err(Conflict); }
      if !valid {
        payments := payments[order := payment.(status := FailedPayment)];
        return Err(BadRequest);
      }
      r := CommitCapture(id, order, booking, qr);
      if r.Err? { return; }
      events := events + [Emitted(id, BookingConfirmed)];
    }
  }
}
