/**
 What a commit that wins does to the row it finds, operation by operation, however stale the
 row its request had read: amounts, instants and evidence, in milliseconds and paise.
 */
module Commits {
  import opened Common
  import opened Money
  import opened Booking
  import opened Lifecycle

  // The cancellation tiers, from the row found.
  function TierRefund(b: Row, at: int): int {
    if b.kind == Hourly then (if b.checkInAt - at >= 7_200_000 then b.total else 0)
    else (if b.checkInAt - at >= 86_400_000 then b.total else b.total / 2)
  }

  // The statuses and evidence the row found must show, and the row it becomes.
  ghost predicate ArrivalExact(b: Row, q: Request, c: Row)
    requires q.op.Capture? || q.op.CheckIn? || q.op.NoShowSweep? || q.op.PaymentTimeout?
  {
    match q.op
    case Capture(guest, qr) =>
      && b.status == PendingPayment && b.guestId == guest
      && c == b.(status := Confirmed, payment := Paid, qrCode := Some(qr))
    case CheckIn(guest, code) =>
      && b.status == Confirmed && b.guestId == guest && b.qrCode == Some(code)
      && b.checkInAt - 900_000 <= q.at <= b.checkInAt + 1_800_000
      && c == b.(status := CheckedIn, checkedInAt := Some(q.at), qrCode := None)
    case NoShowSweep =>
      && b.status == Confirmed && b.checkInAt + 1_800_000 < q.at
      && c == b.(status := NoShow, noShowAt := Some(q.at))
    case PaymentTimeout =>
      && b.status == PendingPayment && b.createdAt + 1_800_000 < q.at
      && c == b.(status := Cancelled, cancelledAt := Some(q.at), cancelledBy := Some(System), refund := Some(0))
  }

  ghost predicate CallOffExact(b: Row, q: Request, c: Row)
    requires q.op.CancelByGuest? || q.op.CancelByAdmin? || q.op.VoidByAdmin?
  {
    && b.status == Confirmed
    && match q.op
       case CancelByGuest(guest) =>
         && b.guestId == guest
         && c == b.(status := Cancelled, cancelledAt := Some(q.at), cancelledBy := Some(Guest),
                    refund := Some(TierRefund(b, q.at)))
       case CancelByAdmin =>
         c == b.(status := Cancelled, cancelledAt := Some(q.at), cancelledBy := Some(Admin),
                 refund := Some(TierRefund(b, q.at)))
       case VoidByAdmin =>
         c == b.(status := Voided, voidedAt := Some(q.at), payment := Refunded, refund := Some(b.total))
  }

  // Only here does the row read show: the refunds, the total and the booked check-out it had.
  ghost predicate StayExact(b: Row, q: Request, c: Row)
    requires q.op.CheckOut? || q.op.ForceCheckout? || q.op.AutoCheckout? || q.op.Extend?
  {
    && b.status == CheckedIn
    && match q.op
       case CheckOut(guest) => b.guestId == guest && c == b.(status := Completed, checkedOutAt := Some(q.at))
       case ForceCheckout => c == b.(status := Completed, checkedOutAt := Some(q.at))
       case AutoCheckout =>
         q.seen.checkOutAt <= q.at && c == b.(status := Completed, checkedOutAt := Some(q.seen.checkOutAt))
       case Extend(newOut, surcharge) =>
         && q.seen.checkOutAt < newOut && q.seen.status == CheckedIn
         && c == b.(checkOutAt := newOut, total := q.seen.total + surcharge, durationHours := c.durationHours)
         && -1_800_000 <= newOut - b.checkInAt - c.durationHours * 3_600_000 <= 1_800_000
  }

  ghost predicate RefundExact(b: Row, q: Request, c: Row)
    requires q.op.RefundByAdmin? || q.op.DisputeBookkeeping?
  {
    && c == b.(payment := Refunded, refund := Some(RefundedSoFar(q.seen) + q.op.amount))
    && match q.op
       case RefundByAdmin(amount) =>
         && b.status in {Confirmed, CheckedIn, Completed} && b.status == q.seen.status
         && RefundedSoFar(q.seen) + amount <= q.seen.total
       case DisputeBookkeeping(expected, _) => b.status == expected == Completed
  }

  ghost predicate Exact(b: Row, q: Request, c: Row) {
    match q.op
    case Capture(_, _) => ArrivalExact(b, q, c)
    case CheckIn(_, _) => ArrivalExact(b, q, c)
    case NoShowSweep => ArrivalExact(b, q, c)
    case PaymentTimeout => ArrivalExact(b, q, c)
    case CancelByGuest(_) => CallOffExact(b, q, c)
    case CancelByAdmin => CallOffExact(b, q, c)
    case VoidByAdmin => CallOffExact(b, q, c)
    case RefundByAdmin(_) => RefundExact(b, q, c)
    case DisputeBookkeeping(_, _) => RefundExact(b, q, c)
    case _ => StayExact(b, q, c)
  }

  lemma ArrivalCommits(b: Row, q: Request, clock: int)
    requires Winning(b, q, clock)
    requires q.op.Capture? || q.op.CheckIn? || q.op.NoShowSweep? || q.op.PaymentTimeout?
    ensures ArrivalExact(b, q, Apply(b, q.commit.patch))
  {
  }

  lemma CallOffCommits(b: Row, q: Request, clock: int)
    requires Winning(b, q, clock) && (q.op.CancelByGuest? || q.op.CancelByAdmin? || q.op.VoidByAdmin?)
    ensures CallOffExact(b, q, Apply(b, q.commit.patch))
  {
  }

  lemma StayCommits(b: Row, q: Request, clock: int)
    requires Winning(b, q, clock)
    requires q.op.CheckOut? || q.op.ForceCheckout? || q.op.AutoCheckout? || q.op.Extend?
    ensures StayExact(b, q, Apply(b, q.commit.patch))
  {
  }

  lemma RefundCommits(b: Row, q: Request, clock: int)
    requires Winning(b, q, clock) && (q.op.RefundByAdmin? || q.op.DisputeBookkeeping?)
    ensures RefundExact(b, q, Apply(b, q.commit.patch))
  {
  }

  lemma CommitExact(b: Row, q: Request, clock: int)
    requires Winning(b, q, clock)
    ensures Exact(b, q, Apply(b, q.commit.patch))
  {
    if q.op.Capture? || q.op.CheckIn? || q.op.NoShowSweep? || q.op.PaymentTimeout? {
      ArrivalCommits(b, q, clock);
    } else if q.op.CancelByGuest? || q.op.CancelByAdmin? || q.op.VoidByAdmin? {
      CallOffCommits(b, q, clock);
    } else if q.op.RefundByAdmin? || q.op.DisputeBookkeeping? {
      RefundCommits(b, q, clock);
    } else {
      StayCommits(b, q, clock);
    }
  }

  /** In every run a commit that wins finds its booking as the operation demands, although the
      request may have read it long before: a check-in presents the code the booking holds and
      uses it up, a cancellation gives back what the tiers say of the current price, a void the
      whole of it, and every other field stays as it was. */
  lemma {:induction false} CommitsAreExact(guard: set<BookingStatus>, acts: seq<Action>, k: nat)
    requires Wins(Run(guard, INITIAL, acts), k)
    ensures var s := Run(guard, INITIAL, acts);
            var q, t := s.inFlight[k], Next(guard, s, Finish(k));
            && Exact(s.rows[q.id], q, t.rows[q.id]) && t.rows == s.rows[q.id := t.rows[q.id]]
  {
    RunKeepsInv(guard, acts);
    var s := Run(guard, INITIAL, acts);
    var q := s.inFlight[k];
    assert RequestOk(guard, s, q) && RowOk(s.rows[q.id], s.clock);
    CommitExact(s.rows[q.id], q, s.clock);
    FinishRows(guard, s, k);
  }
}
