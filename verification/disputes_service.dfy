/** The dispute operations and the auto-close sweep, one at a time, over disputes and bookings. */
module DisputeServices {
  import opened Common
  import opened Booking
  import opened DisputeRules
  import opened BookingServices
  import R = Refunds

  datatype Credit = Credit(disputeId: nat, userId: nat, amount: int)

  // Expired disputes, in whatever order the query returns them.
  ghost predicate IsExpiredList(disputes: map<nat, Dispute>, now: int, order: seq<nat>) {
    NoDup(order) && forall k :: k in order <==> k in disputes && Expired(disputes[k], now)
  }

  ghost function CloseAll(s: R.State, order: seq<nat>, now: int): R.State {
    if order == [] then s else R.Step(CloseAll(s, order[..|order| - 1], now), R.AutoClose(order[|order| - 1], now))
  }

  // In the guest's favour: the whole total, at the sweep's clock reading.
  predicate ClosedAs(d: Dispute, total: int, now: int) {
    && d.status == ClosedNoResponse && d.resolution == Some(FullRefund)
    && d.refund == Some(total) && d.resolvedAt == Some(now)
  }

  // What the sweep does to each dispute: expired ones are closed for the guest, the others kept.
  ghost predicate ClosedFor(s: R.State, t: R.State, order: seq<nat>, now: int) {
    && t.disputes.Keys == s.disputes.Keys && t.rows.Keys == s.rows.Keys
    && (forall k :: k in s.disputes && k !in order ==> t.disputes[k] == s.disputes[k])
    && (forall k :: k in s.disputes && k in order && s.disputes[k].bookingId in s.rows ==>
         ClosedAs(t.disputes[k], s.rows[s.disputes[k].bookingId].total, now))
    && (forall id :: id in s.rows ==> t.rows[id].status == s.rows[id].status && t.rows[id].total == s.rows[id].total)
  }

  lemma CloseOne(s: R.State, k: nat, now: int)
    requires k in s.disputes && Expired(s.disputes[k], now) && s.disputes[k].bookingId in s.rows
    ensures var d, t := s.disputes[k], R.Step(s, R.AutoClose(k, now));
            var b := s.rows[d.bookingId];
            && t.disputes == s.disputes[k := Close(d, AutoClosed(b.total), now)]
            && t.rows == if b.total == 0 then s.rows
                         else s.rows[d.bookingId := Apply(b, RefundPatch(RefundedSoFar(b) + b.total))]
  {
    R.BookkeepingAdds(s.rows, s.disputes[k].bookingId, s.rows[s.disputes[k].bookingId].total, now);
  }

  // The one dispute closed, bookings keeping their status and price.
  ghost predicate OneClosed(t: R.State, v: R.State, k: nat) {
    && v.disputes.Keys == t.disputes.Keys && v.rows.Keys == t.rows.Keys
    && (forall j :: j in t.disputes && j != k ==> v.disputes[j] == t.disputes[j])
    && (forall id :: id in t.rows ==> v.rows[id].status == t.rows[id].status && v.rows[id].total == t.rows[id].total)
  }

  lemma StepCloses(t: R.State, k: nat, now: int, v: R.State)
    requires k in t.disputes && Expired(t.disputes[k], now) && v == R.Step(t, R.AutoClose(k, now))
    ensures OneClosed(t, v, k)
    ensures t.disputes[k].bookingId in t.rows ==>
      ClosedAs(v.disputes[k], t.rows[t.disputes[k].bookingId].total, now)
  {
    if t.disputes[k].bookingId in t.rows {
      CloseOne(t, k, now);
    }
  }

  lemma ClosedForSnoc(s: R.State, t: R.State, v: R.State, order: seq<nat>, k: nat, now: int)
    requires ClosedFor(s, t, order, now) && k in s.disputes && k !in order && OneClosed(t, v, k)
    requires s.disputes[k].bookingId in s.rows ==>
      ClosedAs(v.disputes[k], s.rows[s.disputes[k].bookingId].total, now)
    ensures ClosedFor(s, v, order + [k], now)
  {
  }

  lemma ClosedForNext(s: R.State, t: R.State, v: R.State, order: seq<nat>, k: nat, now: int)
    requires ClosedFor(s, t, order, now) && k in s.disputes && k !in order && Expired(s.disputes[k], now)
    requires v == R.Step(t, R.AutoClose(k, now))
    ensures ClosedFor(s, v, order + [k], now)
  {
    StepCloses(t, k, now, v);
    ClosedForSnoc(s, t, v, order, k, now);
  }

  lemma {:induction false} CloseAllCloses(s: R.State, order: seq<nat>, now: int)
    requires NoDup(order) && forall k :: k in order ==> k in s.disputes && Expired(s.disputes[k], now)
    ensures ClosedFor(s, CloseAll(s, order, now), order, now)
  {
    if order != [] {
      var n, k := |order| - 1, order[|order| - 1];
      assert order == order[..n] + [k] && k !in order[..n];
      CloseAllCloses(s, order[..n], now);
      ClosedForNext(s, CloseAll(s, order[..n], now), CloseAll(s, order, now), order[..n], k, now);
    }
  }

  // One turn of the sweep on a dispute whose booking exists.
  function CloseFor(t: R.State, k: nat, now: int): R.State
    requires k in t.disputes && t.disputes[k].bookingId in t.rows
  {
    var d := t.disputes[k];
    var b := t.rows[d.bookingId];
    R.State(t.rows[d.bookingId := Apply(b, RefundPatch(RefundedSoFar(b) + b.total))],
            t.disputes[k := Close(d, AutoClosed(b.total), now)])
  }

  lemma UntouchedSoFar(s: R.State, order: seq<nat>, i: nat, now: int)
    requires IsExpiredList(s.disputes, now, order) && i < |order|
    ensures var t, k := CloseAll(s, order[..i], now), order[i];
            && k in t.disputes && t.disputes[k] == s.disputes[k] && k in s.disputes && Expired(s.disputes[k], now)
            && t.rows.Keys == s.rows.Keys
            && forall id :: id in s.rows ==> t.rows[id].total == s.rows[id].total
  {
    assert order[i] !in order[..i] && order[i] in order;
    forall k | k in order[..i] ensures k in s.disputes && Expired(s.disputes[k], now) {
      assert k in order;
    }
    CloseAllCloses(s, order[..i], now);
  }

  lemma CloseIsCloseFor(t: R.State, k: nat, now: int)
    requires k in t.disputes && Expired(t.disputes[k], now)
    requires t.disputes[k].bookingId in t.rows ==> 0 < t.rows[t.disputes[k].bookingId].total
    ensures R.Step(t, R.AutoClose(k, now)) == if t.disputes[k].bookingId in t.rows then CloseFor(t, k, now) else t
  {
    if t.disputes[k].bookingId in t.rows {
      CloseOne(t, k, now);
    }
  }

  lemma CloseAllNext(s: R.State, order: seq<nat>, i: nat, now: int)
    requires IsExpiredList(s.disputes, now, order) && i < |order|
    requires forall id :: id in s.rows ==> 0 < s.rows[id].total
    ensures var t, u, k := CloseAll(s, order[..i], now), CloseAll(s, order[..i + 1], now), order[i];
            && k in t.disputes && k in s.disputes
            && (t.disputes[k].bookingId in t.rows <==> s.disputes[k].bookingId in s.rows) &&
              t.disputes[k].status in OPEN
            && u == if t.disputes[k].bookingId in t.rows then CloseFor(t, k, now) else t
  {
    UntouchedSoFar(s, order, i, now);
    assert order[..i + 1][..i] == order[..i];
    CloseIsCloseFor(CloseAll(s, order[..i], now), order[i], now);
  }

  // How many of the listed disputes have their booking.
  ghost function WithBooking(s: R.State, order: seq<nat>): nat {
    if order == [] then 0
    else
      var k := order[|order| - 1];
      WithBooking(s, order[..|order| - 1]) + (if k in s.disputes && s.disputes[k].bookingId in s.rows then 1 else 0)
  }

  // The dispute closed by a request: its own status, and the refund it names and no other.
  ghost predicate ResolvedAs(d: Dispute, dto: Request, total: int, now: int, closed: Dispute) {
    && closed == d.(status := closed.status, refund := closed.refund, resolution := Some(dto.kind),
                    resolvedAt := Some(now))
    && match dto.kind
       case FullRefund => closed.status == ResolvedGuest && closed.refund == Some(total)
       case PartialRefund => closed.status == ResolvedPartial && closed.refund == dto.refundAmount
       case NoAction => closed.status == ResolvedHotel && closed.refund == None
       case WalletCredit => closed.status == ResolvedWalletCredit && closed.refund == None
       case Escalation => closed.status == Status.Escalated && closed.refund == None
  }

  // The booking afterwards: what it had been refunded, and the whole total or the part asked for on top.
  function GivenBack(b: Row, dto: Request): Row {
    var refunded := if b.refund.Some? then b.refund.value else 0;
    if dto.kind == FullRefund && b.total != 0 then b.(payment := Refunded, refund := Some(refunded + b.total))
    else if dto.kind == PartialRefund && dto.refundAmount.Some? then
      b.(payment := Refunded, refund := Some(refunded + dto.refundAmount.value))
    else b
  }

  lemma DecidedIsResolved(d: Dispute, b: Row, dto: Request, now: int)
    requires Decide(b.total, dto).Ok?
    ensures var o := Decide(b.total, dto).value;
            && ResolvedAs(d, dto, b.total, now, Close(d, o, now))
            && GivenBack(b, dto) == if Refunds(o) then Apply(b, RefundPatch(RefundedSoFar(b) + o.refund.value)) else b
  {
  }

  // What a resolution that goes through leaves.
  lemma ResolveStep(s: R.State, id: nat, dto: Request, now: int, o: DisputeRules.Outcome)
    requires id in s.disputes && s.disputes[id].bookingId in s.rows && s.disputes[id].status in OPEN
    requires Decide(s.rows[s.disputes[id].bookingId].total, dto) == Ok(o)
    ensures R.Step(s, R.Resolve(id, dto, now)) == R.State(
              s.rows[s.disputes[id].bookingId := GivenBack(s.rows[s.disputes[id].bookingId], dto)],
              s.disputes[id := Close(s.disputes[id], o, now)])
  {
    var b := s.rows[s.disputes[id].bookingId];
    DecidedIsResolved(s.disputes[id], b, dto, now);
    if Refunds(o) {
      R.BookkeepingAdds(s.rows, s.disputes[id].bookingId, o.refund.value, now);
    } else {
      assert s.rows[s.disputes[id].bookingId := b] == s.rows;
    }
  }

  ghost function Closable(s: R.State, order: seq<nat>): set<nat> {
    set k | k in order && k in s.disputes && s.disputes[k].bookingId in s.rows
  }

  lemma ClosableSnoc(s: R.State, order: seq<nat>, k: nat)
    requires k !in order
    ensures |Closable(s, order + [k])|
            == |Closable(s, order)| + (if k in s.disputes && s.disputes[k].bookingId in s.rows then 1 else 0)
  {
    assert Closable(s, order + [k])
        == if k in s.disputes && s.disputes[k].bookingId in s.rows then Closable(s, order) + {k}
           else Closable(s, order);
  }

  lemma {:induction false} BookingsCounted(s: R.State, order: seq<nat>)
    requires NoDup(order)
    ensures WithBooking(s, order) == |Closable(s, order)|
  {
    if order != [] {
      var n, k := |order| - 1, order[|order| - 1];
      assert order == order[..n] + [k] && k !in order[..n];
      BookingsCounted(s, order[..n]);
      ClosableSnoc(s, order[..n], k);
    }
  }

  class DisputesService {
    const bookings: BookingsRepository
    var disputes: map<nat, Dispute>
    var credits: seq<Credit>

    ghost function State(): R.State reads this, bookings { R.State(bookings.rows, disputes) }

    constructor (bookings: BookingsRepository)
      ensures this.bookings == bookings && disputes == map[] && credits == []
    {
      this.bookings := bookings;
      disputes, credits := map[], [];
    }

    method UpdateIfStatus(id: nat, from: set<Status>, d: Dispute) returns (updated: bool)
      modifies this`disputes
      ensures updated <==> id in old(disputes) && old(disputes)[id].status in from
      ensures disputes == if updated then old(disputes)[id := d] else old(disputes)
    {
      if id !in disputes || disputes[id].status !in from { return false; }
      disputes := disputes[id := d];
      return true;
    }

    method FileDispute(newId: nat, bookingId: nat, guestId: nat, now: int, stamp: int) returns (r: Result<Dispute>)
      requires newId !in disputes
      modifies this`disputes
      ensures State() == R.Step(old(State()), R.File(newId, bookingId, guestId, now, stamp))
      ensures r.Ok? <==> newId in disputes
      ensures r.Ok? ==> r.value == disputes[newId]
      ensures r.Ok? <==>
        && bookingId in bookings.rows && bookings.rows[bookingId].guestId == guestId
        && bookings.rows[bookingId].status == Completed && bookings.rows[bookingId].checkedOutAt.Some?
        && now <= bookings.rows[bookingId].checkedOutAt.value + 172_800_000
        && forall k :: k in old(disputes) ==> old(disputes)[k].bookingId != bookingId
      ensures r.Ok? ==>
        && r.value == Dispute(bookingId, guestId, Filed, None, None, None, stamp + 604_800_000, None)
        && disputes == old(disputes)[newId := r.value]
      ensures r.Err? ==> disputes == old(disputes)
    {
      if bookingId !in bookings.rows { return Err(NotFound); }
      var booking := bookings.rows[bookingId];
      if booking.guestId != guestId { return Err(NotFound); }
      if booking.status != Completed { return Err(ApiError.Conflict); }
      if booking.checkedOutAt.None? || now - booking.checkedOutAt.value > FILING_WINDOW { return Err(Forbidden); }
      if exists k :: k in disputes && disputes[k].bookingId == bookingId { return Err(ApiError.Conflict); }
      var dispute := Dispute(bookingId, guestId, Filed, None, None, None, stamp + RESOLUTION_WINDOW, None);
      disputes := disputes[newId := dispute];
      return Ok(dispute);
    }

    method GetDetail(id: nat) returns (r: Result<Dispute>)
      modifies this`disputes
      ensures id !in old(disputes) ==> r == Err(NotFound) && disputes == old(disputes)
      ensures id in old(disputes) ==>
        && id in disputes && r == Ok(disputes[id])
        && disputes == if old(disputes)[id].status == Filed
                       then old(disputes)[id := old(disputes)[id].(status := UnderReview)] else old(disputes)
    {
      if id !in disputes { return Err(NotFound); }
      var dispute := disputes[id];
      if dispute.status == Filed {
        var updated := UpdateIfStatus(id, {Filed}, dispute.(status := UnderReview));
        if updated { dispute := disputes[id]; }
      }
      return Ok(dispute);
    }

    method RequestResponse(id: nat, now: int) returns (r: Result<Dispute>)
      modifies this`disputes
      ensures id !in old(disputes) ==> r == Err(NotFound)
      ensures id in old(disputes) ==> (r.Ok? <==> old(disputes)[id].status in {Filed, UnderReview})
      ensures r.Ok? ==>
        && r.value
           == old(disputes)[id].(status := AwaitingHotelResponse, responseDeadline := Some(now + 172_800_000))
        && disputes == old(disputes)[id := r.value]
        && MayRespond(r.value, now + 172_800_000) && !MayRespond(r.value, now + 172_800_001)
      ensures r.Err? ==> disputes == old(disputes)
    {
      if id !in disputes { return Err(NotFound); }
      var asked := disputes[id].(status := AwaitingHotelResponse, responseDeadline := Some(now + RESPONSE_WINDOW));
      var updated := UpdateIfStatus(id, {Filed, UnderReview}, asked);
      if !updated { return Err(ApiError.Conflict); }
      return Ok(asked);
    }

    method SubmitHotelResponse(id: nat, allowed: bool, now: int) returns (r: Result<Dispute>)
      modifies this`disputes
      ensures r.Ok? <==>
        && id in old(disputes) && allowed && old(disputes)[id].status == AwaitingHotelResponse
        && old(disputes)[id].responseDeadline.Some? && now <= old(disputes)[id].responseDeadline.value
      ensures disputes == if r.Ok? then old(disputes)[id := old(disputes)[id].(status := UnderReview)]
        else old(disputes)
    {
      if id !in disputes { return Err(NotFound); }
      var dispute := disputes[id];
      if !allowed { return Err(Forbidden); }
      if dispute.status != AwaitingHotelResponse || dispute.responseDeadline.None?
         || now > dispute.responseDeadline.value {
        return Err(ApiError.Conflict);
      }
      var updated := UpdateIfStatus(id, {AwaitingHotelResponse}, dispute.(status := UnderReview));
      if !updated { return Err(ApiError.Conflict); }
      return Ok(disputes[id]);
    }

    // The status a resolution leaves and the refund it gives, if the request is acceptable.
    method Outcome(dto: Request, total: int) returns (r: Result<(Status, Option<int>)>)
      ensures match Decide(total, dto)
              case Ok(o) => r == Ok((o.status, o.refund))
              case Err(e) => r == Err(e)
    {
      match dto.kind {
        case FullRefund =>
          return Ok((ResolvedGuest, Some(total)));
        case PartialRefund =>
          if dto.refundAmount.None? || dto.refundAmount.value <= 0 { return Err(BadRequest); }
          if dto.refundAmount.value > total { return Err(BadRequest); }
          return Ok((ResolvedPartial, dto.refundAmount));
        case NoAction =>
          return Ok((ResolvedHotel, None));
        case WalletCredit =>
          if dto.creditAmount.None? || dto.creditAmount.value <= 0 { return Err(BadRequest); }
          return Ok((ResolvedWalletCredit, None));
        case Escalation =>
          return Ok((Status.Escalated, None));
      }
    }

    /** A resolution closes an open dispute once, with the refund in the same transaction
        or the wallet credit right after; a second one conflicts and changes nothing. */
    method Resolve(id: nat, dto: Request, now: int) returns (r: Result<Dispute>)
      modifies this, bookings
      ensures r.Ok? <==> id in old(disputes) && old(disputes)[id].bookingId in old(bookings.rows)
                         && Decide(old(bookings.rows)[old(disputes)[id].bookingId].total, dto).Ok?
                         && old(disputes)[id].status in {Filed, UnderReview, AwaitingHotelResponse}
      ensures State() == R.Step(old(State()), R.Resolve(id, dto, now))
      ensures r.Ok? ==>
        var d := old(disputes)[id];
        var b := old(bookings.rows)[d.bookingId];
        && ResolvedAs(d, dto, b.total, now, r.value) && disputes == old(disputes)[id := r.value]
        && bookings.rows == old(bookings.rows)[d.bookingId := GivenBack(b, dto)]
      ensures credits == if r.Ok? && dto.kind == WalletCredit
                         then old(credits) + [Credit(id, old(disputes)[id].guestId, dto.creditAmount.value)]
                         else old(credits)
      ensures r.Err? ==> disputes == old(disputes) && bookings.rows == old(bookings.rows)
    {
      if id !in disputes { return Err(NotFound); }
      var dispute := disputes[id];
      if dispute.bookingId !in bookings.rows { return Err(NotFound); }
      var booking := bookings.rows[dispute.bookingId];
      var decided := Outcome(dto, booking.total);
      if decided.Err? { return Err(decided.error); }
      var (status, refund) := decided.value;
      var closed := dispute.(status := status, resolution := Some(dto.kind), refund := refund, resolvedAt := Some(now));
      ghost var outcome := Decide(booking.total, dto).value;
      DecidedIsResolved(dispute, booking, dto, now);
      if dispute.status in OPEN { ResolveStep(State(), id, dto, now, outcome); }
      var updated := UpdateIfStatus(id, OPEN, closed);
      if !updated { return Err(ApiError.Conflict); }
      if refund.Some? && refund.value != 0 {
        var b := bookings.rows[dispute.bookingId];
        bookings.rows := bookings.rows[dispute.bookingId := Apply(b, RefundPatch(RefundedSoFar(b) + refund.value))];
      } else {
        assert bookings.rows[dispute.bookingId := booking] == bookings.rows;
      }
      if dto.kind == WalletCredit {
        credits := credits + [Credit(id, dispute.guestId, dto.creditAmount.value)];
      }
      return Ok(closed);
    }

    method FindExpired(now: int) returns (order: seq<nat>)
      ensures IsExpiredList(disputes, now, order)
      ensures forall k :: k in order <==>
        && k in disputes && disputes[k].status in {Filed, UnderReview, AwaitingHotelResponse}
        && disputes[k].resolutionDeadline < now
    {
      order := [];
      var left := disputes.Keys;
      while left != {}
        invariant left <= disputes.Keys && NoDup(order)
        invariant forall k :: k in order <==> k in disputes && k !in left && Expired(disputes[k], now)
        decreases |left|
      {
        var k :| k in left;
        left := left - {k};
        if Expired(disputes[k], now) {
          NoDupSnoc(order, k);
          order := order + [k];
        }
      }
    }

    method ApplyRefundBookkeeping(bookingId: nat, from: BookingStatus, amount: int)
      modifies bookings
      ensures bookings.rows ==
        if bookingId in old(bookings.rows) && old(bookings.rows)[bookingId].status == from
        then var b := old(bookings.rows)[bookingId];
             old(bookings.rows)[bookingId :=
               b.(payment := Refunded, refund := Some(amount + if b.refund.Some? then b.refund.value else 0))]
        else old(bookings.rows)
    {
      if bookingId !in bookings.rows { return; }
      var booking := bookings.rows[bookingId];
      var _ := bookings.UpdateRow(bookingId, {from}, RefundPatch(RefundedSoFar(booking) + amount));
    }

    // The body of the sweep's loop.
    method CloseExpired(k: nat, now: int) returns (done: bool)
      requires k in disputes && disputes[k].status in OPEN
      modifies this`disputes, bookings
      ensures done <==> old(disputes)[k].bookingId in old(bookings.rows)
      ensures State() == if done then CloseFor(old(State()), k, now) else old(State())
      ensures done ==>
        var d := old(disputes)[k];
        var b := old(bookings.rows)[d.bookingId];
        && disputes == old(disputes)[k := d.(status := ClosedNoResponse, resolution := Some(FullRefund),
                                             refund := Some(b.total), resolvedAt := Some(now))]
        && bookings.rows == old(bookings.rows)[d.bookingId :=
             b.(payment := Refunded, refund := Some(b.total + if b.refund.Some? then b.refund.value else 0))]
    {
      var dispute := disputes[k];
      if dispute.bookingId !in bookings.rows { return false; }
      var booking := bookings.rows[dispute.bookingId];
      var updated := UpdateIfStatus(k, OPEN,
        dispute.(status := ClosedNoResponse, resolution := Some(FullRefund), refund := Some(booking.total),
          resolvedAt := Some(now)));
      if !updated { return false; }
      ApplyRefundBookkeeping(dispute.bookingId, booking.status, booking.total);
      return true;
    }

    /** Every expired dispute whose booking exists is closed for the guest, and counted. */
    method RunAutoClose(now: int) returns (closed: nat, ghost order: seq<nat>)
      requires forall id :: id in bookings.rows ==> 0 < bookings.rows[id].total
      modifies this`disputes, bookings
      ensures IsExpiredList(old(disputes), now, order)
      ensures State() == CloseAll(old(State()), order, now)
      ensures closed == |set k | k in old(disputes) && old(disputes)[k].bookingId in old(bookings.rows)
                                 && old(disputes)[k].status in {Filed, UnderReview, AwaitingHotelResponse}
                                 && old(disputes)[k].resolutionDeadline < now|
    {
      var expired := FindExpired(now);
      order, closed := expired, 0;
      ghost var start := State();
      for i := 0 to |expired|
        invariant State() == CloseAll(start, expired[..i], now)
        invariant closed == WithBooking(start, expired[..i])
      {
        CloseAllNext(start, expired, i, now);
        assert expired[..i + 1][..i] == expired[..i];
        var done := CloseExpired(expired[i], now);
        if !done { continue; }
        closed := closed + 1;
      }
      assert expired[..|expired|] == expired;
      BookingsCounted(start, expired);
      assert Closable(start, expired)
          == set k | k in start.disputes && start.disputes[k].bookingId in start.rows
                     && start.disputes[k].status in {Filed, UnderReview, AwaitingHotelResponse}
                     && start.disputes[k].resolutionDeadline < now;
    }
  }
}
