/** The guest-facing booking operations and the scheduled sweeps over the bookings table. */
module BookingServices {
  import opened Common
  import opened Money
  import opened Booking
  import opened Lifecycle
  import opened RoomHolding
  import Properties
  import Onboarding
  import P = OnboardingProtocol

  const DEFAULT_MIN_HOURS: nat := 3

  datatype BookingRequest = BookingRequest(
    propertyId: nat, roomKind: Properties.Category, kind: BookingType, checkInAt: int,
    durationHours: Option<nat>, guestCount: nat)

  // Four room categories per property.
  function RoomTypeId(propertyId: nat, k: Properties.Category): nat {
    4 * propertyId + (match k case Ac => 0 case NonAc => 1 case Dorm => 2 case Suite => 3)
  }

  function HoursFor(p: Properties.Property, q: BookingRequest): Result<nat> {
    if q.kind == FullDay then Ok(FULLDAY_HOURS)
    else
      var least := if p.minHours.Some? then p.minHours.value else DEFAULT_MIN_HOURS;
      var hours := if q.durationHours.Some? then q.durationHours.value else least;
      if hours < least then Err(BadRequest) else Ok(hours)
  }

  predicate Fits(room: Properties.Room, guests: nat) { room.maxOccupancy.Some? ==> guests <= room.maxOccupancy.value }

  // Everything a new booking is checked for and priced from, short of the room count.
  function Quote(p: Option<Properties.Property>, guestId: nat, q: BookingRequest, pct: int,
          now: int): Result<NewBooking> {
    if p.None? then Err(NotFound)
    else
      var rate := Onboarding.RateFor(p.value, q.roomKind, q.kind);
      var hours := HoursFor(p.value, q);
      if rate == Err(NotFound) then Err(NotFound)
      else if rate.Err? || hours.Err? then Err(BadRequest)
      else if q.checkInAt < now - PAST_GRACE || q.checkInAt > now + HORIZON then Err(BadRequest)
      else if !Fits(p.value.rooms[q.roomKind], q.guestCount) then Err(BadRequest)
      else Ok(NewBooking(q.propertyId, RoomTypeId(q.propertyId, q.roomKind), p.value.ownerId, guestId,
                         q.kind, q.checkInAt, hours.value, rate.value, pct))
  }

  lemma HoursPositive(p: Properties.Property, q: BookingRequest)
    requires Onboarding.HoursOk(p.minHours)
    ensures HoursFor(p, q).Ok? ==> HoursFor(p, q).value >= 1
  {
  }

  // No two categories share a room type, of one property or of two.
  lemma RoomTypesApart(p: nat, j: Properties.Category, o: nat, k: Properties.Category)
    ensures RoomTypeId(p, j) == RoomTypeId(o, k) <==> p == o && j == k
  {
  }

  // The least number of hours the property takes an hourly booking for.
  function LeastHours(p: Properties.Property): nat { if p.minHours.Some? then p.minHours.value else 3 }

  /** What is quoted is what was asked for: the guest, property, category, kind and arrival of
      the request, the hours asked for (else the least the property takes; 24 for a full day),
      and the room's own rate for that kind. */
  lemma QuoteTerms(p: Properties.Property, guestId: nat, q: BookingRequest, pct: int, now: int)
    requires Quote(Some(p), guestId, q, pct, now).Ok?
    ensures var n := Quote(Some(p), guestId, q, pct, now).value;
            && p.status == Properties.Approved && q.roomKind in p.rooms
            && n.guestId == guestId && n.propertyId == q.propertyId && n.ownerId == p.ownerId
            && n.roomTypeId == RoomTypeId(q.propertyId, q.roomKind)
            && n.kind == q.kind && n.checkInAt == q.checkInAt && n.commissionPct == pct
            && now - 600_000 <= q.checkInAt <= now + 7_776_000_000
            && (q.kind == Hourly ==>
                 && p.policy in {Some(Properties.HourlyOnly), Some(Properties.Both)}
                 && p.rooms[q.roomKind].hourly == Some(n.rate) && LeastHours(p) <= n.hours
                 && n.hours == if q.durationHours.Some? then q.durationHours.value else LeastHours(p))
            && (q.kind == FullDay ==>
                 && p.policy in {Some(Properties.FullDayOnly), Some(Properties.Both)}
                 && p.rooms[q.roomKind].fullday == Some(n.rate) && n.hours == 24)
            && (p.rooms[q.roomKind].maxOccupancy.Some? ==> q.guestCount <= p.rooms[q.roomKind].maxOccupancy.value)
  {
  }

  /** For a property approved in a run with safe approvals, the only grounds for refusing a
      quote are the request's own: a kind of booking the policy does not sell, too few hours, a
      date more than ten minutes ago or ninety days ahead, too many guests. What is quoted is a
      booking the allocation protocol accepts, priced above zero. */
  lemma {:induction false} QuoteExact(g: P.Guards, ownerId: nat, ms: seq<P.Move>, guestId: nat, q: BookingRequest,
          pct: int, now: int)
    requires P.SafeApprovals(g, ownerId, ms) && P.Run(g, ownerId, ms).p.status == Properties.Approved
    requires IsPct(pct) && q.roomKind in P.Run(g, ownerId, ms).p.rooms
    ensures var p := P.Run(g, ownerId, ms).p;
            var quote := Quote(Some(p), guestId, q, pct, now);
            && p.policy.Some?
            && (quote.Ok? <==>
                 && (p.policy == Some(Properties.Both)
                     || p.policy == Some(if q.kind == Hourly then Properties.HourlyOnly else Properties.FullDayOnly))
                 && (q.kind == Hourly && q.durationHours.Some? ==> LeastHours(p) <= q.durationHours.value)
                 && now - 600_000 <= q.checkInAt <= now + 7_776_000_000
                 && (p.rooms[q.roomKind].maxOccupancy.Some? ==>
                      q.guestCount <= p.rooms[q.roomKind].maxOccupancy.value))
            && (quote.Ok? ==> InRange(quote.value) && CheckInAcceptable(quote.value, now))
  {
    P.ApprovedIsBookable(g, ownerId, ms, q.roomKind, q.kind);
    HoursPositive(P.Run(g, ownerId, ms).p, q);
  }

  class BookingsRepository {
    var rows: Table

    constructor ()
      ensures rows == map[]
    {
      rows := map[];
    }

    // Serializable transaction: count, compare with the room count read before, insert.
    method CreateWithOverlapCheck(id: nat, data: Row, roomCount: nat) returns (created: bool)
      requires id !in rows
      modifies this
      ensures created <==>
        |set j | j in old(rows) && old(rows)[j].roomTypeId == data.roomTypeId
                 && old(rows)[j].status in {PendingPayment, Confirmed, CheckedIn}
                 && old(rows)[j].checkInAt < data.checkOutAt && data.checkInAt < old(rows)[j].checkOutAt| < roomCount
      ensures rows == if created then old(rows)[id := data] else old(rows)
    {
      var overlapping := Overlapping(rows, data.roomTypeId, data.checkInAt, data.checkOutAt);
      CountedExact(rows, data.roomTypeId, data.checkInAt, data.checkOutAt);
      if |overlapping| >= roomCount { return false; }
      rows := rows[id := data];
      return true;
    }

    method HasOverlappingBooking(roomTypeId: nat, checkInAt: int, checkOutAt: int, exclude: nat) returns (found: bool)
      ensures found <==> exists id :: id in rows && id != exclude && rows[id].roomTypeId == roomTypeId
                                      && rows[id].status in {PendingPayment, Confirmed, CheckedIn}
                                      && rows[id].checkInAt < checkOutAt && checkInAt < rows[id].checkOutAt
    {
      var others := Overlapping(rows, roomTypeId, checkInAt, checkOutAt) - {exclude};
      OverlapExists(rows, roomTypeId, checkInAt, checkOutAt, exclude);
      return |others| > 0;
    }

    method UpdateRow(id: nat, from: set<BookingStatus>, p: Patch) returns (updated: Option<Row>)
      modifies this
      ensures (rows, updated.Some?) == UpdateIfStatus(old(rows), id, from, p)
      ensures updated.Some? ==> id in rows && updated.value == rows[id]
    {
      if id !in rows || rows[id].status !in from { return None; }
      rows := rows[id := Apply(rows[id], p)];
      return Some(rows[id]);
    }

    // The three sweep queries: rows in the sweep's status whose deadline has passed.
    method FindDue(op: Op, t: int) returns (due: seq<nat>)
      requires IsSweep(op)
      ensures NoDup(due) && forall id :: id in due <==> id in DueIds(rows, op, t)
    {
      due := [];
      var left := rows.Keys;
      while left != {}
        invariant left <= rows.Keys && NoDup(due)
        invariant forall id :: id in due <==> id in DueIds(rows, op, t) && id !in left
        decreases |left|
      {
        var id :| id in left;
        left := left - {id};
        var b := rows[id];
        var isDue := match op
          case AutoCheckout => b.status == CheckedIn && b.checkOutAt <= t
          case NoShowSweep => b.status == Confirmed && b.checkInAt < t - NO_SHOW_GRACE
          case _ => b.status == PendingPayment && b.createdAt < t - PAYMENT_TIMEOUT;
        if isDue {
          NoDupSnoc(due, id);
          due := due + [id];
        }
      }
    }
  }

  // What one operation does to the table and the event log, and what it answers.
  ghost predicate Executed(before: Table, after: Table, log: seq<Emitted>, log': seq<Emitted>,
                           id: nat, op: Op, t: int, r: Result<Row>) {
    && after == Execute(before, id, op, t).0 && r == Execute(before, id, op, t).1
    && log' == if r.Ok? then log + EmittedFor(id, before[id].status, after[id].status) else log
  }

  // Sweeping some of the due rows.
  function SweptSome(rows: Table, op: Op, t: int, ids: seq<nat>): Table {
    map id | id in rows ::
      if id in ids && Plan(op, rows[id], t).Ok? then Apply(rows[id], Plan(op, rows[id], t).value.patch) else rows[id]
  }

  function EventsFor(ids: seq<nat>, event: Event): seq<Emitted> {
    seq(|ids|, i requires 0 <= i < |ids| => Emitted(ids[i], event))
  }

  lemma SweptSnoc(rows: Table, op: Op, t: int, ids: seq<nat>, id: nat)
    requires id in rows && id !in ids && Plan(op, rows[id], t).Ok?
    ensures SweptSome(rows, op, t, ids)[id] == rows[id]
    ensures SweptSome(rows, op, t, ids + [id]) ==
      SweptSome(rows, op, t, ids)[id := Apply(rows[id], Plan(op, rows[id], t).value.patch)]
  {
  }

  lemma SweepNext(rows: Table, op: Op, t: int, found: seq<nat>, i: nat, c: Commit)
    requires i < |found| && NoDup(found) && found[i] in rows
    requires Plan(op, rows[found[i]], t) == Ok(c) && rows[found[i]].status in c.from
    ensures var now, next := SweptSome(rows, op, t, found[..i]), SweptSome(rows, op, t, found[..i + 1]);
            UpdateIfStatus(now, found[i], c.from, c.patch) == (next, true)
  {
    assert found[..i + 1] == found[..i] + [found[i]] && found[i] !in found[..i];
    SweptSnoc(rows, op, t, found[..i], found[i]);
  }

  lemma EventsNext(found: seq<nat>, i: nat, event: Event)
    requires i < |found|
    ensures EventsFor(found[..i + 1], event) == EventsFor(found[..i], event) + [Emitted(found[i], event)]
  {
  }

  class BookingsService {
    const repo: BookingsRepository
    var events: seq<Emitted>

    constructor (repo: BookingsRepository)
      ensures this.repo == repo && events == []
    {
      this.repo := repo;
      events := [];
    }

    method AssertBookingTypeAllowed(requested: BookingType, policy: Option<Properties.Policy>) returns (ok: bool)
      ensures ok <==> policy.Some? && Properties.Sells(policy.value, requested)
    {
      if policy.None? { return false; }
      if policy.value == Properties.Both { return true; }
      return (policy.value == Properties.HourlyOnly) == (requested == Hourly);
    }

    /** Quoted and admitted, or refused with the table untouched: not found and bad
        requests as `Quote` says, a conflict exactly when no room is left. */
    method CreateBooking(newId: nat, guestId: nat, q: BookingRequest, properties: map<nat, Properties.Property>,
            pct: int, now: int)
      returns (r: Result<Row>)
      requires newId !in repo.rows
      modifies repo
      ensures var p := if q.propertyId in properties then Some(properties[q.propertyId]) else None;
              match Quote(p, guestId, q, pct, now)
              case Err(e) => r == Err(e) && repo.rows == old(repo.rows)
              case Ok(n) =>
                var held := set j | j in old(repo.rows) && old(repo.rows)[j].roomTypeId == n.roomTypeId
                                    && old(repo.rows)[j].status in {PendingPayment, Confirmed, CheckedIn}
                                    && old(repo.rows)[j].checkInAt < CheckOutFor(n)
                                    && n.checkInAt < old(repo.rows)[j].checkOutAt;
                if |held| < properties[q.propertyId].rooms[q.roomKind].count
                then r == Ok(FreshRow(n, now)) && repo.rows == old(repo.rows)[newId := FreshRow(n, now)]
                else r == Err(Conflict) && repo.rows == old(repo.rows)
    {
      if q.propertyId !in properties { return Err(NotFound); }
      var property := properties[q.propertyId];
      if property.status != Properties.Approved { return Err(NotFound); }
      if q.roomKind !in property.rooms { return Err(NotFound); }
      var roomType := property.rooms[q.roomKind];
      var allowed := AssertBookingTypeAllowed(q.kind, property.policy);
      if !allowed { return Err(BadRequest); }
      if q.checkInAt < now - PAST_GRACE { return Err(BadRequest); }
      if q.checkInAt > now + HORIZON { return Err(BadRequest); }
      var durationHours := FULLDAY_HOURS;
      if q.kind == Hourly {
        var minHours := if property.minHours.Some? then property.minHours.value else DEFAULT_MIN_HOURS;
        durationHours := if q.durationHours.Some? then q.durationHours.value else minHours;
        if durationHours < minHours { return Err(BadRequest); }
      }
      if roomType.maxOccupancy.Some? && q.guestCount > roomType.maxOccupancy.value { return Err(BadRequest); }
      var rate := if q.kind == Hourly then roomType.hourly else roomType.fullday;
      if rate.None? { return Err(BadRequest); }
      var data := FreshRow(NewBooking(q.propertyId, RoomTypeId(q.propertyId, q.roomKind), property.ownerId, guestId,
                                      q.kind, q.checkInAt, durationHours, rate.value, pct), now);
      CountedExact(repo.rows, data.roomTypeId, data.checkInAt, data.checkOutAt);
      var created := repo.CreateWithOverlapCheck(newId, data, roomType.count);
      if !created { return Err(Conflict); }
      return Ok(data);
    }

    method CheckIn(id: nat, guest: nat, code: nat, now: int) returns (r: Result<Row>)
      modifies this`events, repo
      ensures Executed(old(repo.rows), repo.rows, old(events), events, id, Op.CheckIn(guest, code), now, r)
      ensures r.Ok? <==>
        && id in old(repo.rows)
        && var b := old(repo.rows)[id]; 
           && b.guestId == guest && b.status == Confirmed && b.qrCode == Some(code)
           && b.checkInAt - 900_000 <= now <= b.checkInAt + 1_800_000
      ensures r.Ok? ==>
        && var b := old(repo.rows)[id];
        && r.value == b.(status := CheckedIn, checkedInAt := Some(now), qrCode := None)
        && repo.rows == old(repo.rows)[id := r.value] && events == old(events) + [Emitted(id, BookingCheckedIn)]
      ensures r.Err? ==> repo.rows == old(repo.rows) && events == old(events)
    {
      if id !in repo.rows { return Err(NotFound); }
      var booking := repo.rows[id];
      if booking.guestId != guest { return Err(NotFound); }
      if booking.status != Confirmed { return Err(Conflict); }
      if booking.qrCode.None? || booking.qrCode.value != code { return Err(Conflict); }
      if now < booking.checkInAt - EARLY_WINDOW || now > booking.checkInAt + NO_SHOW_GRACE { return Err(Conflict); }
      var updated := repo.UpdateRow(id, {Confirmed}, CheckInPatch(now));
      if updated.None? { return Err(Conflict); }
      events := events + [Emitted(id, BookingCheckedIn)];
      return Ok(updated.value);
    }

    method CheckOut(id: nat, guest: nat, now: int) returns (r: Result<Row>)
      modifies this`events, repo
      ensures Executed(old(repo.rows), repo.rows, old(events), events, id, Op.CheckOut(guest), now, r)
      ensures r.Ok? <==>
        && id in old(repo.rows)
        && var b := old(repo.rows)[id]; b.guestId == guest && b.status == CheckedIn
      ensures r.Ok? ==>
        && var b := old(repo.rows)[id];
        && r.value == b.(status := Completed, checkedOutAt := Some(now))
        && repo.rows == old(repo.rows)[id := r.value] && events == old(events) + [Emitted(id, BookingCheckedOut)]
      ensures r.Err? ==> repo.rows == old(repo.rows) && events == old(events)
    {
      if id !in repo.rows { return Err(NotFound); }
      var booking := repo.rows[id];
      if booking.guestId != guest { return Err(NotFound); }
      if booking.status != CheckedIn { return Err(Conflict); }
      var updated := repo.UpdateRow(id, {CheckedIn}, CheckOutPatch(now));
      if updated.None? { return Err(Conflict); }
      events := events + [Emitted(id, BookingCheckedOut)];
      return Ok(updated.value);
    }

    method Cancel(id: nat, guest: nat, now: int) returns (r: Result<Row>)
      modifies this`events, repo
      ensures Executed(old(repo.rows), repo.rows, old(events), events, id, CancelByGuest(guest), now, r)
      ensures r.Ok? <==>
        && id in old(repo.rows)
        && var b := old(repo.rows)[id]; b.guestId == guest && b.status == Confirmed
      ensures r.Ok? ==>
        && var b := old(repo.rows)[id];
        && r.value == b.(status := Cancelled, cancelledAt := Some(now), cancelledBy := Some(Guest),
                         refund := Some(CancellationRefund(b, now)))
        && repo.rows == old(repo.rows)[id := r.value] && events == old(events) + [Emitted(id, BookingCancelled)]
      ensures r.Err? ==> repo.rows == old(repo.rows) && events == old(events)
    {
      if id !in repo.rows { return Err(NotFound); }
      var booking := repo.rows[id];
      if booking.guestId != guest { return Err(NotFound); }
      if booking.status != Confirmed { return Err(Conflict); }
      var refund := CancellationRefund(booking, now);
      var updated := repo.UpdateRow(id, {Confirmed}, CancelPatch(now, Guest, refund));
      if updated.None? { return Err(Conflict); }
      events := events + [Emitted(id, BookingCancelled)];
      return Ok(updated.value);
    }

    method RunAutoCheckout(now: int) returns (processed: nat, ghost due: seq<nat>)
      modifies this`events, repo
      ensures repo.rows == Swept(old(repo.rows), AutoCheckout, now)
      ensures NoDup(due) && (forall id :: id in due <==> id in DueIds(old(repo.rows), AutoCheckout, now))
      ensures processed == |due| && events == old(events) + EventsFor(due, BookingCheckedOut)
      ensures forall id :: id in due <==>
        id in old(repo.rows) && var b := old(repo.rows)[id]; b.status == CheckedIn && b.checkOutAt <= now
      ensures repo.rows.Keys == old(repo.rows).Keys && forall id :: id in repo.rows ==>
        var b := old(repo.rows)[id];
        repo.rows[id] == if id in due then b.(status := Completed, checkedOutAt := Some(b.checkOutAt)) else b
    {
      var found := repo.FindDue(AutoCheckout, now);
      due, processed := found, 0;
      var seen := repo.rows;
      for i := 0 to |found|
        invariant repo.rows == SweptSome(seen, AutoCheckout, now, found[..i])
        invariant processed == i && events == old(events) + EventsFor(found[..i], BookingCheckedOut)
      {
        assert found[i] in DueIds(seen, AutoCheckout, now);
        SweepNext(seen, AutoCheckout, now, found, i, Commit({CheckedIn}, CheckOutPatch(seen[found[i]].checkOutAt)));
        EventsNext(found, i, BookingCheckedOut);
        var updated := repo.UpdateRow(found[i], {CheckedIn}, CheckOutPatch(seen[found[i]].checkOutAt));
        if updated.None? { continue; }
        processed := processed + 1;
        events := events + [Emitted(found[i], BookingCheckedOut)];
      }
      assert found[..|found|] == found;
    }

    method RunNoShowDetection(now: int) returns (processed: nat, ghost due: seq<nat>)
      modifies this`events, repo
      ensures repo.rows == Swept(old(repo.rows), NoShowSweep, now)
      ensures NoDup(due) && (forall id :: id in due <==> id in DueIds(old(repo.rows), NoShowSweep, now))
      ensures processed == |due| && events == old(events) + EventsFor(due, BookingNoShow)
      ensures forall id :: id in due <==>
        id in old(repo.rows) && var b := old(repo.rows)[id]; b.status == Confirmed && b.checkInAt + 1_800_000 < now
      ensures repo.rows.Keys == old(repo.rows).Keys && forall id :: id in repo.rows ==>
        var b := old(repo.rows)[id];
        repo.rows[id] == if id in due then b.(status := NoShow, noShowAt := Some(now)) else b
    {
      var found := repo.FindDue(NoShowSweep, now);
      due, processed := found, 0;
      ghost var seen := repo.rows;
      for i := 0 to |found|
        invariant repo.rows == SweptSome(seen, NoShowSweep, now, found[..i])
        invariant processed == i && events == old(events) + EventsFor(found[..i], BookingNoShow)
      {
        assert found[i] in DueIds(seen, NoShowSweep, now);
        SweepNext(seen, NoShowSweep, now, found, i, Commit({Confirmed}, NoShowPatch(now)));
        EventsNext(found, i, BookingNoShow);
        var updated := repo.UpdateRow(found[i], {Confirmed}, NoShowPatch(now));
        if updated.None? { continue; }
        processed := processed + 1;
        events := events + [Emitted(found[i], BookingNoShow)];
      }
      assert found[..|found|] == found;
    }

    method RunPaymentTimeouts(now: int) returns (processed: nat, ghost due: seq<nat>)
      modifies this`events, repo
      ensures repo.rows == Swept(old(repo.rows), PaymentTimeout, now)
      ensures NoDup(due) && (forall id :: id in due <==> id in DueIds(old(repo.rows), PaymentTimeout, now))
      ensures processed == |due| && events == old(events) + EventsFor(due, BookingCancelled)
      ensures forall id :: id in due <==>
        && id in old(repo.rows)
        && var b := old(repo.rows)[id]; b.status == PendingPayment && b.createdAt + 1_800_000 < now
      ensures repo.rows.Keys == old(repo.rows).Keys && forall id :: id in repo.rows ==>
        var b := old(repo.rows)[id];
        repo.rows[id] == if id in due then b.(status := Cancelled, cancelledAt := Some(now),
                                              cancelledBy := Some(System), refund := Some(0)) else b
    {
      var found := repo.FindDue(PaymentTimeout, now);
      due, processed := found, 0;
      ghost var seen := repo.rows;
      for i := 0 to |found|
        invariant repo.rows == SweptSome(seen, PaymentTimeout, now, found[..i])
        invariant processed == i && events == old(events) + EventsFor(found[..i], BookingCancelled)
      {
        assert found[i] in DueIds(seen, PaymentTimeout, now);
        SweepNext(seen, PaymentTimeout, now, found, i, Commit({PendingPayment}, CancelPatch(now, System, 0)));
        EventsNext(found, i, BookingCancelled);
        var updated := repo.UpdateRow(found[i], {PendingPayment}, CancelPatch(now, System, 0));
        if updated.None? { continue; }
        processed := processed + 1;
        events := events + [Emitted(found[i], BookingCancelled)];
      }
      assert found[..|found|] == found;
    }
  }

  // The administrators' operations share the table and the event log.
  class AdminBookingsService {
    const repo: BookingsRepository
    var events: seq<Emitted>

    constructor (repo: BookingsRepository)
      ensures this.repo == repo && events == []
    {
      this.repo := repo;
      events := [];
    }

    method Void(id: nat, now: int) returns (r: Result<Row>)
      modifies this`events, repo
      ensures Executed(old(repo.rows), repo.rows, old(events), events, id, VoidByAdmin, now, r)
      ensures r.Ok? <==>
        && id in old(repo.rows)
        && var b := old(repo.rows)[id]; b.status == Confirmed
      ensures r.Ok? ==>
        && var b := old(repo.rows)[id];
        && r.value == b.(status := Voided, voidedAt := Some(now), payment := Refunded, refund := Some(b.total))
        && repo.rows == old(repo.rows)[id := r.value] && events == old(events) + [Emitted(id, BookingVoided)]
      ensures r.Err? ==> repo.rows == old(repo.rows) && events == old(events)
    {
      if id !in repo.rows { return Err(NotFound); }
      var booking := repo.rows[id];
      var updated := repo.UpdateRow(id, {Confirmed}, VoidPatch(now, booking.total));
      if updated.None? { return Err(Conflict); }
      events := events + [Emitted(id, BookingVoided)];
      return Ok(updated.value);
    }

    method Cancel(id: nat, now: int) returns (r: Result<Row>)
      modifies this`events, repo
      ensures Executed(old(repo.rows), repo.rows, old(events), events, id, CancelByAdmin, now, r)
      ensures r.Ok? <==>
        && id in old(repo.rows)
        && var b := old(repo.rows)[id]; b.status == Confirmed
      ensures r.Ok? ==>
        && var b := old(repo.rows)[id];
        && r.value == b.(status := Cancelled, cancelledAt := Some(now), cancelledBy := Some(Admin),
                         refund := Some(CancellationRefund(b, now)))
        && repo.rows == old(repo.rows)[id := r.value] && events == old(events) + [Emitted(id, BookingCancelled)]
      ensures r.Err? ==> repo.rows == old(repo.rows) && events == old(events)
    {
      if id !in repo.rows { return Err(NotFound); }
      var refund := CancellationRefund(repo.rows[id], now);
      var updated := repo.UpdateRow(id, {Confirmed}, CancelPatch(now, Admin, refund));
      if updated.None? { return Err(Conflict); }
      events := events + [Emitted(id, BookingCancelled)];
      return Ok(updated.value);
    }

    method Refund(id: nat, amount: int, now: int) returns (r: Result<Row>)
      modifies repo
      ensures Executed(old(repo.rows), repo.rows, old(events), events, id, RefundByAdmin(amount), now, r)
      ensures r.Ok? <==>
        && id in old(repo.rows)
        && var b := old(repo.rows)[id];
           b.status in {Confirmed, CheckedIn, Completed} && RefundedSoFar(b) + amount <= b.total
      ensures r.Ok? ==>
        && var b := old(repo.rows)[id];
        && r.value == b.(payment := Refunded, refund := Some(RefundedSoFar(b) + amount))
        && repo.rows == old(repo.rows)[id := r.value] && events == old(events)
      ensures r.Err? ==> repo.rows == old(repo.rows) && events == old(events)
    {
      if id !in repo.rows { return Err(NotFound); }
      var booking := repo.rows[id];
      if booking.status !in REFUNDABLE { return Err(Conflict); }
      var alreadyRefunded := RefundedSoFar(booking);
      var remaining := booking.total - alreadyRefunded;
      if amount > remaining { return Err(BadRequest); }
      var updated := repo.UpdateRow(id, {booking.status}, RefundPatch(alreadyRefunded + amount));
      if updated.None? { return Err(Conflict); }
      return Ok(updated.value);
    }

    method ForceCheckout(id: nat, now: int) returns (r: Result<Row>)
      modifies this`events, repo
      ensures Executed(old(repo.rows), repo.rows, old(events), events, id, Op.ForceCheckout, now, r)
      ensures r.Ok? <==>
        && id in old(repo.rows)
        && var b := old(repo.rows)[id]; b.status == CheckedIn
      ensures r.Ok? ==>
        && var b := old(repo.rows)[id];
        && r.value == b.(status := Completed, checkedOutAt := Some(now))
        && repo.rows == old(repo.rows)[id := r.value] && events == old(events) + [Emitted(id, BookingCheckedOut)]
      ensures r.Err? ==> repo.rows == old(repo.rows) && events == old(events)
    {
      if id !in repo.rows { return Err(NotFound); }
      var updated := repo.UpdateRow(id, {CheckedIn}, CheckOutPatch(now));
      if updated.None? { return Err(Conflict); }
      events := events + [Emitted(id, BookingCheckedOut)];
      return Ok(updated.value);
    }

    method Extend(id: nat, newCheckOutAt: int, surcharge: int, now: int) returns (r: Result<Row>)
      modifies repo
      ensures Executed(old(repo.rows), repo.rows, old(events), events, id, Op.Extend(newCheckOutAt, surcharge), now, r)
      ensures r.Ok? <==>
        && id in old(repo.rows)
        && var b := old(repo.rows)[id]; 
           && b.status == CheckedIn && b.checkOutAt < newCheckOutAt
           && forall j :: j in old(repo.rows) && j != id && old(repo.rows)[j].roomTypeId == b.roomTypeId
                          && old(repo.rows)[j].status in {PendingPayment, Confirmed, CheckedIn} ==>
                old(repo.rows)[j].checkOutAt <= b.checkOutAt || newCheckOutAt <= old(repo.rows)[j].checkInAt
      ensures r.Ok? ==>
        && var b := old(repo.rows)[id];
        && r.value == b.(checkOutAt := newCheckOutAt, total := b.total + surcharge,
                         durationHours := Round(newCheckOutAt - b.checkInAt, 3_600_000))
        && repo.rows == old(repo.rows)[id := r.value] && events == old(events)
      ensures r.Err? ==> repo.rows == old(repo.rows) && events == old(events)
    {
      if id !in repo.rows { return Err(NotFound); }
      var booking := repo.rows[id];
      ExtendCases(repo.rows, id, newCheckOutAt, surcharge, now);
      if booking.status != CheckedIn { return Err(Conflict); }
      if newCheckOutAt <= booking.checkOutAt { return Err(BadRequest); }
      OverlapExists(repo.rows, booking.roomTypeId, booking.checkOutAt, newCheckOutAt, id);
      var overlaps := repo.HasOverlappingBooking(booking.roomTypeId, booking.checkOutAt, newCheckOutAt, id);
      if overlaps { return Err(Conflict); }
      var updated := repo.UpdateRow(id, {CheckedIn}, Extension(booking, newCheckOutAt, surcharge));
      if updated.None? { return Err(Conflict); }
      return Ok(updated.value);
    }
  }

  function Extension(b: Row, newCheckOutAt: int, surcharge: int): Patch {
    ExtendPatch(newCheckOutAt, Round(newCheckOutAt - b.checkInAt, HOUR), b.total + surcharge)
  }

  lemma ExtendCases(rows: Table, id: nat, newCheckOutAt: int, surcharge: int, t: int)
    requires id in rows
    ensures var b, done := rows[id], Execute(rows, id, Op.Extend(newCheckOutAt, surcharge), t);
            if b.status != CheckedIn then done == (rows, Err(Conflict))
            else if newCheckOutAt <= b.checkOutAt then done == (rows, Err(BadRequest))
            else if HasOverlap(rows, b.roomTypeId, b.checkOutAt, newCheckOutAt, id) then done == (rows, Err(Conflict))
            else var row := Apply(b, Extension(b, newCheckOutAt, surcharge)); done == (rows[id := row], Ok(row))
  {
  }

  /** An operation run on its own is the protocol's read step directly followed by its
      commit step: what holds over every interleaving holds of the services. */
  lemma OperationIsReadThenCommit(guard: set<BookingStatus>, s: Db, id: nat, op: Op)
    requires s.trail.Keys == s.rows.Keys && Readable(guard, s, Begin(id, op, s.clock))
    ensures var t := Next(guard, Next(guard, s, Begin(id, op, s.clock)), Finish(|s.inFlight|));
            var (rows, r) := Execute(s.rows, id, op, s.clock);
            && t.rows == rows && t.inFlight == s.inFlight
            && t.log == if r.Ok? then s.log + EmittedFor(id, s.rows[id].status, rows[id].status) else s.log
  {
    var b := Next(guard, s, Begin(id, op, s.clock));
    assert RemoveAt(b.inFlight, |s.inFlight|) == s.inFlight;
    assert b.inFlight[|s.inFlight|] == Request(id, op, s.clock, s.rows[id], PlanIn(s.rows, id, op, s.clock).value);
  }

  /** A quoted booking is admitted by the service exactly when the protocol's create step is enabled. */
  lemma AdmissionIsCreate(guard: set<BookingStatus>, s: Db, newId: nat, n: NewBooking, count: nat)
    requires newId !in s.rows && newId !in s.trail && InRange(n)
    requires n.roomTypeId in s.roomCounts && s.roomCounts[n.roomTypeId] == count
    ensures var t := Next(guard, s, Create(newId, n, count));
            if |Overlapping(s.rows, n.roomTypeId, n.checkInAt, CheckOutFor(n))| < count
            then t.rows == s.rows[newId := FreshRow(n, s.clock)] else t == s
  {
  }
}
