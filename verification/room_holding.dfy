/** Which bookings hold a room: the ones the lifecycle can still move, and no others, ever. */
module RoomHolding {
  import opened Common
  import opened Money
  import opened Booking
  import opened Lifecycle

  // ---- the statuses that hold a room, and the changes between them ----

  /** A booking holds a room exactly while some change of status is still open to it. */
  lemma HoldsWhileMovable(a: BookingStatus)
    ensures a in ACTIVE <==> exists b: BookingStatus :: Edge(a, b)
    ensures Terminal(a) <==> forall b: BookingStatus :: !Edge(a, b)
    ensures a in ACTIVE <==> a in {PendingPayment, Confirmed, CheckedIn}
  {
    assert Edge(PendingPayment, Confirmed) && Edge(Confirmed, CheckedIn) && Edge(CheckedIn, Completed);
  }

  // The operation moves a row with status `a` to status `b`.
  ghost predicate Moves(op: Op, row: Row, t: int, a: BookingStatus, b: BookingStatus) {
    && OpInRange(op) && row.status == a != b && Plan(op, row, t).Ok?
    && a in Plan(op, row, t).value.from && Apply(row, Plan(op, row, t).value.patch).status == b
  }

  lemma MovesAlongEdge(op: Op, row: Row, t: int, a: BookingStatus, b: BookingStatus)
    requires Moves(op, row, t, a, b)
    ensures Edge(a, b)
  {
  }

  function Sample(status: BookingStatus): Row { UNPAID_ROW.(status := status, qrCode := Some(42)) }

  lemma EdgeMoved(a: BookingStatus, b: BookingStatus) returns (op: Op, t: int)
    requires Edge(a, b)
    ensures Moves(op, Sample(a), t, a, b)
  {
    match b
    case Confirmed => op, t := Capture(7, 42), 0;
    case CheckedIn => op, t := Op.CheckIn(7, 42), 0;
    case Completed => op, t := Op.CheckOut(7), 0;
    case Cancelled =>
      if a == Confirmed {
        op, t := CancelByGuest(7), 0;
      } else {
        op, t := PaymentTimeout, 31 * MINUTE;
      }
    case Voided => op, t := VoidByAdmin, 0;
    case NoShow => op, t := NoShowSweep, 31 * MINUTE;
  }

  /** The lifecycle graph is tight: an edge for every change of status some operation makes,
      and an operation for every edge. */
  lemma EdgesAreTaken(a: BookingStatus, b: BookingStatus)
    ensures Edge(a, b) <==> exists op, row, t :: Moves(op, row, t, a, b)
  {
    if Edge(a, b) {
      var op, t := EdgeMoved(a, b);
    }
    if op, row, t :| Moves(op, row, t, a, b) {
      MovesAlongEdge(op, row, t, a, b);
    }
  }

  // ---- who is counted ----

  predicate Inside(t: int, from: int, to: int) { from <= t < to }

  /** Among stays of some length the counted bookings are those of the room type that the
      lifecycle can still move and that share an instant with the interval. */
  lemma OverlappingExact(rows: Table, rt: nat, from: int, to: int, id: nat)
    requires from < to && (id in rows ==> rows[id].checkInAt < rows[id].checkOutAt)
    ensures id in Overlapping(rows, rt, from, to) <==>
            && id in rows && rows[id].roomTypeId == rt && (exists b: BookingStatus :: Edge(rows[id].status, b))
            && exists t: int :: Inside(t, from, to) && rows[id].checkInAt <= t < rows[id].checkOutAt
  {
    if id in rows {
      HoldsWhileMovable(rows[id].status);
      var t := Max(from, rows[id].checkInAt);
      assert Overlaps(rows[id], from, to) ==> Inside(t, from, to);
    }
  }

  // The bookings a new one has to leave room for.
  lemma CountedExact(rows: Table, rt: nat, from: int, to: int)
    ensures Overlapping(rows, rt, from, to)
            == set id | id in rows && rows[id].roomTypeId == rt
                        && rows[id].status in {PendingPayment, Confirmed, CheckedIn}
                        && rows[id].checkInAt < to && from < rows[id].checkOutAt
  {
  }

  /** In every run a booking is counted from its creation to its last change of status, for
      every interval its stay meets. */
  lemma {:induction false} CountedInRuns(guard: set<BookingStatus>, acts: seq<Action>, rt: nat, from: int, to: int,
          id: nat)
    requires from < to && id in Run(guard, INITIAL, acts).rows
    ensures var b := Run(guard, INITIAL, acts).rows[id];
            id in Overlapping(Run(guard, INITIAL, acts).rows, rt, from, to) <==>
            && b.roomTypeId == rt && b.status in {PendingPayment, Confirmed, CheckedIn}
            && exists t: int :: Inside(t, from, to) && b.checkInAt <= t < b.checkOutAt
  {
    RunKeepsInv(guard, acts);
    var s := Run(guard, INITIAL, acts);
    assert RowOk(s.rows[id], s.clock);
    OverlappingExact(s.rows, rt, from, to, id);
    HoldsWhileMovable(s.rows[id].status);
  }

  // ---- a booking that has ended gives its room back for good ----

  lemma {:induction false} EndedStays(guard: set<BookingStatus>, acts: seq<Action>, n: nat, id: nat)
    requires n <= |acts| && id in Run(guard, INITIAL, acts[..n]).rows
    requires Run(guard, INITIAL, acts[..n]).rows[id].status in {Completed, Cancelled, NoShow, Voided}
    ensures id in Run(guard, INITIAL, acts).rows
    ensures Run(guard, INITIAL, acts).rows[id].status == Run(guard, INITIAL, acts[..n]).rows[id].status
    decreases |acts|
  {
    if n == |acts| {
      assert acts[..n] == acts;
    } else {
      var before := acts[..|acts| - 1];
      assert before[..n] == acts[..n];
      EndedStays(guard, before, n, id);
      RunKeepsInv(guard, before);
      RowsEvolve(guard, Run(guard, INITIAL, before), acts[|acts| - 1], id);
    }
  }

  /** Once completed, cancelled, marked a no-show or voided, a booking is counted against no
      interval in any later run. */
  lemma {:induction false} EndedNeverCounts(guard: set<BookingStatus>, acts: seq<Action>, n: nat, id: nat,
          rt: nat, from: int, to: int)
    requires n <= |acts| && id in Run(guard, INITIAL, acts[..n]).rows
    requires Run(guard, INITIAL, acts[..n]).rows[id].status in {Completed, Cancelled, NoShow, Voided}
    ensures id !in Overlapping(Run(guard, INITIAL, acts).rows, rt, from, to)
  {
    EndedStays(guard, acts, n, id);
    HoldsWhileMovable(Run(guard, INITIAL, acts).rows[id].status);
  }

  // Everyone but `id` whom a new booking would share the room type with at some time.
  ghost function Others(rows: Table, n: NewBooking, id: nat): set<nat> {
    set j | j in rows && j != id && rows[j].roomTypeId == n.roomTypeId
            && rows[j].status in {PendingPayment, Confirmed, CheckedIn}
            && rows[j].checkInAt < CheckOutFor(n) && n.checkInAt < rows[j].checkOutAt
  }

  // A request that could be admitted, room permitting.
  ghost predicate Askable(s: Db, a: Action)
    requires a.Create?
  {
    && a.newId !in s.rows && a.newId !in s.trail && a.data.roomTypeId in s.roomCounts
    && a.countRead <= s.roomCounts[a.data.roomTypeId] && InRange(a.data)
  }

  /** A commit that cancels, voids, completes or marks a no-show gives the room back at once:
      from then on a new booking is admitted exactly when the others leave it a room. */
  lemma RoomComesBack(guard: set<BookingStatus>, s: Db, k: nat, a: Action)
    requires s.trail.Keys == s.rows.Keys && Wins(s, k) && a.Create? && Askable(s, a)
    requires Apply(s.rows[s.inFlight[k].id], s.inFlight[k].commit.patch).status
             in {Completed, Cancelled, NoShow, Voided}
    ensures var id, t := s.inFlight[k].id, Next(guard, s, Finish(k));
            Next(guard, t, a).rows == if |Others(s.rows, a.data, id)| < a.countRead
                                      then t.rows[a.newId := FreshRow(a.data, t.clock)] else t.rows
  {
    var id, t := s.inFlight[k].id, Next(guard, s, Finish(k));
    FinishRows(guard, s, k);
    HoldsWhileMovable(t.rows[id].status);
    CountedExact(t.rows, a.data.roomTypeId, a.data.checkInAt, CheckOutFor(a.data));
    assert Overlapping(t.rows, a.data.roomTypeId, a.data.checkInAt, CheckOutFor(a.data)) == Others(s.rows, a.data, id);
  }

  /** Without it, the booking counts: while it is pending, confirmed or checked in, a request
      for its room type and time needs one room more. */
  lemma RoomStillHeld(guard: set<BookingStatus>, s: Db, id: nat, a: Action)
    requires a.Create? && Askable(s, a) && id in s.rows && s.rows[id].roomTypeId == a.data.roomTypeId
    requires s.rows[id].status in {PendingPayment, Confirmed, CheckedIn}
    requires s.rows[id].checkInAt < CheckOutFor(a.data) && a.data.checkInAt < s.rows[id].checkOutAt
    ensures Next(guard, s, a).rows == if |Others(s.rows, a.data, id)| + 1 < a.countRead
                                      then s.rows[a.newId := FreshRow(a.data, s.clock)] else s.rows
  {
    CountedExact(s.rows, a.data.roomTypeId, a.data.checkInAt, CheckOutFor(a.data));
    assert Overlapping(s.rows, a.data.roomTypeId, a.data.checkInAt, CheckOutFor(a.data))
           == Others(s.rows, a.data, id) + {id};
  }
}
