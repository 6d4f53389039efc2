/**
 The booking protocol under arbitrary interleaving. Every request is a read step
 (`Begin`: guards evaluated on the row it sees) and a later commit step (`Finish`:
 the compare-and-set on status); any number of requests are in flight at once,
 any other step may come between the two, and a request may never finish.
 A run is a sequence of actions; an action that is not enabled changes nothing.
 */
module Lifecycle {
  import opened Common
  import opened Money
  import opened Booking

  datatype Event =
    | BookingConfirmed | BookingCheckedIn | BookingCheckedOut | BookingCancelled | BookingNoShow | BookingVoided

  datatype Emitted = Emitted(id: nat, event: Event)

  // `at` is the request's clock reading, `seen` the row it read.
  datatype Request = Request(id: nat, op: Op, at: int, seen: Row, commit: Commit)

  datatype Db = Db(
    clock: int,
    roomCounts: map<nat, nat>,
    rows: Table,
    inFlight: seq<Request>,
    trail: map<nat, seq<BookingStatus>>, // statuses committed so far, per booking
    log: seq<Emitted>)

  datatype Action =
    | Tick(ms: nat)
    | AddRoomType(roomTypeId: nat, count: nat)
    | RaiseCount(roomTypeId: nat, count: nat)
    | Create(newId: nat, data: NewBooking, countRead: nat)
    | Begin(id: nat, op: Op, at: int)
    | Finish(index: nat)
    | RefundWrite(bookingId: nat, extra: nat) // the refund a dispute resolution writes in its own transaction

  const INITIAL := Db(0, map[], map[], [], map[], [])

  function EventFor(status: BookingStatus): seq<Event> {
    match status
    case PendingPayment => []
    case Confirmed => [BookingConfirmed]
    case CheckedIn => [BookingCheckedIn]
    case Completed => [BookingCheckedOut]
    case Cancelled => [BookingCancelled]
    case NoShow => [BookingNoShow]
    case Voided => [BookingVoided]
  }

  function EmittedFor(id: nat, before: BookingStatus, after: BookingStatus): seq<Emitted> {
    if before == after || EventFor(after) == [] then [] else [Emitted(id, EventFor(after)[0])]
  }

  function RemoveAt<T>(s: seq<T>, k: nat): (r: seq<T>)
    requires k < |s|
    ensures forall x :: x in r ==> x in s
  {
    s[..k] + s[k + 1..]
  }

  function AddRefund(b: Row, extra: nat): Row { Apply(b, RefundPatch(RefundedSoFar(b) + extra)) }

  function Write(s: Db, id: nat, row: Row): Db
    requires id in s.rows && id in s.trail
  {
    var before := s.rows[id].status;
    s.(rows := s.rows[id := row],
       trail := if before == row.status then s.trail else s.trail[id := s.trail[id] + [row.status]],
       log := s.log + EmittedFor(id, before, row.status))
  }

  ghost predicate Creatable(s: Db, a: Action)
    requires a.Create?
  {
    && a.newId !in s.rows && a.newId !in s.trail
    && a.data.roomTypeId in s.roomCounts
    && a.countRead <= s.roomCounts[a.data.roomTypeId]
    && InRange(a.data)
    && |Overlapping(s.rows, a.data.roomTypeId, a.data.checkInAt, CheckOutFor(a.data))| < a.countRead
  }

  // `guard`: the statuses in which force-checkout goes on after its read. The
  // code has no such test, i.e. `guard` is every status (see `NO_GUARD`).
  ghost predicate Readable(guard: set<BookingStatus>, s: Db, a: Action)
    requires a.Begin?
  {
    && OpInRange(a.op)
    && PlanIn(s.rows, a.id, a.op, a.at).Ok?
    && (if IsSweep(a.op) then a.at <= s.clock else s.clock <= a.at)
    && (a.op.ForceCheckout? ==> s.rows[a.id].status in guard)
  }

  const NO_GUARD: set<BookingStatus> :=
    {PendingPayment, Confirmed, CheckedIn, Completed, Cancelled, NoShow, Voided}

  ghost function Next(guard: set<BookingStatus>, s: Db, a: Action): Db {
    match a
    case Tick(ms) => s.(clock := s.clock + ms)
    case AddRoomType(rt, count) =>
      if rt in s.roomCounts then s else s.(roomCounts := s.roomCounts[rt := count])
    case RaiseCount(rt, count) =>
      if rt in s.roomCounts && s.roomCounts[rt] <= count then s.(roomCounts := s.roomCounts[rt := count]) else s
    case Create(id, data, countRead) =>
      if !Creatable(s, a) then s
      else s.(rows := s.rows[id := FreshRow(data, s.clock)], trail := s.trail[id := [PendingPayment]])
    case Begin(id, op, at) =>
      if !Readable(guard, s, a) then s
      else s.(inFlight := s.inFlight + [Request(id, op, at, s.rows[id], PlanIn(s.rows, id, op, at).value)])
    case Finish(k) =>
      if k >= |s.inFlight| || s.clock < s.inFlight[k].at then s
      else
        var q := s.inFlight[k];
        var s1 := s.(inFlight := RemoveAt(s.inFlight, k));
        var (rows, won) := UpdateIfStatus(s.rows, q.id, q.commit.from, q.commit.patch);
        if won && q.id in s.trail then Write(s1, q.id, rows[q.id]) else s1
    case RefundWrite(id, extra) =>
      if id in s.rows && id in s.trail then
        Write(s, id, AddRefund(s.rows[id], extra))
      else s
  }

  ghost function Run(guard: set<BookingStatus>, s: Db, acts: seq<Action>): Db {
    if acts == [] then s else Next(guard, Run(guard, s, acts[..|acts| - 1]), acts[|acts| - 1])
  }

  // ---- the lifecycle graph ----

  predicate Edge(a: BookingStatus, b: BookingStatus) {
    match a
    case PendingPayment => b in {Confirmed, Cancelled}
    case Confirmed => b in {CheckedIn, Cancelled, Voided, NoShow}
    case CheckedIn => b == Completed
    case _ => false
  }

  predicate Terminal(a: BookingStatus) { a !in ACTIVE }

  function Rank(a: BookingStatus): nat {
    match a case PendingPayment => 0 case Confirmed => 1 case CheckedIn => 2 case _ => 3
  }

  ghost predicate Path(t: seq<BookingStatus>) {
    && t != [] && t[0] == PendingPayment
    && forall i :: 0 < i < |t| ==> Edge(t[i - 1], t[i])
  }

  lemma {:induction false} PathRank(t: seq<BookingStatus>, i: nat, j: nat)
    requires Path(t) && i <= j < |t|
    ensures Rank(t[i]) + (j - i) <= Rank(t[j])
  {
    if i < j {
      PathRank(t, i, j - 1);
    }
  }

  // At most three changes, no status twice, nothing after a terminal status.
  lemma PathShape(t: seq<BookingStatus>)
    requires Path(t)
    ensures |t| <= 4 && NoDup(t)
    ensures forall i :: 0 <= i < |t| - 1 ==> !Terminal(t[i])
  {
    PathRank(t, 0, |t| - 1);
    forall i, j | 0 <= i < j < |t| ensures t[i] != t[j] {
      PathRank(t, i, j);
    }
    forall i | 0 <= i < |t| - 1 ensures !Terminal(t[i]) {
      assert Edge(t[i + 1 - 1], t[i + 1]);
    }
  }

  // ---- what a single row records ----

  ghost predicate Evidence(b: Row) {
    && (b.status == Confirmed ==> b.qrCode.Some?)
    && (b.status in {CheckedIn, Completed} <==> b.checkedInAt.Some?)
    && (b.checkedInAt.Some? ==>
      && b.qrCode.None?
      && b.checkInAt - 900_000 <= b.checkedInAt.value <= b.checkInAt + 1_800_000)
    && (b.status == NoShow ==> b.noShowAt.Some? && b.noShowAt.value > b.checkInAt + 1_800_000)
    && (b.status == Completed <==> b.checkedOutAt.Some?)
    && Ending(b)
  }

  // A booking is cancelled by someone, by the system only when left unpaid for too
  // long; a voided one has been given back in full.
  ghost predicate Ending(b: Row) {
    && (b.status == PendingPayment ==> b.qrCode.None?)
    && (b.status == Cancelled <==> b.cancelledBy.Some?)
    && (b.cancelledBy == Some(System) ==>
         b.qrCode.None? && b.cancelledAt.Some? && b.cancelledAt.value > b.createdAt + 1_800_000)
    && (b.status == Voided ==> b.total <= RefundedSoFar(b))
  }

  // The hours recorded are the length of the stay, to the nearest hour.
  ghost predicate LengthOk(b: Row) {
    -1_800_000 <= b.checkOutAt - b.checkInAt - b.durationHours * 3_600_000 <= 1_800_000
  }

  ghost predicate Ordered(b: Row) {
    b.checkedInAt.Some? && b.checkedOutAt.Some? ==> b.checkedInAt.value <= b.checkedOutAt.value
  }

  ghost predicate MoneyOk(b: Row) {
    && 0 < b.base && 0 <= b.gst && 0 <= b.fee <= b.base
    && b.base + b.gst <= b.total
    && (b.checkedInAt.None? ==> b.total == b.base + b.gst)
    && 0 <= RefundedSoFar(b)
  }

  ghost predicate RowOk(b: Row, clock: int) {
    && b.checkInAt + HOUR <= b.checkOutAt && LengthOk(b)
    && MoneyOk(b)
    && Evidence(b)
    && (b.checkedInAt.Some? ==> b.checkedInAt.value <= clock)
  }

  // How a row may have changed between a read and the commit.
  ghost predicate Evolved(a: Row, b: Row) {
    && b.checkInAt == a.checkInAt && b.roomTypeId == a.roomTypeId && b.guestId == a.guestId &&
      b.createdAt == a.createdAt
    && b.propertyId == a.propertyId && b.ownerId == a.ownerId && b.kind == a.kind
    && b.base == a.base && b.gst == a.gst && b.fee == a.fee
    && Rank(a.status) <= Rank(b.status)
    && (Terminal(a.status) ==> b.status == a.status)
    && (a.status == b.status ==> b.checkedInAt == a.checkedInAt && b.qrCode == a.qrCode)
    && (a.checkedInAt.Some? ==> b.checkedInAt == a.checkedInAt)
    && (a.checkedOutAt.Some? ==> b.checkedOutAt == a.checkedOutAt)
  }

  ghost predicate SafeGuard(guard: set<BookingStatus>) { PendingPayment !in guard && Confirmed !in guard }

  ghost predicate RequestOk(guard: set<BookingStatus>, s: Db, q: Request) {
    && q.id in s.rows
    && RowOk(q.seen, s.clock) && Evolved(q.seen, s.rows[q.id])
    && OpInRange(q.op) && Plan(q.op, q.seen, q.at) == Ok(q.commit)
    && (!IsSweep(q.op) && q.seen.checkedInAt.Some? ==> q.seen.checkedInAt.value <= q.at)
    && (q.op.ForceCheckout? ==> q.seen.status in guard)
  }

  function LogOf(log: seq<Emitted>, id: nat): seq<Event> {
    if log == [] then []
    else
      var e := log[|log| - 1];
      LogOf(log[..|log| - 1], id) + (if e.id == id then [e.event] else [])
  }

  function EventsAlong(t: seq<BookingStatus>): seq<Event> {
    if t == [] then [] else EventsAlong(t[..|t| - 1]) + EventFor(t[|t| - 1])
  }

  ghost predicate RowsOk(guard: set<BookingStatus>, s: Db) {
    forall id :: id in s.rows ==> RowOk(s.rows[id], s.clock) && (SafeGuard(guard) ==> Ordered(s.rows[id]))
  }

  ghost predicate TrailOk(t: seq<BookingStatus>, status: BookingStatus) {
    Path(t) && t[|t| - 1] == status
  }

  ghost predicate TrailsOk(s: Db) {
    && s.trail.Keys == s.rows.Keys
    && forall id :: id in s.rows ==> TrailOk(s.trail[id], s.rows[id].status)
  }

  ghost predicate RequestsOk(guard: set<BookingStatus>, s: Db) {
    forall q :: q in s.inFlight ==> RequestOk(guard, s, q)
  }

  ghost predicate LogOk(s: Db) {
    forall id {:trigger LogOf(s.log, id)} :: LogOf(s.log, id) == if id in s.trail then EventsAlong(s.trail[id]) else []
  }

  ghost predicate Inv(guard: set<BookingStatus>, s: Db) {
    RowsOk(guard, s) && TrailsOk(s) && RequestsOk(guard, s) && LogOk(s)
  }

  lemma LogSnoc(log: seq<Emitted>, id: nat, event: Event)
    ensures forall j :: LogOf(log + [Emitted(id, event)], j) == LogOf(log, j) + (if j == id then [event] else [])
  {
    assert (log + [Emitted(id, event)])[..|log|] == log;
  }

  lemma TrailSnoc(t: seq<BookingStatus>, x: BookingStatus)
    ensures EventsAlong(t + [x]) == EventsAlong(t) + EventFor(x)
  {
    assert (t + [x])[..|t|] == t;
  }

  // A commit that wins on row `b`, planned from a row read earlier.
  ghost predicate Winning(b: Row, q: Request, clock: int) {
    && RowOk(b, clock) && RowOk(q.seen, clock) && Evolved(q.seen, b)
    && OpInRange(q.op) && Plan(q.op, q.seen, q.at) == Ok(q.commit)
    && (!IsSweep(q.op) && q.seen.checkedInAt.Some? ==> q.seen.checkedInAt.value <= q.at)
    && q.at <= clock && b.status in q.commit.from
  }

  predicate GivesBack(op: Op) {
    op.CancelByGuest? || op.CancelByAdmin? || op.VoidByAdmin? || op.PaymentTimeout?
    || op.RefundByAdmin? || op.DisputeBookkeeping?
  }

  lemma GivingBackRowOk(b: Row, q: Request, clock: int)
    requires Winning(b, q, clock) && GivesBack(q.op)
    ensures RowOk(Apply(b, q.commit.patch), clock)
  {
  }

  lemma ExtendedRowOk(b: Row, q: Request, clock: int)
    requires Winning(b, q, clock) && q.op.Extend?
    ensures RowOk(Apply(b, q.commit.patch), clock)
  {
  }

  lemma MovedRowOk(b: Row, q: Request, clock: int)
    requires Winning(b, q, clock) && !GivesBack(q.op) && !q.op.Extend?
    ensures RowOk(Apply(b, q.commit.patch), clock)
  {
  }

  lemma CommitEvolves(b: Row, q: Request, clock: int)
    requires Winning(b, q, clock)
    ensures var c := Apply(b, q.commit.patch);
            Evolved(b, c) && (b.status != c.status ==> Edge(b.status, c.status))
  {
  }

  // What a winning commit does to its row, however stale the row it was planned from.
  lemma CommitStep(b: Row, q: Request, clock: int)
    requires Winning(b, q, clock)
    ensures var c := Apply(b, q.commit.patch);
            && RowOk(c, clock) && Evolved(b, c)
            && (b.status != c.status ==> Edge(b.status, c.status))
            && (Ordered(b) && (q.op.ForceCheckout? ==> q.seen.status !in {PendingPayment, Confirmed}) ==> Ordered(c))
  {
    if GivesBack(q.op) {
      GivingBackRowOk(b, q, clock);
    } else if q.op.Extend? {
      ExtendedRowOk(b, q, clock);
    } else {
      MovedRowOk(b, q, clock);
    }
    CommitEvolves(b, q, clock);
  }

  lemma EvolvedTrans(a: Row, b: Row, c: Row)
    requires Evolved(a, b) && Evolved(b, c)
    ensures Evolved(a, c)
  {
  }

  lemma PathSnoc(t: seq<BookingStatus>, x: BookingStatus)
    requires Path(t) && Edge(t[|t| - 1], x)
    ensures TrailOk(t + [x], x)
  {
  }

  lemma WriteKeepsTrails(s: Db, id: nat, row: Row)
    requires TrailsOk(s) && id in s.rows
    requires s.rows[id].status != row.status ==> Edge(s.rows[id].status, row.status)
    ensures TrailsOk(Write(s, id, row))
  {
    if s.rows[id].status != row.status {
      PathSnoc(s.trail[id], row.status);
    }
  }

  lemma WriteKeepsLog(s: Db, id: nat, row: Row)
    requires LogOk(s) && id in s.rows && id in s.trail
    requires s.rows[id].status != row.status ==> Edge(s.rows[id].status, row.status)
    ensures LogOk(Write(s, id, row))
  {
    var t, before := Write(s, id, row), s.rows[id].status;
    if before != row.status {
      TrailSnoc(s.trail[id], row.status);
      LogSnoc(s.log, id, EventFor(row.status)[0]);
      assert t.log == s.log + [Emitted(id, EventFor(row.status)[0])];
    } else {
      assert t.log == s.log && t.trail == s.trail;
    }
  }

  lemma WriteKeepsRequests(guard: set<BookingStatus>, s: Db, id: nat, row: Row)
    requires TrailsOk(s) && RequestsOk(guard, s) && id in s.rows && Evolved(s.rows[id], row)
    ensures RequestsOk(guard, Write(s, id, row))
  {
    var t := Write(s, id, row);
    forall q | q in t.inFlight ensures RequestOk(guard, t, q) {
      assert RequestOk(guard, s, q);
      if q.id == id {
        EvolvedTrans(q.seen, s.rows[id], row);
      }
    }
  }

  lemma WriteKeepsInv(guard: set<BookingStatus>, s: Db, id: nat, row: Row)
    requires Inv(guard, s) && id in s.rows
    requires RowOk(row, s.clock) && Evolved(s.rows[id], row)
    requires s.rows[id].status != row.status ==> Edge(s.rows[id].status, row.status)
    requires SafeGuard(guard) ==> Ordered(row)
    ensures Inv(guard, Write(s, id, row))
  {
    WriteKeepsTrails(s, id, row);
    WriteKeepsLog(s, id, row);
    WriteKeepsRequests(guard, s, id, row);
  }

  lemma FinishKeepsInv(guard: set<BookingStatus>, s: Db, k: nat)
    requires Inv(guard, s)
    ensures Inv(guard, Next(guard, s, Finish(k)))
  {
    if k < |s.inFlight| && s.inFlight[k].at <= s.clock {
      var q := s.inFlight[k];
      var s1 := s.(inFlight := RemoveAt(s.inFlight, k));
      assert Inv(guard, s1);
      assert RequestOk(guard, s, q);
      if s.rows[q.id].status in q.commit.from {
        CommitStep(s.rows[q.id], q, s.clock);
        WriteKeepsInv(guard, s1, q.id, Apply(s.rows[q.id], q.commit.patch));
      }
    }
  }

  lemma FreshRowOk(n: NewBooking, now: int)
    requires InRange(n)
    ensures RowOk(FreshRow(n, now), now) && Ordered(FreshRow(n, now))
  {
    PriceShape(n.kind, n.rate, n.hours, n.commissionPct);
  }

  lemma NothingEmittedYet()
    ensures EventsAlong([PendingPayment]) == []
  {
    TrailSnoc([], PendingPayment);
    assert [] + [PendingPayment] == [PendingPayment];
  }

  lemma InsertKeepsRows(guard: set<BookingStatus>, s: Db, t: Db, id: nat, row: Row)
    requires RowsOk(guard, s) && TrailsOk(s) && RequestsOk(guard, s)
    requires id !in s.rows && RowOk(row, s.clock) && Ordered(row) && row.status == PendingPayment
    requires t == s.(rows := s.rows[id := row], trail := s.trail[id := [PendingPayment]])
    ensures RowsOk(guard, t) && TrailsOk(t) && RequestsOk(guard, t)
  {
    forall q | q in t.inFlight ensures RequestOk(guard, t, q) {
      assert RequestOk(guard, s, q);
    }
  }

  lemma CreateKeepsInv(guard: set<BookingStatus>, s: Db, a: Action)
    requires Inv(guard, s) && a.Create?
    ensures Inv(guard, Next(guard, s, a))
  {
    if Creatable(s, a) {
      FreshRowOk(a.data, s.clock);
      NothingEmittedYet();
      InsertKeepsRows(guard, s, Next(guard, s, a), a.newId, FreshRow(a.data, s.clock));
    }
  }

  lemma BeginKeepsInv(guard: set<BookingStatus>, s: Db, a: Action)
    requires Inv(guard, s) && a.Begin?
    ensures Inv(guard, Next(guard, s, a))
  {
    var s' := Next(guard, s, a);
    forall q | q in s'.inFlight ensures RequestOk(guard, s', q) {
      assert q in s.inFlight ==> RequestOk(guard, s, q);
    }
  }

  lemma RefundStep(b: Row, extra: nat, clock: int)
    requires RowOk(b, clock)
    ensures var c := AddRefund(b, extra);
            && c == b.(payment := Refunded, refund := Some(extra + if b.refund.Some? then b.refund.value else 0))
            && RowOk(c, clock) && Evolved(b, c) && (Ordered(b) ==> Ordered(c))
  {
  }

  lemma RefundKeepsInv(guard: set<BookingStatus>, s: Db, a: Action)
    requires Inv(guard, s) && a.RefundWrite?
    ensures Inv(guard, Next(guard, s, a))
  {
    if a.bookingId in s.rows {
      var row := AddRefund(s.rows[a.bookingId], a.extra);
      RefundStep(s.rows[a.bookingId], a.extra, s.clock);
      WriteKeepsInv(guard, s, a.bookingId, row);
      assert Next(guard, s, a) == Write(s, a.bookingId, row);
    }
  }

  // The clock moving on and the room inventory growing touch no row.
  lemma QuietKeepsInv(guard: set<BookingStatus>, s: Db, a: Action)
    requires Inv(guard, s) && (a.Tick? || a.AddRoomType? || a.RaiseCount?)
    ensures Inv(guard, Next(guard, s, a))
  {
    var t := Next(guard, s, a);
    assert t.rows == s.rows && t.trail == s.trail && t.log == s.log && t.inFlight == s.inFlight && s.clock <= t.clock;
    forall q | q in t.inFlight ensures RequestOk(guard, t, q) {
      assert RequestOk(guard, s, q);
    }
  }

  lemma StepKeepsInv(guard: set<BookingStatus>, s: Db, a: Action)
    requires Inv(guard, s)
    ensures Inv(guard, Next(guard, s, a))
  {
    if a.Create? {
      CreateKeepsInv(guard, s, a);
    } else if a.Begin? {
      BeginKeepsInv(guard, s, a);
    } else if a.Finish? {
      FinishKeepsInv(guard, s, a.index);
    } else if a.RefundWrite? {
      RefundKeepsInv(guard, s, a);
    } else {
      QuietKeepsInv(guard, s, a);
    }
  }

  lemma {:induction false} RunKeepsInv(guard: set<BookingStatus>, acts: seq<Action>)
    ensures Inv(guard, Run(guard, INITIAL, acts))
  {
    if acts != [] {
      RunKeepsInv(guard, acts[..|acts| - 1]);
      StepKeepsInv(guard, Run(guard, INITIAL, acts[..|acts| - 1]), acts[|acts| - 1]);
    }
  }

  // ---- main results ----

  /** Whatever the interleaving, the statuses committed for a booking form one path
      of the lifecycle graph: at most three changes, none out of a terminal status. */
  lemma {:induction false} LifecyclePath(guard: set<BookingStatus>, acts: seq<Action>, id: nat)
    requires id in Run(guard, INITIAL, acts).rows
    ensures var s := Run(guard, INITIAL, acts);
            && id in s.trail && Path(s.trail[id]) && |s.trail[id]| <= 4 && NoDup(s.trail[id])
            && s.trail[id][|s.trail[id]| - 1] == s.rows[id].status
            && (forall i :: 0 <= i < |s.trail[id]| - 1 ==> !Terminal(s.trail[id][i]))
  {
    RunKeepsInv(guard, acts);
    PathShape(Run(guard, INITIAL, acts).trail[id]);
  }

  lemma TrailStep(guard: set<BookingStatus>, s: Db, a: Action, id: nat)
    requires id in s.trail
    ensures id in Next(guard, s, a).trail && s.trail[id] <= Next(guard, s, a).trail[id]
  {
  }

  // No run ever rewrites a committed status: trails only grow at the end.
  lemma {:induction false} TrailsGrow(guard: set<BookingStatus>, s: Db, acts: seq<Action>, id: nat)
    requires id in s.trail
    ensures id in Run(guard, s, acts).trail && s.trail[id] <= Run(guard, s, acts).trail[id]
  {
    if acts != [] {
      TrailsGrow(guard, s, acts[..|acts| - 1], id);
      TrailStep(guard, Run(guard, s, acts[..|acts| - 1]), acts[|acts| - 1], id);
    }
  }

  lemma {:induction false} EventOrigin(t: seq<BookingStatus>, n: nat, e: Event)
    requires n <= |t| && e in EventsAlong(t[..n])
    ensures exists i :: 0 <= i < n && EventFor(t[i]) == [e]
  {
    if n > 0 {
      assert t[..n][..n - 1] == t[..n - 1];
      if e in EventsAlong(t[..n - 1]) {
        EventOrigin(t, n - 1, e);
      }
    }
  }

  lemma EventNotYet(t: seq<BookingStatus>, n: nat, e: Event)
    requires NoDup(t) && n < |t| && EventFor(t[n]) == [e]
    ensures e !in EventsAlong(t[..n])
  {
    forall i | 0 <= i < n ensures EventFor(t[i]) != [e] {
      assert t[i] != t[n];
    }
    if e in EventsAlong(t[..n]) {
      EventOrigin(t, n, e);
    }
  }

  lemma {:induction false} EventsDistinct(t: seq<BookingStatus>, n: nat)
    requires NoDup(t) && n <= |t|
    ensures NoDup(EventsAlong(t[..n]))
  {
    if n > 0 {
      EventsDistinct(t, n - 1);
      assert t[..n][..n - 1] == t[..n - 1];
      var last := EventFor(t[n - 1]);
      if last != [] {
        EventNotYet(t, n - 1, last[0]);
        NoDupSnoc(EventsAlong(t[..n - 1]), last[0]);
      }
    }
  }

  lemma TrailEventsDistinct(t: seq<BookingStatus>)
    requires Path(t)
    ensures NoDup(EventsAlong(t))
  {
    PathShape(t);
    EventsDistinct(t, |t|);
    assert t[..|t|] == t;
  }

  // The event of a status is along the trail exactly when the status is on it.
  lemma {:induction false} EventAlong(t: seq<BookingStatus>, status: BookingStatus, e: Event)
    requires forall x: BookingStatus :: EventFor(x) == [e] <==> x == status
    ensures e in EventsAlong(t) <==> status in t
  {
    if t != [] {
      var n := |t| - 1;
      EventAlong(t[..n], status, e);
      assert t == t[..n] + [t[n]];
      assert e in EventFor(t[n]) <==> EventFor(t[n]) == [e];
    }
  }

  lemma EventsAlongExact(t: seq<BookingStatus>)
    ensures BookingConfirmed in EventsAlong(t) <==> Confirmed in t
    ensures BookingCheckedIn in EventsAlong(t) <==> CheckedIn in t
    ensures BookingCheckedOut in EventsAlong(t) <==> Completed in t
    ensures BookingCancelled in EventsAlong(t) <==> Cancelled in t
    ensures BookingNoShow in EventsAlong(t) <==> NoShow in t
    ensures BookingVoided in EventsAlong(t) <==> Voided in t
  {
    EventAlong(t, Confirmed, BookingConfirmed);
    EventAlong(t, CheckedIn, BookingCheckedIn);
    EventAlong(t, Completed, BookingCheckedOut);
    EventAlong(t, Cancelled, BookingCancelled);
    EventAlong(t, NoShow, BookingNoShow);
    EventAlong(t, Voided, BookingVoided);
  }

  /** Each lifecycle event is emitted at most once per booking, exactly for the
      statuses the booking has been through, and never for an unknown booking. */
  lemma {:induction false} EventsAtMostOnce(guard: set<BookingStatus>, acts: seq<Action>, id: nat)
    ensures var s := Run(guard, INITIAL, acts);
            && NoDup(LogOf(s.log, id))
            && LogOf(s.log, id) == (if id in s.trail then EventsAlong(s.trail[id]) else [])
            && (id in s.trail ==>
                 && (BookingConfirmed in LogOf(s.log, id) <==> Confirmed in s.trail[id])
                 && (BookingCheckedIn in LogOf(s.log, id) <==> CheckedIn in s.trail[id])
                 && (BookingCheckedOut in LogOf(s.log, id) <==> Completed in s.trail[id])
                 && (BookingCancelled in LogOf(s.log, id) <==> Cancelled in s.trail[id])
                 && (BookingNoShow in LogOf(s.log, id) <==> NoShow in s.trail[id])
                 && (BookingVoided in LogOf(s.log, id) <==> Voided in s.trail[id]))
  {
    RunKeepsInv(guard, acts);
    var s := Run(guard, INITIAL, acts);
    assert LogOk(s) && TrailsOk(s);
    if id in s.trail {
      TrailEventsDistinct(s.trail[id]);
      EventsAlongExact(s.trail[id]);
    }
  }

  /** Status and evidence fields agree in every reachable state. */
  lemma {:induction false} EvidenceAlways(guard: set<BookingStatus>, acts: seq<Action>, id: nat)
    requires id in Run(guard, INITIAL, acts).rows
    ensures var b := Run(guard, INITIAL, acts).rows[id]; Evidence(b) && MoneyOk(b) && LengthOk(b)
  {
    RunKeepsInv(guard, acts);
  }

  // ---- what one step does to the table ----

  ghost predicate Wins(s: Db, k: nat) {
    && k < |s.inFlight| && s.inFlight[k].at <= s.clock
    && s.inFlight[k].id in s.rows && s.rows[s.inFlight[k].id].status in s.inFlight[k].commit.from
  }

  lemma FinishRows(guard: set<BookingStatus>, s: Db, k: nat)
    requires s.trail.Keys == s.rows.Keys
    ensures var t := Next(guard, s, Finish(k));
            && t.roomCounts == s.roomCounts
            && (!Wins(s, k) ==> t.rows == s.rows && t.trail == s.trail)
            && (Wins(s, k) ==>
              var q, b := s.inFlight[k], s.rows[s.inFlight[k].id];
              var c := Apply(b, q.commit.patch);
              && t.rows == s.rows[q.id := c]
              && t.trail == if b.status == c.status then s.trail else s.trail[q.id := s.trail[q.id] + [c.status]])
  {
  }

  lemma WinnerEvolves(guard: set<BookingStatus>, s: Db, k: nat)
    requires Inv(guard, s) && Wins(s, k)
    ensures var q, b := s.inFlight[k], s.rows[s.inFlight[k].id]; Evolved(b, Apply(b, q.commit.patch))
  {
    var q := s.inFlight[k];
    assert RequestOk(guard, s, q) && RowOk(s.rows[q.id], s.clock);
    CommitStep(s.rows[q.id], q, s.clock);
  }

  lemma FinishEvolves(guard: set<BookingStatus>, s: Db, k: nat, id: nat)
    requires Inv(guard, s) && id in s.rows
    ensures id in Next(guard, s, Finish(k)).rows && Evolved(s.rows[id], Next(guard, s, Finish(k)).rows[id])
  {
    FinishRows(guard, s, k);
    if Wins(s, k) {
      WinnerEvolves(guard, s, k);
    }
  }

  lemma RefundEvolves(guard: set<BookingStatus>, s: Db, booking: nat, extra: nat, id: nat)
    requires Inv(guard, s) && id in s.rows
    ensures var t := Next(guard, s, RefundWrite(booking, extra)); id in t.rows && Evolved(s.rows[id], t.rows[id])
  {
    RefundStep(s.rows[id], extra, s.clock);
  }

  /** A step changes rows only in ways the lifecycle allows, keeping stays and captured prices. */
  lemma RowsEvolve(guard: set<BookingStatus>, s: Db, a: Action, id: nat)
    requires Inv(guard, s) && id in s.rows
    ensures id in Next(guard, s, a).rows && Evolved(s.rows[id], Next(guard, s, a).rows[id])
  {
    if a.Finish? {
      FinishEvolves(guard, s, a.index, id);
    } else if a.RefundWrite? {
      RefundEvolves(guard, s, a.bookingId, a.extra, id);
    } else {
      assert Next(guard, s, a).rows[id] == s.rows[id];
    }
  }

  // The payment of a booking is captured by the step that confirms it, and by no other.
  ghost predicate Captures(s: Db, a: Action) {
    a.Finish? && Wins(s, a.index) && s.inFlight[a.index].commit.patch.ConfirmPatch?
  }

  lemma CapturePlan(q: Request, b: Row)
    requires q.commit.patch.ConfirmPatch? && Plan(q.op, q.seen, q.at) == Ok(q.commit)
    requires b.status in q.commit.from && MoneyOk(q.seen) && Evidence(q.seen)
    ensures b.status == PendingPayment && q.seen.total == q.seen.base + q.seen.gst
  {
  }

  lemma FreshTrail(t: seq<BookingStatus>)
    requires TrailOk(t, PendingPayment)
    ensures t == [PendingPayment] && t + [Confirmed] == [PendingPayment, Confirmed]
  {
    PathRank(t, 0, |t| - 1);
  }

  lemma CaptureStep(guard: set<BookingStatus>, s: Db, a: Action)
    requires Inv(guard, s) && Captures(s, a)
    ensures var q, t := s.inFlight[a.index], Next(guard, s, a);
            && s.rows[q.id].status == PendingPayment && s.trail[q.id] == [PendingPayment]
            && q.seen.base == s.rows[q.id].base && q.seen.fee == s.rows[q.id].fee && q.seen.gst == s.rows[q.id].gst
            && q.seen.total == q.seen.base + q.seen.gst && MoneyOk(q.seen)
            && t.rows == s.rows[q.id := Apply(s.rows[q.id], q.commit.patch)]
            && t.trail == s.trail[q.id := [PendingPayment, Confirmed]]
  {
    var q := s.inFlight[a.index];
    assert RequestOk(guard, s, q) && TrailOk(s.trail[q.id], s.rows[q.id].status);
    CapturePlan(q, s.rows[q.id]);
    FreshTrail(s.trail[q.id]);
    FinishRows(guard, s, a.index);
  }

  // Only a capture makes a row confirmed.
  lemma OtherCommits(b: Row, q: Request, clock: int)
    requires Winning(b, q, clock) && !q.commit.patch.ConfirmPatch?
    ensures var c := Apply(b, q.commit.patch); c.status != b.status ==> c.status != Confirmed
  {
    CommitStep(b, q, clock);
  }

  lemma OtherFinishTrail(guard: set<BookingStatus>, s: Db, k: nat, id: nat)
    requires Inv(guard, s) && !Captures(s, Finish(k))
    ensures var t := Next(guard, s, Finish(k));
            id in t.trail && Confirmed in t.trail[id] <==> id in s.trail && Confirmed in s.trail[id]
  {
    FinishRows(guard, s, k);
    if Wins(s, k) {
      var q := s.inFlight[k];
      assert RequestOk(guard, s, q) && RowOk(s.rows[q.id], s.clock);
      OtherCommits(s.rows[q.id], q, s.clock);
    }
  }

  lemma OtherStepTrail(guard: set<BookingStatus>, s: Db, a: Action, id: nat)
    requires Inv(guard, s) && !Captures(s, a)
    ensures var t := Next(guard, s, a);
            id in t.trail && Confirmed in t.trail[id] <==> id in s.trail && Confirmed in s.trail[id]
  {
    if a.Finish? {
      OtherFinishTrail(guard, s, a.index, id);
    } else if a.Create? {
      assert s.trail.Keys == s.rows.Keys;
    } else {
      assert Next(guard, s, a).trail == s.trail;
    }
  }

  lemma PaidBeforeServed(t: seq<BookingStatus>)
    requires Path(t) && t[|t| - 1] in {CheckedIn, Completed}
    ensures Confirmed in t
  {
    var n := |t| - 1;
    assert Edge(t[n - 1], t[n]);
    if t[n] == Completed {
      assert Edge(t[n - 2], t[n - 1]);
    }
  }

  // ---- check-out never before check-in: exactly when force-checkout tests the row it read ----

  lemma RunSnoc(guard: set<BookingStatus>, s: Db, acts: seq<Action>, a: Action)
    ensures Run(guard, s, acts + [a]) == Next(guard, Run(guard, s, acts), a)
  {
    assert (acts + [a])[..|acts|] == acts;
  }

  const SAMPLE := NewBooking(0, 0, 0, 7, Hourly, 0, 3, 100, 0)
  const UNPAID_ROW := FreshRow(SAMPLE, 0)
  const PAID_ROW := Apply(UNPAID_ROW, ConfirmPatch(42))
  const CAPTURE_REQUEST := Request(0, Capture(7, 42), 0, UNPAID_ROW, Commit({PendingPayment}, ConfirmPatch(42)))
  const CHECK_IN_REQUEST := Request(0, CheckIn(7, 42), 1, PAID_ROW, Commit({Confirmed}, CheckInPatch(1)))
  const ARRIVE_REQUEST := Request(0, CheckIn(7, 42), 0, PAID_ROW, Commit({Confirmed}, CheckInPatch(0)))
  const ARRIVED_ROW := Apply(PAID_ROW, CheckInPatch(0))
  const LEAVE_REQUEST := Request(0, CheckOut(7), 0, ARRIVED_ROW, Commit({CheckedIn}, CheckOutPatch(0)))
  const LEFT_ROW := Apply(ARRIVED_ROW, CheckOutPatch(0))

  function ForceRequest(seen: Row): Request {
    Request(0, ForceCheckout, 0, seen, Commit({CheckedIn}, CheckOutPatch(0)))
  }

  ghost predicate Looks(s: Db, clock: int, row: Row, inFlight: seq<Request>) {
    && s.clock == clock && s.roomCounts == map[0 := 1]
    && s.rows == map[0 := row] && s.trail.Keys == {0} && s.inFlight == inFlight
  }

  lemma BeginLooks(guard: set<BookingStatus>, s: Db, row: Row, inFlight: seq<Request>, q: Request)
    requires Looks(s, q.at, row, inFlight) && q.id == 0 && q.seen == row
    requires RoomStaysFree(map[0 := row], 0, q.op, row) && !IsSweep(q.op) && OpInRange(q.op)
    requires Plan(q.op, row, q.at) == Ok(q.commit) && (q.op.ForceCheckout? ==> row.status in guard)
    ensures Looks(Next(guard, s, Begin(0, q.op, q.at)), q.at, row, inFlight + [q])
  {
  }

  lemma FinishLooks(guard: set<BookingStatus>, s: Db, clock: int, row: Row, inFlight: seq<Request>, k: nat)
    requires Looks(s, clock, row, inFlight) && k < |inFlight|
    requires inFlight[k].id == 0 && inFlight[k].at <= clock && row.status in inFlight[k].commit.from
    ensures Looks(Next(guard, s, Finish(k)), clock, Apply(row, inFlight[k].commit.patch), RemoveAt(inFlight, k))
  {
  }

  lemma AddLooks(guard: set<BookingStatus>)
    ensures Next(guard, INITIAL, AddRoomType(0, 1)) == INITIAL.(roomCounts := map[0 := 1])
    ensures Looks(Next(guard, INITIAL.(roomCounts := map[0 := 1]), Create(0, SAMPLE, 1)), 0, UNPAID_ROW, [])
  {
    assert Overlapping(INITIAL.rows, 0, 0, CheckOutFor(SAMPLE)) == {};
  }

  lemma ThenBegin(guard: set<BookingStatus>, acts: seq<Action>, row: Row, inFlight: seq<Request>, q: Request)
    returns (more: seq<Action>)
    requires Looks(Run(guard, INITIAL, acts), q.at, row, inFlight) && q.id == 0 && q.seen == row
    requires RoomStaysFree(map[0 := row], 0, q.op, row) && !IsSweep(q.op) && OpInRange(q.op)
    requires Plan(q.op, row, q.at) == Ok(q.commit) && (q.op.ForceCheckout? ==> row.status in guard)
    ensures Looks(Run(guard, INITIAL, more), q.at, row, inFlight + [q])
  {
    more := acts + [Begin(0, q.op, q.at)];
    BeginLooks(guard, Run(guard, INITIAL, acts), row, inFlight, q);
    RunSnoc(guard, INITIAL, acts, Begin(0, q.op, q.at));
  }

  lemma ThenFinish(guard: set<BookingStatus>, acts: seq<Action>, clock: int, row: Row, inFlight: seq<Request>, k: nat)
    returns (more: seq<Action>)
    requires Looks(Run(guard, INITIAL, acts), clock, row, inFlight) && k < |inFlight|
    requires inFlight[k].id == 0 && inFlight[k].at <= clock && row.status in inFlight[k].commit.from
    ensures Looks(Run(guard, INITIAL, more), clock, Apply(row, inFlight[k].commit.patch), RemoveAt(inFlight, k))
  {
    more := acts + [Finish(k)];
    FinishLooks(guard, Run(guard, INITIAL, acts), clock, row, inFlight, k);
    RunSnoc(guard, INITIAL, acts, Finish(k));
  }

  lemma CreateLooks(guard: set<BookingStatus>) returns (acts: seq<Action>)
    ensures Looks(Run(guard, INITIAL, acts), 0, UNPAID_ROW, [])
  {
    acts := [AddRoomType(0, 1), Create(0, SAMPLE, 1)];
    AddLooks(guard);
    RunSnoc(guard, INITIAL, [], acts[0]);
    RunSnoc(guard, INITIAL, [acts[0]], acts[1]);
    assert [] + [acts[0]] == [acts[0]] && [acts[0]] + [acts[1]] == acts;
  }

  // The force-checkout reads row `seen`, unpaid or paid, before the guest arrives.
  lemma ForceReadLooks(guard: set<BookingStatus>) returns (acts: seq<Action>, seen: Row)
    requires !SafeGuard(guard)
    ensures Looks(Run(guard, INITIAL, acts), 0, PAID_ROW, [ForceRequest(seen)])
  {
    acts := CreateLooks(guard);
    acts := ThenBegin(guard, acts, UNPAID_ROW, [], CAPTURE_REQUEST);
    if PendingPayment in guard {
      seen := UNPAID_ROW;
      acts := ThenBegin(guard, acts, seen, [CAPTURE_REQUEST], ForceRequest(seen));
      acts := ThenFinish(guard, acts, 0, seen, [CAPTURE_REQUEST, ForceRequest(seen)], 0);
    } else {
      seen := PAID_ROW;
      acts := ThenFinish(guard, acts, 0, UNPAID_ROW, [CAPTURE_REQUEST], 0);
      acts := ThenBegin(guard, acts, seen, [], ForceRequest(seen));
    }
  }

  lemma ThenTick(guard: set<BookingStatus>, acts: seq<Action>, clock: int, row: Row, inFlight: seq<Request>)
    returns (more: seq<Action>)
    requires Looks(Run(guard, INITIAL, acts), clock, row, inFlight)
    ensures Looks(Run(guard, INITIAL, more), clock + 1, row, inFlight)
  {
    more := acts + [Tick(1)];
    RunSnoc(guard, INITIAL, acts, Tick(1));
  }

  // Read at 0, it commits after a check-in stamped 1.
  lemma LateForceCheckout(guard: set<BookingStatus>) returns (acts: seq<Action>)
    requires !SafeGuard(guard)
    ensures 0 in Run(guard, INITIAL, acts).rows && !Ordered(Run(guard, INITIAL, acts).rows[0])
  {
    var seen: Row;
    acts, seen := ForceReadLooks(guard);
    var force := ForceRequest(seen);
    acts := ThenTick(guard, acts, 0, PAID_ROW, [force]);
    acts := ThenBegin(guard, acts, PAID_ROW, [force], CHECK_IN_REQUEST);
    acts := ThenFinish(guard, acts, 1, PAID_ROW, [force, CHECK_IN_REQUEST], 1);
    assert RemoveAt([force, CHECK_IN_REQUEST], 1) == [force];
    var arrived := Apply(PAID_ROW, CheckInPatch(1));
    acts := ThenFinish(guard, acts, 1, arrived, [force], 0);
    assert !Ordered(Apply(arrived, CheckOutPatch(0)));
  }

  /** Check-out never precedes check-in, in every run, if and only if force-checkout
      refuses rows it reads as pending or confirmed. The code does not refuse them. */
  lemma {:induction false} CheckOutOrderExact(guard: set<BookingStatus>)
    ensures (forall acts: seq<Action>, id: nat :: id in Run(guard, INITIAL, acts).rows ==>
      Ordered(Run(guard, INITIAL, acts).rows[id]))
            <==> SafeGuard(guard)
  {
    if SafeGuard(guard) {
      forall acts: seq<Action>, id: nat | id in Run(guard, INITIAL, acts).rows
        ensures Ordered(Run(guard, INITIAL, acts).rows[id])
      {
        RunKeepsInv(guard, acts);
      }
    } else {
      var acts := LateForceCheckout(guard);
      assert 0 in Run(guard, INITIAL, acts).rows;
    }
  }

  /** The code, which tests nothing there, lets it. */
  lemma CodeBreaksOrder() returns (acts: seq<Action>)
    ensures 0 in Run(NO_GUARD, INITIAL, acts).rows && !Ordered(Run(NO_GUARD, INITIAL, acts).rows[0])
    ensures forall status: BookingStatus :: status in NO_GUARD
  {
    forall status: BookingStatus ensures status in NO_GUARD {
      match status
      case PendingPayment =>
      case Confirmed =>
      case CheckedIn =>
      case Completed =>
      case Cancelled =>
      case NoShow =>
      case Voided =>
    }
    acts := LateForceCheckout(NO_GUARD);
  }
}
