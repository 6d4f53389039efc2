/** Disputes: the rules every operation applies, then the protocol under arbitrary interleaving. */
module DisputeRules {
  import opened Common
  import opened Booking

  datatype Status =
    | Filed | UnderReview | AwaitingHotelResponse
    | ResolvedGuest | ResolvedHotel | ResolvedPartial | ResolvedWalletCredit | Escalated | ClosedNoResponse

  const OPEN: set<Status> := {Filed, UnderReview, AwaitingHotelResponse}

  const FILING_WINDOW: int := 48 * HOUR
  const RESPONSE_WINDOW: int := 48 * HOUR
  const RESOLUTION_WINDOW: int := 7 * DAY

  datatype Resolution = FullRefund | PartialRefund | NoAction | WalletCredit | Escalation

  datatype Dispute = Dispute(
    bookingId: nat, guestId: nat, status: Status, resolution: Option<Resolution>, refund: Option<int>,
    responseDeadline: Option<int>, resolutionDeadline: int, resolvedAt: Option<int>)

  datatype Request = ResolveRequest(kind: Resolution, refundAmount: Option<int>, creditAmount: Option<int>)

  // What a resolution decides from the booking total it reads.
  datatype Outcome = Outcome(kind: Resolution, status: Status, refund: Option<int>, credit: Option<int>)

  predicate HasDispute(disputes: map<nat, Dispute>, bookingId: nat) {
    exists id :: id in disputes && disputes[id].bookingId == bookingId
  }

  // The window is tested with one clock reading, the deadline set from a later one.
  function FileDispute(b: Row, bookingId: nat, guestId: nat, now: int, stamp: int): Result<Dispute> {
    if b.guestId != guestId then Err(NotFound)
    else if b.status != Completed then Err(Conflict)
    else if b.checkedOutAt.None? || now - b.checkedOutAt.value > FILING_WINDOW then Err(Forbidden)
    else Ok(Dispute(bookingId, guestId, Filed, None, None, None, stamp + RESOLUTION_WINDOW, None))
  }

  function Decide(total: int, r: Request): Result<Outcome> {
    match r.kind
    case FullRefund => Ok(Outcome(FullRefund, ResolvedGuest, Some(total), None))
    case PartialRefund =>
      if r.refundAmount.None? || r.refundAmount.value <= 0 then Err(BadRequest)
      else if r.refundAmount.value > total then Err(BadRequest)
      else Ok(Outcome(PartialRefund, ResolvedPartial, r.refundAmount, None))
    case NoAction => Ok(Outcome(NoAction, ResolvedHotel, None, None))
    case WalletCredit =>
      if r.creditAmount.None? || r.creditAmount.value <= 0 then Err(BadRequest)
      else Ok(Outcome(WalletCredit, ResolvedWalletCredit, None, r.creditAmount))
    case Escalation => Ok(Outcome(Escalation, Status.Escalated, None, None))
  }

  function Close(d: Dispute, o: Outcome, now: int): Dispute {
    d.(status := o.status, resolution := Some(o.kind), refund := o.refund, resolvedAt := Some(now))
  }

  // The sweep closes an expired dispute in the guest's favour.
  function AutoClosed(total: int): Outcome { Outcome(FullRefund, ClosedNoResponse, Some(total), None) }

  predicate Expired(d: Dispute, now: int) { d.status in OPEN && d.resolutionDeadline < now }

  predicate MayRespond(d: Dispute, now: int) {
    d.status == AwaitingHotelResponse && d.responseDeadline.Some? && now <= d.responseDeadline.value
  }

  // A refund of zero is falsy: nothing is written to the booking.
  predicate Refunds(o: Outcome) { o.refund.Some? && o.refund.value != 0 }

  /** Each kind of resolution is accepted exactly when the amount it needs is there and in range,
      and decides its own status and that very amount: the whole total for a full refund, what
      was asked for in part, a credit instead of a refund, or neither. */
  lemma DecideShape(total: int, r: Request)
    requires total > 0
    ensures Decide(total, r).Ok? <==>
            && (r.kind == PartialRefund ==> r.refundAmount.Some? && 1 <= r.refundAmount.value <= total)
            && (r.kind == WalletCredit ==> r.creditAmount.Some? && 1 <= r.creditAmount.value)
    ensures Decide(total, r).Err? ==> Decide(total, r).error == BadRequest
    ensures Decide(total, r).Ok? ==>
            var o := Decide(total, r).value;
            && o.kind == r.kind && o.status !in {Filed, UnderReview, AwaitingHotelResponse, ClosedNoResponse}
            && (r.kind == FullRefund <==> o.status == ResolvedGuest)
            && (r.kind == PartialRefund <==> o.status == ResolvedPartial)
            && (r.kind == NoAction <==> o.status == ResolvedHotel)
            && (r.kind == WalletCredit <==> o.status == ResolvedWalletCredit)
            && (r.kind == Escalation <==> o.status == Status.Escalated)
            && (o.refund.Some? <==> r.kind in {FullRefund, PartialRefund})
            && (o.refund.Some? ==> 0 < o.refund.value <= total)
            && (r.kind == FullRefund ==> o.refund == Some(total))
            && (r.kind == PartialRefund ==> o.refund == r.refundAmount)
            && o.credit == (if r.kind == WalletCredit then r.creditAmount else None)
  {
  }

  // What closing a dispute relies on.
  lemma DecideCloses(total: int, r: Request)
    requires total > 0 && Decide(total, r).Ok?
    ensures var o := Decide(total, r).value;
            && o.status !in OPEN && o.status != ClosedNoResponse
            && (o.refund.Some? <==> o.status in {ResolvedGuest, ResolvedPartial})
            && (o.refund.Some? ==> 0 < o.refund.value <= total)
            && (o.credit.Some? <==> o.status == ResolvedWalletCredit)
  {
  }

  /** A dispute may be filed by the guest of a completed stay up to 48 hours after its check-out,
      and is due seven days after it was stamped. */
  lemma FiledExactly(b: Row, bookingId: nat, guestId: nat, now: int, stamp: int)
    ensures var filed := FileDispute(b, bookingId, guestId, now, stamp);
            && (filed.Ok? <==> b.guestId == guestId && b.status == Completed && b.checkedOutAt.Some?
                               && now <= b.checkedOutAt.value + 172_800_000)
            && (filed.Ok? ==>
                 && filed.value.bookingId == bookingId && filed.value.guestId == guestId
                 && filed.value.status == Filed && filed.value.resolutionDeadline == stamp + 604_800_000
                 && filed.value.resolution == None && filed.value.refund == None
                 && filed.value.responseDeadline == None && filed.value.resolvedAt == None)
            && (b.guestId != guestId <==> filed == Err(NotFound))
  {
  }
}

module Disputes {
  import opened Common
  import opened Booking
  import opened Lifecycle
  import opened DisputeRules

  // Work a request or the sweep still has to do after what it has read.
  datatype Task =
    | CreateTask(dispute: Dispute)
    | ReviewTask(id: nat)
    | AskTask(id: nat, at: int)
    | AnswerTask(id: nat)
    | ResolveTask(id: nat, outcome: Outcome, at: int)
    | CreditTask(id: nat, amount: int)
    | SweepTask(id: nat, at: int)
    | CloseTask(id: nat, bookingId: nat, seen: BookingStatus, total: int, at: int)
    | RefundReadTask(id: nat, bookingId: nat, seen: BookingStatus, amount: int)
    | RefundWriteTask(id: nat, bookingId: nat, seen: BookingStatus, read: int, amount: int)

  // One refund written to a booking: for which dispute (or none, by an admin, a cancellation
  // or a void), the refund so far that its writer went by, the one it overwrote, and the
  // amount it gave.
  datatype Entry = Entry(dispute: Option<nat>, bookingId: nat, read: int, found: int, amount: int)

  datatype Grant = Grant(dispute: nat, amount: int)

  // `outcomes`: what each closed dispute was closed with. `refunds` and `credits` log every
  // effect on money. `delay`: the longest a filing took from testing the window to its stamp.
  datatype World = World(
    db: Db, disputes: map<nat, Dispute>, tasks: seq<Task>, outcomes: map<nat, Outcome>,
    refunds: seq<Entry>, credits: seq<Grant>, delay: nat)

  datatype Step =
    | Book(action: Action)
    | FileRead(bookingId: nat, guestId: nat, at: int, stamp: int)
    | DetailRead(id: nat)
    | AskRead(id: nat, at: int)
    | AnswerRead(id: nat, at: int)
    | ResolveRead(id: nat, request: DisputeRules.Request, at: int)
    | SweepRead(id: nat, at: int)
    | Do(index: nat, newId: nat)

  const START := World(INITIAL, map[], [], map[], [], [], 0)

  predicate OwnedElsewhere(a: Action) {
    a.RefundWrite? || (a.Begin? && a.op.DisputeBookkeeping?)
  }

  function Spawn(w: World, t: Task): World { w.(tasks := w.tasks + [t]) }

  // The compare-and-set on a dispute's status.
  function SetIf(w: World, id: nat, from: set<Status>, d: Dispute): World {
    if id in w.disputes && w.disputes[id].status in from then w.(disputes := w.disputes[id := d]) else w
  }

  function Closed(w: World, id: nat, o: Outcome, at: int): World
    requires id in w.disputes
  {
    w.(disputes := w.disputes[id := Close(w.disputes[id], o, at)], outcomes := w.outcomes[id := o])
  }

  function WriteRefund(db: Db, bookingId: nat, refund: int): Db
    requires bookingId in db.rows && bookingId in db.trail
  {
    Lifecycle.Write(db, bookingId, Apply(db.rows[bookingId], RefundPatch(refund)))
  }

  function Refunded(w: World, e: Entry): World
    requires e.bookingId in w.db.rows && e.bookingId in w.db.trail
  {
    w.(db := WriteRefund(w.db, e.bookingId, e.read + e.amount), refunds := w.refunds + [e])
  }

  // What a resolution does besides closing the dispute: a refund is read and written in
  // the same serializable transaction, a wallet credit is inserted later.
  function Settle(v: World, id: nat, o: Outcome): World
    requires id in v.disputes
  {
    var b := v.disputes[id].bookingId;
    if Refunds(o) then
      if b in v.db.rows && b in v.db.trail then
        Refunded(v, Entry(Some(id), b, RefundedSoFar(v.db.rows[b]), RefundedSoFar(v.db.rows[b]), o.refund.value))
      else v
    else if o.credit.Some? then Spawn(v, CreditTask(id, o.credit.value))
    else v
  }

  // `unique`: the table has a unique key on the booking. The code's has none.
  ghost function Perform(unique: bool, w: World, t: Task, newId: nat): World {
    match t
    case CreateTask(d) =>
      if newId in w.disputes || (unique && HasDispute(w.disputes, d.bookingId)) then w
      else w.(disputes := w.disputes[newId := d])
    case ReviewTask(id) =>
      if id in w.disputes then SetIf(w, id, {Filed}, w.disputes[id].(status := UnderReview)) else w
    case AskTask(id, at) =>
      if id in w.disputes then
        SetIf(w, id, {Filed, UnderReview},
              w.disputes[id].(status := AwaitingHotelResponse, responseDeadline := Some(at + RESPONSE_WINDOW)))
      else w
    case AnswerTask(id) =>
      if id in w.disputes then SetIf(w, id, {AwaitingHotelResponse}, w.disputes[id].(status := UnderReview)) else w
    case ResolveTask(id, o, at) =>
      if id !in w.disputes || w.disputes[id].status !in OPEN then w else Settle(Closed(w, id, o, at), id, o)
    case CreditTask(id, amount) => w.(credits := w.credits + [Grant(id, amount)])
    case SweepTask(id, at) =>
      if id in w.disputes && w.disputes[id].bookingId in w.db.rows then
        var b := w.db.rows[w.disputes[id].bookingId];
        Spawn(w, CloseTask(id, w.disputes[id].bookingId, b.status, b.total, at))
      else w
    case CloseTask(id, bookingId, seen, total, at) =>
      if id !in w.disputes || w.disputes[id].status !in OPEN then w
      else Spawn(Closed(w, id, AutoClosed(total), at), RefundReadTask(id, bookingId, seen, total))
    case RefundReadTask(id, bookingId, seen, amount) =>
      if bookingId in w.db.rows then
        Spawn(w, RefundWriteTask(id, bookingId, seen, RefundedSoFar(w.db.rows[bookingId]), amount))
      else w
    case RefundWriteTask(id, bookingId, seen, read, amount) =>
      if bookingId in w.db.rows && bookingId in w.db.trail && w.db.rows[bookingId].status == seen then
        Refunded(w, Entry(Some(id), bookingId, read, RefundedSoFar(w.db.rows[bookingId]), amount))
      else w // the compare-and-set on the booking lost: the refund is never recorded
  }

  predicate SetsRefund(p: Patch) { p.RefundPatch? || p.CancelPatch? || p.VoidPatch? }

  // The refund a booking operation writes when its commit wins: an admin's is added to the
  // one it read, a cancellation or a void sets it outright, as if none had been there.
  ghost function BookingRefunds(db: Db, a: Action): seq<Entry> {
    if a.Finish? && Wins(db, a.index) && SetsRefund(db.inFlight[a.index].commit.patch) then
      var q := db.inFlight[a.index];
      var read := if q.commit.patch.RefundPatch? then RefundedSoFar(q.seen) else 0;
      [Entry(None, q.id, read, RefundedSoFar(db.rows[q.id]), q.commit.patch.refund - read)]
    else []
  }

  ghost function Advance(unique: bool, w: World, s: Step): World {
    match s
    case Book(a) =>
      if OwnedElsewhere(a) then w
      else w.(db := Next(NO_GUARD, w.db, a), refunds := w.refunds + BookingRefunds(w.db, a))
    case FileRead(bookingId, guestId, at, stamp) =>
      if bookingId !in w.db.rows || at < w.db.clock || stamp < at || HasDispute(w.disputes, bookingId) then w
      else
        var filed := FileDispute(w.db.rows[bookingId], bookingId, guestId, at, stamp);
        if filed.Ok? then Spawn(w.(delay := Max(w.delay, stamp - at)), CreateTask(filed.value)) else w
    case DetailRead(id) => if id in w.disputes && w.disputes[id].status == Filed then Spawn(w, ReviewTask(id)) else w
    case AskRead(id, at) => if id in w.disputes then Spawn(w, AskTask(id, at)) else w
    case AnswerRead(id, at) =>
      if id in w.disputes && MayRespond(w.disputes[id], at) then Spawn(w, AnswerTask(id)) else w
    case ResolveRead(id, request, at) =>
      if id !in w.disputes || w.disputes[id].bookingId !in w.db.rows then w
      else
        var decided := Decide(w.db.rows[w.disputes[id].bookingId].total, request);
        if decided.Ok? then Spawn(w, ResolveTask(id, decided.value, at)) else w
    case SweepRead(id, at) =>
      if id in w.disputes && Expired(w.disputes[id], at) then Spawn(w, SweepTask(id, at)) else w
    case Do(k, newId) =>
      if k < |w.tasks| then Perform(unique, w.(tasks := RemoveAt(w.tasks, k)), w.tasks[k], newId) else w
  }

  ghost function History(unique: bool, steps: seq<Step>): World {
    if steps == [] then START else Advance(unique, History(unique, steps[..|steps| - 1]), steps[|steps| - 1])
  }

  // ---- what every history keeps ----

  ghost predicate Served(w: World, bookingId: nat) {
    bookingId in w.db.rows && w.db.rows[bookingId].status == Completed
  }

  ghost predicate OutcomeOk(o: Outcome) {
    && o.status !in OPEN
    && (o.refund.Some? <==> o.status in {ResolvedGuest, ResolvedPartial, ClosedNoResponse})
    && (o.refund.Some? ==> 0 < o.refund.value)
    && (o.credit.Some? <==> o.status == ResolvedWalletCredit)
  }

  // An open dispute has decided nothing, a closed one carries its outcome.
  ghost predicate DecidedOk(w: World, id: nat)
    requires id in w.disputes
  {
    var d := w.disputes[id];
    if d.status in OPEN then id !in w.outcomes && d.refund.None?
    else
      && id in w.outcomes && OutcomeOk(w.outcomes[id])
      && d.status == w.outcomes[id].status && d.refund == w.outcomes[id].refund
  }

  // Filed within the filing window and delay after check-out, due a resolution window later, and
  // closed for want of a response only after that.
  ghost predicate Timely(w: World, d: Dispute) {
    && Served(w, d.bookingId)
    && w.db.rows[d.bookingId].checkedOutAt.Some?
    && d.resolutionDeadline <= w.db.rows[d.bookingId].checkedOutAt.value + FILING_WINDOW + w.delay + RESOLUTION_WINDOW
    && (d.status == ClosedNoResponse ==> d.resolvedAt.Some? && d.resolutionDeadline < d.resolvedAt.value)
  }

  ghost predicate DisputesOk(w: World) {
    && w.outcomes.Keys <= w.disputes.Keys
    && forall id :: id in w.disputes ==> DecidedOk(w, id) && Timely(w, w.disputes[id])
  }

  // A refund decided for a dispute on this booking, of this amount.
  ghost predicate Decided(w: World, id: nat, bookingId: nat, amount: int) {
    && id in w.disputes && w.disputes[id].bookingId == bookingId
    && id in w.outcomes && w.outcomes[id].refund == Some(amount) && 0 < amount
  }

  ghost predicate TaskOk(w: World, t: Task) {
    match t
    case CreateTask(d) => Timely(w, d) && d.status == Filed && d.refund.None?
    case SweepTask(id, at) => id in w.disputes && w.disputes[id].resolutionDeadline < at
    case ResolveTask(id, o, _) => id in w.disputes && OutcomeOk(o) && o.status != ClosedNoResponse
    case CloseTask(id, b, seen, total, at) =>
      && id in w.disputes && w.disputes[id].resolutionDeadline < at
      && b == w.disputes[id].bookingId && seen == Completed && 0 < total
    case RefundReadTask(id, b, seen, amount) => Decided(w, id, b, amount) && Served(w, b) && seen == Completed
    case RefundWriteTask(id, b, seen, read, amount) =>
      Decided(w, id, b, amount) && Served(w, b) && seen == Completed && 0 <= read
    case CreditTask(id, amount) => id in w.outcomes && w.outcomes[id].credit == Some(amount)
    case _ => true
  }

  ghost predicate TasksOk(w: World) { forall t :: t in w.tasks ==> TaskOk(w, t) }

  ghost predicate Core(w: World) { DisputesOk(w) && TasksOk(w) }

  // What the tasks rely on about the bookings.
  ghost predicate Paying(db: Db) {
    db.trail.Keys == db.rows.Keys && forall b :: b in db.rows ==> 0 <= RefundedSoFar(db.rows[b]) && 0 < db.rows[b].total
  }

  ghost predicate Sound(w: World) { Inv(NO_GUARD, w.db) && Core(w) }

  lemma InvPays(db: Db)
    requires Inv(NO_GUARD, db)
    ensures Paying(db)
  {
    forall b | b in db.rows ensures 0 <= RefundedSoFar(db.rows[b]) && 0 < db.rows[b].total {
      assert RowOk(db.rows[b], db.clock);
    }
  }

  // Nothing a task or a log entry relies on is ever taken back.
  ghost predicate Later(w: World, v: World) {
    && (forall id :: id in w.disputes ==>
         && id in v.disputes && v.disputes[id].bookingId == w.disputes[id].bookingId
         && v.disputes[id].resolutionDeadline == w.disputes[id].resolutionDeadline)
    && (forall id :: id in w.outcomes ==> id in v.outcomes && v.outcomes[id] == w.outcomes[id])
    && (forall b :: Served(w, b) ==> Served(v, b) && v.db.rows[b].checkedOutAt == w.db.rows[b].checkedOutAt)
    && w.delay <= v.delay
  }

  lemma TaskLater(w: World, v: World, t: Task)
    requires TaskOk(w, t) && Later(w, v)
    ensures TaskOk(v, t)
  {
    if t.RefundReadTask? || t.RefundWriteTask? {
      assert Served(w, t.bookingId);
    } else if t.CreateTask? {
      assert Served(w, t.dispute.bookingId);
    }
  }

  lemma TasksLater(w: World, v: World)
    requires TasksOk(w) && Later(w, v)
    ensures forall t :: t in w.tasks ==> TaskOk(v, t)
  {
    forall t | t in w.tasks ensures TaskOk(v, t) {
      assert TaskOk(w, t);
      TaskLater(w, v, t);
    }
  }

  // The bookings move on, or a log grows.
  lemma CoreMoves(w: World, v: World)
    requires Core(w) && Later(w, v)
    requires v.disputes == w.disputes && v.outcomes == w.outcomes && v.tasks == w.tasks
    ensures Core(v)
  {
    TasksLater(w, v);
    forall id | id in v.disputes ensures DecidedOk(v, id) && Timely(v, v.disputes[id]) {
      assert DecidedOk(w, id) && Timely(w, w.disputes[id]);
    }
  }

  lemma BookingsLater(w: World, a: Action)
    requires Inv(NO_GUARD, w.db)
    ensures Later(w, w.(db := Next(NO_GUARD, w.db, a)))
  {
    var v := w.(db := Next(NO_GUARD, w.db, a));
    forall b | Served(w, b) ensures Served(v, b) && v.db.rows[b].checkedOutAt == w.db.rows[b].checkedOutAt {
      RowsEvolve(NO_GUARD, w.db, a, b);
      assert RowOk(w.db.rows[b], w.db.clock);
    }
  }

  lemma RefundKeepsRow(b: Row, clock: int, refund: int)
    requires RowOk(b, clock) && b.status == Completed && 0 <= refund
    ensures RowOk(Apply(b, RefundPatch(refund)), clock) && Evolved(b, Apply(b, RefundPatch(refund)))
  {
  }

  lemma RefundLater(db: Db, bookingId: nat, refund: int)
    requires Inv(NO_GUARD, db) && bookingId in db.rows && bookingId in db.trail && 0 <= refund
    requires db.rows[bookingId].status == Completed
    ensures Inv(NO_GUARD, WriteRefund(db, bookingId, refund))
    ensures WriteRefund(db, bookingId, refund).rows
            == db.rows[bookingId := Apply(db.rows[bookingId], RefundPatch(refund))]
  {
    RefundKeepsRow(db.rows[bookingId], db.clock, refund);
    WriteKeepsInv(NO_GUARD, db, bookingId, Apply(db.rows[bookingId], RefundPatch(refund)));
  }

  // ---- the ways a task changes the world ----

  lemma RefundIsLater(w: World, v: World, bookingId: nat, row: Row)
    requires Served(w, bookingId) && v.db.rows == w.db.rows[bookingId := row] && v.disputes == w.disputes
    requires v.outcomes == w.outcomes && v.delay == w.delay && row.status == Completed &&
      row.checkedOutAt == w.db.rows[bookingId].checkedOutAt
    ensures Later(w, v)
  {
  }

  lemma RefundedCore(w: World, e: Entry, v: World)
    requires Core(w) && Served(w, e.bookingId) && e.bookingId in w.db.trail && v == Refunded(w, e)
    ensures Core(v) && Later(w, v)
  {
    RefundIsLater(w, v, e.bookingId, Apply(w.db.rows[e.bookingId], RefundPatch(e.read + e.amount)));
    CoreMoves(w, v);
  }

  lemma SpawnCore(w: World, t: Task, v: World)
    requires Core(w) && TaskOk(w, t) && v == Spawn(w, t)
    ensures Core(v) && Later(w, v)
  {
    TasksLater(w, v);
    TaskLater(w, v, t);
    forall id | id in v.disputes ensures DecidedOk(v, id) && Timely(v, v.disputes[id]) {
      assert DecidedOk(w, id) && Timely(w, w.disputes[id]);
    }
  }

  lemma DisputeWritten(w: World, v: World, id: nat)
    requires Core(w) && Later(w, v) && id in v.disputes && DecidedOk(v, id) && Timely(v, v.disputes[id])
    requires v.db == w.db && v.tasks == w.tasks && v.outcomes.Keys <= v.disputes.Keys
    requires forall j :: j != id && j in v.disputes ==> j in w.disputes && v.disputes[j] == w.disputes[j]
    requires forall j :: j != id && j in v.outcomes ==> j in w.outcomes
    ensures Core(v)
  {
    TasksLater(w, v);
    forall j | j in v.disputes && j != id ensures DecidedOk(v, j) && Timely(v, v.disputes[j]) {
      assert DecidedOk(w, j) && Timely(w, w.disputes[j]);
    }
  }

  lemma OpenLater(w: World, id: nat, d: Dispute, v: World)
    requires v == w.(disputes := w.disputes[id := d])
    requires id in w.disputes ==>
      d.bookingId == w.disputes[id].bookingId && d.resolutionDeadline == w.disputes[id].resolutionDeadline
    ensures Later(w, v)
  {
  }

  // An open dispute row written: a new one, or one that stays open.
  lemma OpenWritten(w: World, id: nat, d: Dispute, v: World)
    requires Core(w) && Timely(w, d) && d.status in OPEN && d.refund.None? && v == w.(disputes := w.disputes[id := d])
    requires id in w.disputes ==>
      && w.disputes[id].status in OPEN && d.bookingId == w.disputes[id].bookingId
      && d.resolutionDeadline == w.disputes[id].resolutionDeadline
    ensures Core(v) && Later(w, v)
  {
    assert id in w.disputes ==> DecidedOk(w, id);
    OpenLater(w, id, d, v);
    DisputeWritten(w, v, id);
  }

  lemma ClosedLater(w: World, id: nat, o: Outcome, at: int, v: World)
    requires id in w.disputes && id !in w.outcomes && v == Closed(w, id, o, at)
    ensures Later(w, v)
  {
  }

  lemma ClosedCore(w: World, id: nat, o: Outcome, at: int, v: World)
    requires Core(w) && id in w.disputes && w.disputes[id].status in OPEN && OutcomeOk(o)
    requires o.status == ClosedNoResponse ==> w.disputes[id].resolutionDeadline < at
    requires v == Closed(w, id, o, at)
    ensures Core(v) && Later(w, v)
  {
    assert DecidedOk(w, id) && Timely(w, w.disputes[id]);
    ClosedLater(w, id, o, at, v);
    DisputeWritten(w, v, id);
  }

  lemma LaterTrans(w: World, v: World, u: World)
    requires Later(w, v) && Later(v, u)
    ensures Later(w, u)
  {
  }

  lemma DisputedBooking(w: World, id: nat)
    requires Core(w) && Paying(w.db) && id in w.disputes
    ensures var b := w.disputes[id].bookingId;
            && Served(w, b) && b in w.db.trail && 0 <= RefundedSoFar(w.db.rows[b]) && 0 < w.db.rows[b].total
  {
    assert Timely(w, w.disputes[id]);
  }

  // ---- one task performed ----

  lemma StatusTaskCore(unique: bool, w: World, t: Task, newId: nat, v: World)
    requires Core(w) && TaskOk(w, t) && (t.CreateTask? || t.ReviewTask? || t.AskTask? || t.AnswerTask?)
    requires v == Perform(unique, w, t, newId)
    ensures Core(v) && Later(w, v)
  {
    if v != w {
      if t.CreateTask? {
        OpenWritten(w, newId, t.dispute, v);
      } else {
        assert DecidedOk(w, t.id) && Timely(w, w.disputes[t.id]);
        OpenWritten(w, t.id, v.disputes[t.id], v);
      }
    }
  }

  lemma SettleCore(v: World, id: nat, o: Outcome, u: World)
    requires Core(v) && Paying(v.db) && id in v.outcomes && v.outcomes[id] == o && OutcomeOk(o) && u == Settle(v, id, o)
    ensures Core(u) && Later(v, u)
  {
    DisputedBooking(v, id);
    var b := v.disputes[id].bookingId;
    if Refunds(o) {
      var so := RefundedSoFar(v.db.rows[b]);
      RefundedCore(v, Entry(Some(id), b, so, so, o.refund.value), u);
    } else if o.credit.Some? {
      SpawnCore(v, CreditTask(id, o.credit.value), u);
    }
  }

  lemma ResolveCore(unique: bool, w: World, t: Task, newId: nat, u: World)
    requires Core(w) && Paying(w.db) && TaskOk(w, t) && t.ResolveTask? && u == Perform(unique, w, t, newId)
    ensures Core(u) && Later(w, u)
  {
    if w.disputes[t.id].status in OPEN {
      var v := Closed(w, t.id, t.outcome, t.at);
      ClosedCore(w, t.id, t.outcome, t.at, v);
      SettleCore(v, t.id, t.outcome, u);
      LaterTrans(w, v, u);
    }
  }

  lemma CloseCore(unique: bool, w: World, t: Task, newId: nat, u: World)
    requires Core(w) && Paying(w.db) && TaskOk(w, t) && t.CloseTask? && u == Perform(unique, w, t, newId)
    ensures Core(u) && Later(w, u)
  {
    if w.disputes[t.id].status in OPEN {
      var v := Closed(w, t.id, AutoClosed(t.total), t.at);
      ClosedCore(w, t.id, AutoClosed(t.total), t.at, v);
      DisputedBooking(w, t.id);
      SpawnCore(v, RefundReadTask(t.id, t.bookingId, t.seen, t.total), u);
      LaterTrans(w, v, u);
    }
  }

  lemma SweepCore(unique: bool, w: World, t: Task, newId: nat, v: World)
    requires Core(w) && Paying(w.db) && TaskOk(w, t) && (t.SweepTask? || t.CreditTask? || t.RefundReadTask?)
    requires v == Perform(unique, w, t, newId)
    ensures Core(v) && Later(w, v)
  {
    if t.SweepTask? {
      DisputedBooking(w, t.id);
      var b := w.disputes[t.id].bookingId;
      SpawnCore(w, CloseTask(t.id, b, w.db.rows[b].status, w.db.rows[b].total, t.at), v);
    } else if t.CreditTask? {
      CoreMoves(w, v);
    } else {
      DisputedBooking(w, t.id);
      SpawnCore(w, RefundWriteTask(t.id, t.bookingId, t.seen, RefundedSoFar(w.db.rows[t.bookingId]), t.amount), v);
    }
  }

  lemma RefundWriteCore(unique: bool, w: World, t: Task, newId: nat, v: World)
    requires Core(w) && Paying(w.db) && TaskOk(w, t) && t.RefundWriteTask? && v == Perform(unique, w, t, newId)
    ensures Core(v) && Later(w, v)
  {
    DisputedBooking(w, t.id);
    RefundedCore(w, Entry(Some(t.id), t.bookingId, t.read, RefundedSoFar(w.db.rows[t.bookingId]), t.amount), v);
  }

  lemma PerformCore(unique: bool, w: World, t: Task, newId: nat, v: World)
    requires Core(w) && Paying(w.db) && TaskOk(w, t) && v == Perform(unique, w, t, newId)
    ensures Core(v) && Later(w, v)
  {
    if t.ResolveTask? {
      ResolveCore(unique, w, t, newId, v);
    } else if t.CloseTask? {
      CloseCore(unique, w, t, newId, v);
    } else if t.SweepTask? || t.CreditTask? || t.RefundReadTask? {
      SweepCore(unique, w, t, newId, v);
    } else if t.RefundWriteTask? {
      RefundWriteCore(unique, w, t, newId, v);
    } else {
      StatusTaskCore(unique, w, t, newId, v);
    }
  }

  // What closing a dispute adds to its booking.
  function SettleEntry(w: World, t: Task): Entry
    requires t.ResolveTask? && Refunds(t.outcome) && t.id in w.disputes && w.disputes[t.id].bookingId in w.db.rows
  {
    var b := w.disputes[t.id].bookingId;
    Entry(Some(t.id), b, RefundedSoFar(w.db.rows[b]), RefundedSoFar(w.db.rows[b]), t.outcome.refund.value)
  }

  lemma ResolveEffect(unique: bool, w: World, t: Task, newId: nat, v: World)
    requires t.ResolveTask? && t.id in w.disputes && Served(w, w.disputes[t.id].bookingId)
    requires w.disputes[t.id].bookingId in w.db.trail && v == Perform(unique, w, t, newId)
    ensures v.credits == w.credits
    ensures if w.disputes[t.id].status in OPEN && Refunds(t.outcome)
            then var e := SettleEntry(w, t);
                 v.db == WriteRefund(w.db, e.bookingId, e.read + e.amount) && v.refunds == w.refunds + [e]
            else v.db == w.db && v.refunds == w.refunds
  {
  }

  lemma OtherEffect(unique: bool, w: World, t: Task, newId: nat, v: World)
    requires !t.ResolveTask? && !t.RefundWriteTask? && v == Perform(unique, w, t, newId)
    ensures v.db == w.db && v.refunds == w.refunds && (!t.CreditTask? ==> v.credits == w.credits)
  {
  }

  lemma RefundWriteEffect(unique: bool, w: World, t: Task, newId: nat, v: World)
    requires TaskOk(w, t) && t.RefundWriteTask? && t.bookingId in w.db.trail && v == Perform(unique, w, t, newId)
    ensures v == Refunded(w, Entry(Some(t.id), t.bookingId, t.read, RefundedSoFar(w.db.rows[t.bookingId]), t.amount))
  {
  }

  lemma ResolveDb(unique: bool, w: World, t: Task, newId: nat, v: World) returns (b: nat, refund: int)
    requires Core(w) && Paying(w.db) && TaskOk(w, t) && t.ResolveTask? && v == Perform(unique, w, t, newId)
    ensures v.db == w.db || (Served(w, b) && b in w.db.trail && 0 <= refund && v.db == WriteRefund(w.db, b, refund))
  {
    b, refund := w.disputes[t.id].bookingId, 0;
    DisputedBooking(w, t.id);
    ResolveEffect(unique, w, t, newId, v);
    if w.disputes[t.id].status in OPEN && Refunds(t.outcome) {
      refund := SettleEntry(w, t).read + SettleEntry(w, t).amount;
    }
  }

  // The bookings change only by a refund to a completed one.
  lemma PerformDb(unique: bool, w: World, t: Task, newId: nat, v: World) returns (b: nat, refund: int)
    requires Core(w) && Paying(w.db) && TaskOk(w, t) && v == Perform(unique, w, t, newId)
    ensures v.db == w.db || (Served(w, b) && b in w.db.trail && 0 <= refund && v.db == WriteRefund(w.db, b, refund))
  {
    b, refund := 0, 0;
    if t.ResolveTask? {
      b, refund := ResolveDb(unique, w, t, newId, v);
    } else if t.RefundWriteTask? {
      RefundWriteEffect(unique, w, t, newId, v);
      b, refund := t.bookingId, t.read + t.amount;
    } else {
      OtherEffect(unique, w, t, newId, v);
    }
  }

  lemma DbKept(db: Db, d: Db, b: nat, refund: int)
    requires Inv(NO_GUARD, db)
    requires d == db || (b in db.rows && db.rows[b].status == Completed && b in db.trail && 0 <= refund
                         && d == WriteRefund(db, b, refund))
    ensures Inv(NO_GUARD, d)
  {
    if d != db {
      RefundLater(db, b, refund);
    }
  }

  lemma TakeOut(w: World, k: nat, v: World)
    requires Core(w) && k < |w.tasks| && v == w.(tasks := RemoveAt(w.tasks, k))
    ensures Core(v) && TaskOk(v, w.tasks[k]) && Later(w, v)
  {
    assert TaskOk(w, w.tasks[k]);
    TaskLater(w, v, w.tasks[k]);
    TasksLater(w, v);
    forall id | id in v.disputes ensures DecidedOk(v, id) && Timely(v, v.disputes[id]) {
      assert DecidedOk(w, id) && Timely(w, w.disputes[id]);
    }
  }

  lemma DoSound(unique: bool, w: World, s: Step, v: World)
    requires Sound(w) && s.Do? && v == Advance(unique, w, s)
    ensures Sound(v) && Later(w, v)
  {
    if s.index < |w.tasks| {
      var w1 := w.(tasks := RemoveAt(w.tasks, s.index));
      InvPays(w.db);
      TakeOut(w, s.index, w1);
      PerformCore(unique, w1, w.tasks[s.index], s.newId, v);
      var b, refund := PerformDb(unique, w1, w.tasks[s.index], s.newId, v);
      DbKept(w.db, v.db, b, refund);
      LaterTrans(w, w1, v);
    }
  }

  lemma BookSound(w: World, a: Action, v: World)
    requires Sound(w) && v == w.(db := Next(NO_GUARD, w.db, a), refunds := v.refunds)
    ensures Sound(v) && Later(w, v)
  {
    StepKeepsInv(NO_GUARD, w.db, a);
    BookingsLater(w, a);
    assert Later(w, v);
    CoreMoves(w, v);
  }

  lemma ReadOk(unique: bool, w: World, s: Step, w1: World, t: Task)
    requires Core(w) && Paying(w.db) && !s.Book? && !s.Do? && Advance(unique, w, s) == Spawn(w1, t)
    requires w1 == w.(delay := w1.delay)
    ensures TaskOk(w1, t) && w.delay <= w1.delay
  {
    var v := Advance(unique, w, s);
    assert v.tasks[|w.tasks|] == t;
    if s.ResolveRead? {
      DisputedBooking(w, s.id);
      DecideCloses(w.db.rows[w.disputes[s.id].bookingId].total, s.request);
    }
  }

  lemma ReadShape(unique: bool, w: World, s: Step, v: World)
    requires !s.Book? && !s.Do? && v == Advance(unique, w, s) && v != w
    ensures |v.tasks| == |w.tasks| + 1 && v == Spawn(w.(delay := v.delay), v.tasks[|w.tasks|])
  {
  }

  // What a request reads, it may act on.
  lemma ReadCore(unique: bool, w: World, s: Step, v: World)
    requires Core(w) && Paying(w.db) && !s.Book? && !s.Do? && v == Advance(unique, w, s)
    ensures Core(v) && Later(w, v) && v.db == w.db
  {
    if v != w {
      ReadShape(unique, w, s, v);
      var t, w1 := v.tasks[|w.tasks|], w.(delay := v.delay);
      ReadOk(unique, w, s, w1, t);
      CoreMoves(w, w1);
      SpawnCore(w1, t, v);
      LaterTrans(w, w1, v);
    }
  }

  lemma AdvanceSound(unique: bool, w: World, s: Step, v: World)
    requires Sound(w) && v == Advance(unique, w, s)
    ensures Sound(v) && Later(w, v)
  {
    if s.Book? {
      if !OwnedElsewhere(s.action) {
        BookSound(w, s.action, v);
      }
    } else if s.Do? {
      DoSound(unique, w, s, v);
    } else {
      InvPays(w.db);
      ReadCore(unique, w, s, v);
    }
  }

  lemma {:induction false} HistorySound(unique: bool, steps: seq<Step>)
    ensures Sound(History(unique, steps))
  {
    if steps == [] {
      RunKeepsInv(NO_GUARD, []);
    } else {
      HistorySound(unique, steps[..|steps| - 1]);
      AdvanceSound(unique, History(unique, steps[..|steps| - 1]), steps[|steps| - 1], History(unique, steps));
    }
  }

  // ---- counting effects ----

  function Tally<T>(s: seq<T>, p: T -> bool): nat {
    if s == [] then 0 else Tally(s[..|s| - 1], p) + (if p(s[|s| - 1]) then 1 else 0)
  }

  lemma TallySnoc<T>(s: seq<T>, x: T, p: T -> bool)
    ensures Tally(s + [x], p) == Tally(s, p) + (if p(x) then 1 else 0)
  {
    assert (s + [x])[..|s|] == s;
  }

  lemma {:induction false} TallyRemove<T>(s: seq<T>, k: nat, p: T -> bool)
    requires k < |s|
    ensures Tally(RemoveAt(s, k), p) == Tally(s, p) - (if p(s[k]) then 1 else 0)
  {
    var n := |s| - 1;
    if k == n {
      assert RemoveAt(s, k) == s[..n];
    } else {
      TallyRemove(s[..n], k, p);
      assert RemoveAt(s, k) == RemoveAt(s[..n], k) + [s[n]];
      TallySnoc(RemoveAt(s[..n], k), s[n], p);
    }
  }

  lemma {:induction false} TallyNone<T(!new)>(s: seq<T>, p: T -> bool)
    requires forall x :: x in s ==> !p(x)
    ensures Tally(s, p) == 0
  {
    if s != [] {
      assert s[|s| - 1] in s;
      TallyNone(s[..|s| - 1], p);
    }
  }

  predicate Owes(t: Task, id: nat) { (t.RefundReadTask? || t.RefundWriteTask? || t.CreditTask?) && t.id == id }

  // Effects on money still owed for a dispute, refunds written for it, credits granted for it.
  function Owed(tasks: seq<Task>, id: nat): nat { Tally(tasks, (t: Task) => Owes(t, id)) }

  function Repaid(log: seq<Entry>, id: nat): nat { Tally(log, (e: Entry) => e.dispute == Some(id)) }

  function Granted(log: seq<Grant>, id: nat): nat { Tally(log, (g: Grant) => g.dispute == id) }

  lemma OwedSnoc(tasks: seq<Task>, t: Task, id: nat)
    ensures Owed(tasks + [t], id) == Owed(tasks, id) + (if Owes(t, id) then 1 else 0)
  {
    TallySnoc(tasks, t, (t: Task) => Owes(t, id));
  }

  lemma OwedRemove(tasks: seq<Task>, k: nat, id: nat)
    requires k < |tasks|
    ensures Owed(RemoveAt(tasks, k), id) == Owed(tasks, id) - (if Owes(tasks[k], id) then 1 else 0)
  {
    TallyRemove(tasks, k, (t: Task) => Owes(t, id));
  }

  lemma RepaidSnoc(log: seq<Entry>, e: Entry, id: nat)
    ensures Repaid(log + [e], id) == Repaid(log, id) + (if e.dispute == Some(id) then 1 else 0)
  {
    TallySnoc(log, e, (e: Entry) => e.dispute == Some(id));
  }

  lemma GrantedSnoc(log: seq<Grant>, g: Grant, id: nat)
    ensures Granted(log + [g], id) == Granted(log, id) + (if g.dispute == id then 1 else 0)
  {
    TallySnoc(log, g, (g: Grant) => g.dispute == id);
  }

  ghost function Effects(w: World, id: nat): nat { Owed(w.tasks, id) + Repaid(w.refunds, id) + Granted(w.credits, id) }

  ghost function Due(w: World, id: nat): nat {
    if id in w.outcomes && (w.outcomes[id].refund.Some? || w.outcomes[id].credit.Some?) then 1 else 0
  }

  lemma ResolveCounts(unique: bool, w: World, t: Task, newId: nat, id: nat, v: World)
    requires Core(w) && Paying(w.db) && TaskOk(w, t) && t.ResolveTask? && v == Perform(unique, w, t, newId)
    ensures Effects(v, id) + Due(w, id) == Effects(w, id) + Due(v, id)
  {
    if w.disputes[t.id].status in OPEN {
      assert DecidedOk(w, t.id);
      DisputedBooking(w, t.id);
      var b := w.disputes[t.id].bookingId;
      if Refunds(t.outcome) {
        var so := RefundedSoFar(w.db.rows[b]);
        RepaidSnoc(w.refunds, Entry(Some(t.id), b, so, so, t.outcome.refund.value), id);
      } else if t.outcome.credit.Some? {
        OwedSnoc(w.tasks, CreditTask(t.id, t.outcome.credit.value), id);
      }
    }
  }

  lemma CloseCounts(unique: bool, w: World, t: Task, newId: nat, id: nat, v: World)
    requires Core(w) && TaskOk(w, t) && t.CloseTask? && v == Perform(unique, w, t, newId)
    ensures Effects(v, id) + Due(w, id) == Effects(w, id) + Due(v, id)
  {
    if w.disputes[t.id].status in OPEN {
      assert DecidedOk(w, t.id);
      OwedSnoc(w.tasks, RefundReadTask(t.id, t.bookingId, t.seen, t.total), id);
    }
  }

  lemma SweepCounts(unique: bool, w: World, t: Task, newId: nat, id: nat, v: World)
    requires Core(w) && TaskOk(w, t) && (t.SweepTask? || t.RefundReadTask?) && v == Perform(unique, w, t, newId)
    ensures Effects(v, id) + Due(w, id) == Effects(w, id) + Due(v, id) + (if Owes(t, id) then 1 else 0)
  {
    if |v.tasks| > |w.tasks| {
      OwedSnoc(w.tasks, v.tasks[|w.tasks|], id);
    }
  }

  lemma PaidCounts(unique: bool, w: World, t: Task, newId: nat, id: nat, v: World)
    requires Core(w) && Paying(w.db) && TaskOk(w, t) && (t.RefundWriteTask? || t.CreditTask?)
    requires v == Perform(unique, w, t, newId)
    ensures Effects(v, id) + Due(w, id) == Effects(w, id) + Due(v, id) + (if Owes(t, id) then 1 else 0)
  {
    if t.CreditTask? {
      GrantedSnoc(w.credits, Grant(t.id, t.amount), id);
    } else {
      var e := Entry(Some(t.id), t.bookingId, t.read, RefundedSoFar(w.db.rows[t.bookingId]), t.amount);
      RepaidSnoc(w.refunds, e, id);
    }
  }

  // What a task does, a dispute is owed less or has been decided more.
  lemma PerformCounts(unique: bool, w: World, t: Task, newId: nat, id: nat, v: World)
    requires Core(w) && Paying(w.db) && TaskOk(w, t) && v == Perform(unique, w, t, newId)
    ensures Effects(v, id) + Due(w, id) == Effects(w, id) + Due(v, id) + (if Owes(t, id) then 1 else 0)
  {
    if t.ResolveTask? {
      ResolveCounts(unique, w, t, newId, id, v);
    } else if t.CloseTask? {
      CloseCounts(unique, w, t, newId, id, v);
    } else if t.SweepTask? || t.RefundReadTask? {
      SweepCounts(unique, w, t, newId, id, v);
    } else if t.RefundWriteTask? || t.CreditTask? {
      PaidCounts(unique, w, t, newId, id, v);
    }
  }

  lemma BookingEntryCounts(log: seq<Entry>, db: Db, a: Action, id: nat)
    ensures Repaid(log + BookingRefunds(db, a), id) == Repaid(log, id)
  {
    if BookingRefunds(db, a) == [] {
      assert log + [] == log;
    } else {
      RepaidSnoc(log, BookingRefunds(db, a)[0], id);
      assert BookingRefunds(db, a) == [BookingRefunds(db, a)[0]];
    }
  }

  lemma BookCounts(w: World, a: Action, id: nat, v: World)
    requires Effects(w, id) == Due(w, id)
    requires v == w.(db := Next(NO_GUARD, w.db, a), refunds := w.refunds + BookingRefunds(w.db, a))
    ensures Effects(v, id) == Due(v, id)
  {
    BookingEntryCounts(w.refunds, w.db, a, id);
  }

  lemma DoCounts(unique: bool, w: World, s: Step, id: nat, v: World)
    requires Core(w) && Paying(w.db) && Effects(w, id) == Due(w, id)
    requires s.Do? && s.index < |w.tasks| && v == Advance(unique, w, s)
    ensures Effects(v, id) == Due(v, id)
  {
    var w1 := w.(tasks := RemoveAt(w.tasks, s.index));
    OwedRemove(w.tasks, s.index, id);
    TakeOut(w, s.index, w1);
    PerformCounts(unique, w1, w.tasks[s.index], s.newId, id, v);
  }

  // A read leaves a task that owes nothing, if any.
  lemma ReadSpawns(unique: bool, w: World, s: Step, id: nat, v: World)
    requires !s.Book? && !s.Do? && v == Advance(unique, w, s)
    ensures v.outcomes == w.outcomes && v.refunds == w.refunds && v.credits == w.credits
    ensures v.tasks == w.tasks ||
      (|v.tasks| == |w.tasks| + 1 && v.tasks == w.tasks + [v.tasks[|w.tasks|]] && !Owes(v.tasks[|w.tasks|], id))
  {
  }

  lemma ReadCounts(unique: bool, w: World, s: Step, id: nat, v: World)
    requires Effects(w, id) == Due(w, id) && !s.Book? && !s.Do? && v == Advance(unique, w, s)
    ensures Effects(v, id) == Due(v, id)
  {
    ReadSpawns(unique, w, s, id, v);
    if v.tasks != w.tasks {
      OwedSnoc(w.tasks, v.tasks[|w.tasks|], id);
    }
  }

  lemma AdvanceCounts(unique: bool, w: World, s: Step, id: nat, v: World)
    requires Core(w) && Paying(w.db) && Effects(w, id) == Due(w, id) && v == Advance(unique, w, s)
    ensures Effects(v, id) == Due(v, id)
  {
    if s.Book? {
      if !OwnedElsewhere(s.action) {
        BookCounts(w, s.action, id, v);
      }
    } else if s.Do? {
      if s.index < |w.tasks| {
        DoCounts(unique, w, s, id, v);
      }
    } else {
      ReadCounts(unique, w, s, id, v);
    }
  }

  lemma CoreHistory(unique: bool, steps: seq<Step>)
    ensures Core(History(unique, steps)) && Paying(History(unique, steps).db)
  {
    HistorySound(unique, steps);
    InvPays(History(unique, steps).db);
  }

  lemma {:induction false} HistoryCounts(unique: bool, steps: seq<Step>, id: nat)
    ensures Effects(History(unique, steps), id) == Due(History(unique, steps), id)
  {
    if steps != [] {
      var before := steps[..|steps| - 1];
      CoreHistory(unique, before);
      HistoryCounts(unique, before, id);
      AdvanceCounts(unique, History(unique, before), steps[|steps| - 1], id, History(unique, steps));
    }
  }

  // ---- what the logs say ----

  // Every refund written and credit granted for a dispute is the one it was closed with.
  ghost predicate EntryOk(w: World, e: Entry) { e.dispute.Some? ==> Decided(w, e.dispute.value, e.bookingId, e.amount) }

  ghost predicate GrantOk(w: World, g: Grant) {
    g.dispute in w.outcomes && w.outcomes[g.dispute].credit == Some(g.amount)
  }

  ghost predicate LogsOk(w: World) {
    (forall e :: e in w.refunds ==> EntryOk(w, e)) && (forall g :: g in w.credits ==> GrantOk(w, g))
  }

  lemma ResolveLogged(unique: bool, w: World, t: Task, newId: nat, v: World)
    requires Core(w) && Paying(w.db) && TaskOk(w, t) && v == Perform(unique, w, t, newId)
    requires t.ResolveTask? && w.disputes[t.id].status in OPEN && Refunds(t.outcome)
    ensures w.disputes[t.id].bookingId in w.db.rows && EntryOk(v, SettleEntry(w, t))
  {
    DisputedBooking(w, t.id);
  }

  // What a task appends to the logs.
  lemma PerformLogs(unique: bool, w: World, t: Task, newId: nat, v: World) returns (es: seq<Entry>, gs: seq<Grant>)
    requires Core(w) && Paying(w.db) && TaskOk(w, t) && v == Perform(unique, w, t, newId)
    ensures v.refunds == w.refunds + es && v.credits == w.credits + gs
    ensures (forall e :: e in es ==> EntryOk(v, e)) && (forall g :: g in gs ==> GrantOk(v, g))
  {
    es, gs := [], [];
    if t.ResolveTask? {
      DisputedBooking(w, t.id);
      ResolveEffect(unique, w, t, newId, v);
      if w.disputes[t.id].status in OPEN && Refunds(t.outcome) {
        ResolveLogged(unique, w, t, newId, v);
        es := [SettleEntry(w, t)];
      }
    } else if t.RefundWriteTask? {
      RefundWriteEffect(unique, w, t, newId, v);
      es := [Entry(Some(t.id), t.bookingId, t.read, RefundedSoFar(w.db.rows[t.bookingId]), t.amount)];
    } else {
      OtherEffect(unique, w, t, newId, v);
      if t.CreditTask? {
        gs := [Grant(t.id, t.amount)];
      }
    }
  }

  lemma LogsGrow(w: World, v: World, es: seq<Entry>, gs: seq<Grant>)
    requires LogsOk(w) && Later(w, v) && v.refunds == w.refunds + es && v.credits == w.credits + gs
    requires (forall e :: e in es ==> EntryOk(v, e)) && (forall g :: g in gs ==> GrantOk(v, g))
    ensures LogsOk(v)
  {
    forall e | e in v.refunds ensures EntryOk(v, e) {
      assert e in w.refunds ==> EntryOk(w, e);
    }
    forall g | g in v.credits ensures GrantOk(v, g) {
      assert g in w.credits ==> GrantOk(w, g);
    }
  }

  lemma DoLogs(unique: bool, w: World, s: Step, v: World)
    requires Core(w) && Paying(w.db) && LogsOk(w) && Later(w, v)
    requires s.Do? && s.index < |w.tasks| && v == Advance(unique, w, s)
    ensures LogsOk(v)
  {
    var w1 := w.(tasks := RemoveAt(w.tasks, s.index));
    TakeOut(w, s.index, w1);
    var es, gs := PerformLogs(unique, w1, w.tasks[s.index], s.newId, v);
    LogsGrow(w, v, es, gs);
  }

  lemma QuietLogs(unique: bool, w: World, s: Step, v: World)
    requires (s.Book? && OwnedElsewhere(s.action)) || (s.Do? && s.index >= |w.tasks|) || (!s.Book? && !s.Do?)
    requires v == Advance(unique, w, s)
    ensures v.refunds == w.refunds && v.credits == w.credits
  {
  }

  lemma AdvanceLogs(unique: bool, w: World, s: Step, v: World)
    requires Core(w) && Paying(w.db) && LogsOk(w) && Later(w, v) && v == Advance(unique, w, s)
    ensures LogsOk(v)
  {
    if s.Book? && !OwnedElsewhere(s.action) {
      LogsGrow(w, v, BookingRefunds(w.db, s.action), []);
    } else if s.Do? && s.index < |w.tasks| {
      DoLogs(unique, w, s, v);
    } else {
      QuietLogs(unique, w, s, v);
      LogsGrow(w, v, [], []);
    }
  }

  lemma StepLater(unique: bool, steps: seq<Step>, s: Step)
    ensures Later(History(unique, steps), Advance(unique, History(unique, steps), s))
  {
    HistorySound(unique, steps);
    AdvanceSound(unique, History(unique, steps), s, Advance(unique, History(unique, steps), s));
  }

  lemma {:induction false} HistoryLogs(unique: bool, steps: seq<Step>)
    ensures LogsOk(History(unique, steps))
  {
    if steps != [] {
      var before, s := steps[..|steps| - 1], steps[|steps| - 1];
      CoreHistory(unique, before);
      StepLater(unique, before, s);
      HistoryLogs(unique, before);
      AdvanceLogs(unique, History(unique, before), s, History(unique, steps));
    }
  }

  lemma NoneRepaid(w: World, id: nat)
    requires LogsOk(w) && !(id in w.outcomes && w.outcomes[id].refund.Some?)
    ensures Repaid(w.refunds, id) == 0
  {
    forall e | e in w.refunds ensures e.dispute != Some(id) {
      assert EntryOk(w, e);
    }
    TallyNone(w.refunds, (e: Entry) => e.dispute == Some(id));
  }

  lemma NoneGranted(w: World, id: nat)
    requires LogsOk(w) && !(id in w.outcomes && w.outcomes[id].credit.Some?)
    ensures Granted(w.credits, id) == 0
  {
    forall g | g in w.credits ensures g.dispute != id {
      assert GrantOk(w, g);
    }
    TallyNone(w.credits, (g: Grant) => g.dispute == id);
  }

  // ---- main results ----

  lemma ClosedStaysClosed(unique: bool, w: World, s: Step, id: nat)
    requires id in w.disputes && w.disputes[id].status !in OPEN
    ensures var v := Advance(unique, w, s); id in v.disputes && v.disputes[id] == w.disputes[id]
  {
    if s.Do? && s.index < |w.tasks| {
      var t, w1 := w.tasks[s.index], w.(tasks := RemoveAt(w.tasks, s.index));
      assert Advance(unique, w, s) == Perform(unique, w1, t, s.newId);
    }
  }

  /** A dispute leaves its open statuses at most once: from then on no step of any
      later run changes its row. */
  lemma {:induction false} ResolvedOnce(unique: bool, steps: seq<Step>, n: nat, id: nat)
    requires n <= |steps|
    requires var w := History(unique, steps[..n]); id in w.disputes && w.disputes[id].status !in OPEN
    ensures var w, v := History(unique, steps[..n]), History(unique, steps);
            id in v.disputes && v.disputes[id] == w.disputes[id]
    decreases |steps|
  {
    if n == |steps| {
      assert steps[..n] == steps;
    } else {
      var before := steps[..|steps| - 1];
      assert before[..n] == steps[..n];
      ResolvedOnce(unique, before, n, id);
      ClosedStaysClosed(unique, History(unique, before), steps[|steps| - 1], id);
    }
  }

  /** At every moment each dispute has had at most one effect on money: one booking refund or
      one wallet credit, never both, of the kind it was closed with, and none while it is open. */
  lemma {:induction false} AtMostOneEffect(unique: bool, steps: seq<Step>, id: nat)
    ensures var w := History(unique, steps);
            && Repaid(w.refunds, id) + Granted(w.credits, id) <= 1
            && (Repaid(w.refunds, id) == 1 ==> id in w.disputes && w.disputes[id].refund.Some?)
            && (Granted(w.credits, id) == 1 ==> id in w.disputes && w.disputes[id].status == ResolvedWalletCredit)
            && (id !in w.disputes || w.disputes[id].status in OPEN ==>
                 Repaid(w.refunds, id) == 0 == Granted(w.credits, id))
  {
    CoreHistory(unique, steps);
    HistoryCounts(unique, steps, id);
    HistoryLogs(unique, steps);
    var w := History(unique, steps);
    assert id in w.disputes ==> DecidedOk(w, id);
    if !(id in w.outcomes && w.outcomes[id].refund.Some?) { NoneRepaid(w, id); }
    if !(id in w.outcomes && w.outcomes[id].credit.Some?) { NoneGranted(w, id); }
  }

  /** Once no request or sweep is in progress, every closed dispute has had exactly the effect
      it was closed with: the one refund decided, of that amount and on that booking, or the
      one wallet credit decided, of that amount, or none. */
  lemma {:induction false} EffectsComplete(unique: bool, steps: seq<Step>, id: nat)
    requires History(unique, steps).tasks == [] && id in History(unique, steps).disputes
    requires History(unique, steps).disputes[id].status !in OPEN
    ensures var w := History(unique, steps);
            && id in w.outcomes && w.disputes[id].status == w.outcomes[id].status
            && w.disputes[id].refund == w.outcomes[id].refund
            && Repaid(w.refunds, id) == (if w.outcomes[id].refund.Some? then 1 else 0)
            && Granted(w.credits, id) == (if w.outcomes[id].credit.Some? then 1 else 0)
            && (forall e :: e in w.refunds && e.dispute == Some(id) ==>
                 Some(e.amount) == w.outcomes[id].refund && e.bookingId == w.disputes[id].bookingId)
            && (forall g :: g in w.credits && g.dispute == id ==> Some(g.amount) == w.outcomes[id].credit)
  {
    CoreHistory(unique, steps);
    HistoryCounts(unique, steps, id);
    HistoryLogs(unique, steps);
    var w := History(unique, steps);
    assert DecidedOk(w, id);
    if w.outcomes[id].refund.None? { NoneRepaid(w, id); }
    if w.outcomes[id].credit.None? { NoneGranted(w, id); }
    forall e | e in w.refunds && e.dispute == Some(id)
      ensures Some(e.amount) == w.outcomes[id].refund && e.bookingId == w.disputes[id].bookingId
    {
      assert EntryOk(w, e);
    }
    forall g | g in w.credits && g.dispute == id ensures Some(g.amount) == w.outcomes[id].credit {
      assert GrantOk(w, g);
    }
  }

  lemma WriteWins(unique: bool, w: World, k: nat, t: Task)
    requires Core(w) && Paying(w.db) && k < |w.tasks| && w.tasks[k] == t && t.RefundWriteTask?
    ensures UpdateIfStatus(w.db.rows, t.bookingId, {t.seen}, RefundPatch(t.read + t.amount)).1
    ensures Advance(unique, w, Do(k, 0)).refunds
            == w.refunds + [Entry(Some(t.id), t.bookingId, t.read, RefundedSoFar(w.db.rows[t.bookingId]), t.amount)]
  {
    var w1 := w.(tasks := RemoveAt(w.tasks, k));
    TakeOut(w, k, w1);
    RefundWriteEffect(unique, w1, t, 0, Perform(unique, w1, t, 0));
  }

  /** The compare-and-set on the booking that ends an auto-close can never lose: the
      booking is completed, which is terminal, and that is the status the sweep saw. */
  lemma {:induction false} SweepNeverLoses(unique: bool, steps: seq<Step>, k: nat, w: World, t: Task)
    requires w == History(unique, steps) && k < |w.tasks| && t == w.tasks[k] && t.RefundWriteTask?
    ensures UpdateIfStatus(w.db.rows, t.bookingId, {t.seen}, RefundPatch(t.read + t.amount)).1
    ensures Advance(unique, w, Do(k, 0)).refunds
            == w.refunds + [Entry(Some(t.id), t.bookingId, t.read, RefundedSoFar(w.db.rows[t.bookingId]), t.amount)]
  {
    CoreHistory(unique, steps);
    WriteWins(unique, w, k, t);
  }

  /** Every dispute concerns a completed stay, was filed within 48 hours of its check-out plus the
      longest delay of a filing between its two clock readings, and is closed for want of a
      response only after its seven days. */
  lemma {:induction false} DisputesInTime(unique: bool, steps: seq<Step>, id: nat)
    requires id in History(unique, steps).disputes
    ensures var w := History(unique, steps);
            var d := w.disputes[id];
            && d.bookingId in w.db.rows && w.db.rows[d.bookingId].status == Completed
            && w.db.rows[d.bookingId].checkedOutAt.Some?
            && d.resolutionDeadline
               <= w.db.rows[d.bookingId].checkedOutAt.value + 172_800_000 + w.delay + 604_800_000
            && (d.status == ClosedNoResponse ==> d.resolvedAt.Some? && d.resolutionDeadline < d.resolvedAt.value)
  {
    CoreHistory(unique, steps);
  }
}
