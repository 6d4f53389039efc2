/**
 Paying under arbitrary interleaving. Verifying a payment reads the booking, then the
 payment, and writes later: the capture transaction, or the mark on a payment whose signature
 was refused. Every other booking operation may come in between.
 */
module PaymentProtocol {
  import opened Common
  import opened Money
  import opened Booking
  import opened Lifecycle
  import opened Ledger
  import opened PaymentServices

  // What a request still has to do.
  datatype Task =
    | OrderTask(order: nat, payment: Payment)
    | LookTask(id: nat, order: nat, seen: Row, valid: bool, qr: nat)
    | CaptureTask(id: nat, order: nat, seen: Row, qr: nat)
    | FailTask(order: nat)

  // One capture transaction that went through, with the legs it posted.
  datatype Charge = Charge(bookingId: nat, order: nat, legs: seq<Leg>)

  datatype World = World(db: Db, payments: map<nat, Payment>, tasks: seq<Task>, charges: seq<Charge>)

  datatype Step =
    | Book(action: Action)
    | OrderRead(id: nat, guest: nat, order: nat)
    | VerifyRead(id: nat, guest: nat, order: nat, valid: bool, qr: nat)
    | Do(index: nat)

  const START := World(INITIAL, map[], [], [])

  // Captures come from the tasks here.
  predicate CapturedHere(a: Action) { a.Begin? && a.op.Capture? }

  function Spawn(w: World, t: Task): World { w.(tasks := w.tasks + [t]) }

  function Marked(payments: map<nat, Payment>, order: nat, status: GatewayStatus): map<nat, Payment>
    requires order in payments
  {
    payments[order := payments[order].(status := status)]
  }

  // The capture transaction: all of it, or nothing.
  ghost function Charged(w: World, t: Task): World
    requires t.CaptureTask? && t.order in w.payments
  {
    if t.id in w.db.rows && t.id in w.db.trail && w.db.rows[t.id].status == PendingPayment &&
      Accepted(CaptureLegs(t.seen)) then
      w.(db := Write(w.db, t.id, Apply(w.db.rows[t.id], ConfirmPatch(t.qr))),
         payments := Marked(w.payments, t.order, Captured),
         charges := w.charges + [Charge(t.id, t.order, CaptureLegs(t.seen))])
    else w
  }

  // `guard`: the failed mark tests that the payment is not captured. The code's does not.
  ghost function Perform(guard: bool, w: World, t: Task): World {
    match t
    case OrderTask(order, payment) => if order in w.payments then w else w.(payments := w.payments[order := payment])
    case LookTask(id, order, seen, valid, qr) =>
      if Chargeable(w.payments, id, order).Err? then w
      else if valid then Spawn(w, CaptureTask(id, order, seen, qr))
      else Spawn(w, FailTask(order))
    case CaptureTask(_, order, _, _) => if order in w.payments then Charged(w, t) else w
    case FailTask(order) =>
      if order !in w.payments || (guard && w.payments[order].status == Captured) then w
      else w.(payments := Marked(w.payments, order, FailedPayment))
  }

  ghost function Advance(guard: bool, w: World, s: Step): World {
    match s
    case Book(a) => if CapturedHere(a) then w else w.(db := Next(NO_GUARD, w.db, a))
    case OrderRead(id, guest, order) =>
      if Payable(w.db.rows, id, guest).Err? then w
      else Spawn(w, OrderTask(order, Payment(id, w.db.rows[id].total, Created)))
    case VerifyRead(id, guest, order, valid, qr) =>
      if Payable(w.db.rows, id, guest).Err? then w else Spawn(w, LookTask(id, order, w.db.rows[id], valid, qr))
    case Do(k) => if k < |w.tasks| then Perform(guard, w.(tasks := RemoveAt(w.tasks, k)), w.tasks[k]) else w
  }

  ghost function History(guard: bool, steps: seq<Step>): World {
    if steps == [] then START else Advance(guard, History(guard, steps[..|steps| - 1]), steps[|steps| - 1])
  }

  // ---- what every history keeps ----

  // The price a booking was made at; extensions change only its total.
  function Price(b: Row): int { b.base + b.gst }

  ghost predicate TaskOk(w: World, t: Task) {
    match t
    case OrderTask(_, p) => p.bookingId in w.db.rows && p.status == Created && p.amount == Price(w.db.rows[p.bookingId])
    case LookTask(id, _, seen, _, _) => id in w.db.rows && Priced(seen) && Price(seen) == Price(w.db.rows[id])
    case CaptureTask(id, order, seen, _) =>
      && id in w.db.rows && Priced(seen) && Price(seen) == Price(w.db.rows[id])
      && order in w.payments && w.payments[order].bookingId == id
    case FailTask(_) => true
  }

  ghost predicate PaymentOk(w: World, o: nat)
    requires o in w.payments
  {
    var p := w.payments[o];
    && p.bookingId in w.db.rows && p.amount == Price(w.db.rows[p.bookingId])
    && (p.status == Captured ==> exists c :: c in w.charges && c.order == o)
  }

  ghost predicate ChargeOk(w: World, c: Charge) {
    && c.order in w.payments && w.payments[c.order].bookingId == c.bookingId
    && c.bookingId in w.db.rows && w.db.rows[c.bookingId].status != PendingPayment
    && Accepted(c.legs) && Leg(GuestClearing, Debit, w.payments[c.order].amount) in c.legs
  }

  ghost predicate OneCharge(charges: seq<Charge>) {
    forall i, j :: 0 <= i < j < |charges| ==> charges[i].bookingId != charges[j].bookingId
  }

  ghost predicate Core(w: World) {
    && (forall t :: t in w.tasks ==> TaskOk(w, t))
    && (forall o :: o in w.payments ==> PaymentOk(w, o))
    && (forall c :: c in w.charges ==> ChargeOk(w, c))
    && OneCharge(w.charges)
  }

  // Nothing a task, a payment or a charge relies on is ever taken back.
  ghost predicate Later(w: World, v: World) {
    && (forall b :: b in w.db.rows ==>
          && b in v.db.rows && Price(v.db.rows[b]) == Price(w.db.rows[b])
          && (w.db.rows[b].status != PendingPayment ==> v.db.rows[b].status != PendingPayment))
    && (forall o :: o in w.payments ==>
          && o in v.payments && v.payments[o].bookingId == w.payments[o].bookingId
          && v.payments[o].amount == w.payments[o].amount)
    && w.charges <= v.charges
  }

  lemma TasksLater(w: World, v: World)
    requires Core(w) && Later(w, v)
    ensures forall t :: t in w.tasks ==> TaskOk(v, t)
  {
    forall t | t in w.tasks ensures TaskOk(v, t) {
      assert TaskOk(w, t);
    }
  }

  lemma ChargesLater(w: World, v: World)
    requires Core(w) && Later(w, v)
    ensures forall c :: c in w.charges ==> ChargeOk(v, c)
  {
    forall c | c in w.charges ensures ChargeOk(v, c) {
      assert ChargeOk(w, c);
    }
  }

  lemma PaymentLater(w: World, v: World, o: nat)
    requires Core(w) && Later(w, v) && o in w.payments && o in v.payments
    requires v.payments[o].status == Captured ==> w.payments[o].status == Captured
    ensures PaymentOk(v, o)
  {
    assert PaymentOk(w, o);
    if v.payments[o].status == Captured {
      var c :| c in w.charges && c.order == o;
      assert c in v.charges;
    }
  }

  // Nothing charged, no payment newly captured.
  lemma CoreKept(w: World, v: World)
    requires Core(w) && Later(w, v) && v.charges == w.charges
    requires forall t :: t in v.tasks ==> t in w.tasks || TaskOk(v, t)
    requires forall o :: o in v.payments ==>
      if o in w.payments then v.payments[o].status == Captured ==> w.payments[o].status == Captured else PaymentOk(v, o)
    ensures Core(v)
  {
    TasksLater(w, v);
    ChargesLater(w, v);
    forall o | o in v.payments ensures PaymentOk(v, o) {
      if o in w.payments {
        PaymentLater(w, v, o);
      }
    }
  }

  lemma BookLater(w: World, a: Action, v: World)
    requires Inv(NO_GUARD, w.db) && v == w.(db := Next(NO_GUARD, w.db, a))
    ensures Later(w, v)
  {
    forall b | b in w.db.rows
      ensures b in v.db.rows && Price(v.db.rows[b]) == Price(w.db.rows[b])
              && (w.db.rows[b].status != PendingPayment ==> v.db.rows[b].status != PendingPayment)
    {
      RowsEvolve(NO_GUARD, w.db, a, b);
    }
  }

  lemma PendingPriced(db: Db, id: nat)
    requires Inv(NO_GUARD, db) && id in db.rows && db.rows[id].status == PendingPayment
    ensures Priced(db.rows[id]) && db.rows[id].total == Price(db.rows[id])
  {
    assert RowOk(db.rows[id], db.clock);
  }

  // ---- the capture ----

  lemma ConfirmKeepsInv(db: Db, id: nat, qr: nat)
    requires Inv(NO_GUARD, db) && id in db.rows && db.rows[id].status == PendingPayment
    ensures Inv(NO_GUARD, Write(db, id, Apply(db.rows[id], ConfirmPatch(qr))))
  {
    assert RowOk(db.rows[id], db.clock);
    WriteKeepsInv(NO_GUARD, db, id, Apply(db.rows[id], ConfirmPatch(qr)));
  }

  lemma LegsPosted(b: Row)
    requires Priced(b)
    ensures Accepted(CaptureLegs(b)) && Leg(GuestClearing, Debit, Price(b)) in CaptureLegs(b)
  {
    CaptureAccepted(0, b);
    var legs := [Leg(GuestClearing, Debit, b.total), Leg(OwnerPayable, Credit, b.base - b.fee),
                 Leg(PlatformCommission, Credit, b.fee), Leg(GstPayable, Credit, b.gst)];
    assert legs[0] in legs;
    DropZeroKeeps(legs, legs[0]);
  }

  lemma ChargedLater(w: World, t: Task, v: World)
    requires t.CaptureTask? && t.order in w.payments && v == Charged(w, t)
    ensures Later(w, v)
  {
  }

  lemma ChargedCore(w: World, t: Task, v: World)
    requires Core(w) && TaskOk(w, t) && t.CaptureTask? && v == Charged(w, t) && v != w
    ensures Core(v)
  {
    ChargedLater(w, t, v);
    TasksLater(w, v);
    ChargesLater(w, v);
    LegsPosted(t.seen);
    var c := Charge(t.id, t.order, CaptureLegs(t.seen));
    assert v.charges == w.charges + [c];
    forall o | o in v.payments ensures PaymentOk(v, o) {
      assert PaymentOk(w, o);
      if o == t.order {
        assert c in v.charges;
      } else {
        PaymentLater(w, v, o);
      }
    }
    assert PaymentOk(w, t.order) && ChargeOk(v, c);
    forall d | d in w.charges ensures d.bookingId != t.id {
      assert ChargeOk(w, d);
    }
  }

  // ---- one step ----

  lemma PerformCore(guard: bool, w: World, t: Task, v: World)
    requires Core(w) && TaskOk(w, t) && v == Perform(guard, w, t)
    ensures Core(v) && Later(w, v)
  {
    if t.CaptureTask? {
      ChargedLater(w, t, v);
      if v != w {
        ChargedCore(w, t, v);
      }
    } else {
      CoreKept(w, v);
    }
  }

  lemma PerformInv(guard: bool, w: World, t: Task, db: Db)
    requires Inv(NO_GUARD, w.db) && db == Perform(guard, w, t).db
    ensures Inv(NO_GUARD, db)
  {
    if db != w.db {
      ConfirmKeepsInv(w.db, t.id, t.qr);
    }
  }

  ghost predicate Sound(w: World) { Inv(NO_GUARD, w.db) && Core(w) }

  lemma TakeOut(w: World, k: nat, w1: World)
    requires Core(w) && k < |w.tasks| && w1 == w.(tasks := RemoveAt(w.tasks, k))
    ensures Core(w1) && TaskOk(w1, w.tasks[k]) && Later(w, w1)
  {
    assert TaskOk(w, w.tasks[k]);
    CoreKept(w, w1);
  }

  lemma AdvanceSound(guard: bool, w: World, s: Step, v: World)
    requires Sound(w) && v == Advance(guard, w, s)
    ensures Sound(v) && Later(w, v)
  {
    if s.Book? {
      if !CapturedHere(s.action) {
        StepKeepsInv(NO_GUARD, w.db, s.action);
        BookLater(w, s.action, v);
        CoreKept(w, v);
      }
    } else if s.Do? {
      if s.index < |w.tasks| {
        var w1 := w.(tasks := RemoveAt(w.tasks, s.index));
        TakeOut(w, s.index, w1);
        PerformCore(guard, w1, w.tasks[s.index], v);
        PerformInv(guard, w1, w.tasks[s.index], v.db);
      }
    } else if v != w {
      PendingPriced(w.db, s.id);
      CoreKept(w, v);
    }
  }

  lemma {:induction false} HistorySound(guard: bool, steps: seq<Step>)
    ensures Sound(History(guard, steps))
  {
    if steps == [] {
      RunKeepsInv(NO_GUARD, []);
    } else {
      HistorySound(guard, steps[..|steps| - 1]);
      AdvanceSound(guard, History(guard, steps[..|steps| - 1]), steps[|steps| - 1], History(guard, steps));
    }
  }

  // ---- main results ----

  /** Whatever the interleaving, a booking is charged at most once, with legs the ledger accepts
      that take from the guest exactly what the order asked for; and a payment marked captured
      is one of those charges, so no booking has two of them. */
  lemma {:induction false} ChargedOnce(guard: bool, steps: seq<Step>)
    ensures var w := History(guard, steps);
            && (forall i, j :: 0 <= i < j < |w.charges| ==> w.charges[i].bookingId != w.charges[j].bookingId)
            && (forall c :: c in w.charges ==> ChargeOk(w, c))
            && (forall o :: o in w.payments && w.payments[o].status == Captured ==>
                 exists c :: c in w.charges && c.order == o)
            && CapturesOk(w.db.rows, w.payments)
  {
    HistorySound(guard, steps);
    var w := History(guard, steps);
    forall o | o in w.payments && w.payments[o].status == Captured
      ensures exists c :: c in w.charges && c.order == o && ChargeOk(w, c)
    {
      assert PaymentOk(w, o);
    }
    CapturedApart(w);
  }

  lemma CapturedApart(w: World)
    requires Core(w)
    ensures CapturesOk(w.db.rows, w.payments)
  {
    forall o | o in w.payments && w.payments[o].status == Captured
      ensures w.payments[o].bookingId in w.db.rows && w.db.rows[w.payments[o].bookingId].status != PendingPayment
    {
      var i := ChargeOf(w, o);
    }
    forall o, p | o in w.payments && p in w.payments && o != p
                  && w.payments[o].status == Captured && w.payments[p].status == Captured
      ensures w.payments[o].bookingId != w.payments[p].bookingId
    {
      var i := ChargeOf(w, o);
      var j := ChargeOf(w, p);
      assert i < j || j < i;
    }
  }

  lemma ChargeOf(w: World, o: nat) returns (i: nat)
    requires Core(w) && o in w.payments && w.payments[o].status == Captured
    ensures i < |w.charges| && w.charges[i].order == o && ChargeOk(w, w.charges[i])
  {
    assert PaymentOk(w, o);
    var c :| c in w.charges && c.order == o;
    i :| i < |w.charges| && w.charges[i] == c;
  }

  // ---- confirmed means charged ----

  ghost predicate ChargedFor(charges: seq<Charge>, b: nat) { exists c :: c in charges && c.bookingId == b }

  ghost predicate Confirms(db: Db, b: nat) { b in db.trail && Confirmed in db.trail[b] }

  ghost predicate NoneElsewhere(db: Db) { forall q :: q in db.inFlight ==> !q.op.Capture? }

  lemma ChargedForSnoc(charges: seq<Charge>, c: Charge, b: nat)
    ensures ChargedFor(charges + [c], b) <==> ChargedFor(charges, b) || c.bookingId == b
  {
    assert forall d :: d in charges + [c] <==> d in charges || d == c;
  }

  lemma NoneStep(db: Db, a: Action)
    requires NoneElsewhere(db) && !CapturedHere(a)
    ensures NoneElsewhere(Next(NO_GUARD, db, a))
  {
  }

  lemma OnlyCaptureConfirms(q: Request)
    requires Plan(q.op, q.seen, q.at) == Ok(q.commit) && !q.op.Capture?
    ensures !q.commit.patch.ConfirmPatch?
  {
  }

  lemma ElsewhereKeeps(db: Db, a: Action, b: nat)
    requires Inv(NO_GUARD, db) && NoneElsewhere(db)
    ensures Confirms(Next(NO_GUARD, db, a), b) <==> Confirms(db, b)
  {
    if a.Finish? && Wins(db, a.index) {
      var q := db.inFlight[a.index];
      assert q in db.inFlight && RequestOk(NO_GUARD, db, q);
      OnlyCaptureConfirms(q);
    }
    OtherStepTrail(NO_GUARD, db, a, b);
  }

  lemma ChargedConfirms(w: World, t: Task, b: nat, v: World)
    requires t.CaptureTask? && t.order in w.payments && v == Charged(w, t)
    requires Confirms(w.db, b) <==> ChargedFor(w.charges, b)
    ensures Confirms(v.db, b) <==> ChargedFor(v.charges, b)
  {
    if v != w {
      ChargedForSnoc(w.charges, Charge(t.id, t.order, CaptureLegs(t.seen)), b);
    }
  }

  lemma StepConfirms(guard: bool, w: World, s: Step, b: nat, v: World)
    requires Sound(w) && NoneElsewhere(w.db) && v == Advance(guard, w, s)
    requires Confirms(w.db, b) <==> ChargedFor(w.charges, b)
    ensures NoneElsewhere(v.db) && (Confirms(v.db, b) <==> ChargedFor(v.charges, b))
  {
    if s.Book? {
      if !CapturedHere(s.action) {
        NoneStep(w.db, s.action);
        ElsewhereKeeps(w.db, s.action, b);
      }
    } else if s.Do? && s.index < |w.tasks| {
      var w1, t := w.(tasks := RemoveAt(w.tasks, s.index)), w.tasks[s.index];
      if t.CaptureTask? && t.order in w.payments {
        ChargedConfirms(w1, t, b, v);
      }
    }
  }

  lemma {:induction false} ConfirmsAlways(guard: bool, steps: seq<Step>, b: nat)
    ensures var w := History(guard, steps);
            NoneElsewhere(w.db) && (Confirms(w.db, b) <==> ChargedFor(w.charges, b))
  {
    if steps != [] {
      var before := steps[..|steps| - 1];
      HistorySound(guard, before);
      ConfirmsAlways(guard, before, b);
      StepConfirms(guard, History(guard, before), steps[|steps| - 1], b, History(guard, steps));
    }
  }

  /** A booking has been confirmed if and only if a charge was posted for it. */
  lemma {:induction false} ConfirmedIffCharged(guard: bool, steps: seq<Step>, b: nat)
    ensures var w := History(guard, steps);
            b in w.db.trail && Confirmed in w.db.trail[b] <==> exists c :: c in w.charges && c.bookingId == b
  {
    ConfirmsAlways(guard, steps, b);
  }

  // ---- a captured payment stays marked so: exactly with the guard ----

  ghost predicate MarkedAll(w: World) {
    forall c :: c in w.charges ==> c.order in w.payments && w.payments[c.order].status == Captured
  }

  lemma MarkedStep(w: World, t: Task, v: World)
    requires MarkedAll(w) && v == Perform(true, w, t)
    ensures MarkedAll(v)
  {
    if t.CaptureTask? && v != w {
      assert forall c :: c in v.charges ==> c in w.charges || c.order == t.order;
    }
  }

  lemma {:induction false} MarkedAlways(steps: seq<Step>)
    ensures MarkedAll(History(true, steps))
  {
    if steps != [] {
      var w, s := History(true, steps[..|steps| - 1]), steps[|steps| - 1];
      MarkedAlways(steps[..|steps| - 1]);
      if s.Do? && s.index < |w.tasks| {
        MarkedStep(w.(tasks := RemoveAt(w.tasks, s.index)), w.tasks[s.index], History(true, steps));
      }
    }
  }

  lemma HistorySnoc(guard: bool, steps: seq<Step>, s: Step)
    ensures History(guard, steps + [s]) == Advance(guard, History(guard, steps), s)
  {
    assert (steps + [s])[..|steps|] == steps;
  }

  lemma CreatedRun(guard: bool) returns (steps: seq<Step>, w: World)
    ensures History(guard, steps) == w == START.(db := w.db) && Looks(w.db, 0, UNPAID_ROW, [])
  {
    var room, create := Book(AddRoomType(0, 1)), Book(Create(0, SAMPLE, 1));
    AddLooks(NO_GUARD);
    HistorySnoc(guard, [], room);
    HistorySnoc(guard, [] + [room], create);
    steps := [] + [room] + [create];
    w := History(guard, steps);
  }

  const ORDERED := Payment(0, UNPAID_ROW.total, Created)

  // A request reads the booking, and its first task follows at once, whatever else is queued.
  lemma ThenOrder(guard: bool, steps: seq<Step>, w: World) returns (more: seq<Step>)
    requires History(guard, steps) == w && Looks(w.db, 0, UNPAID_ROW, []) && w.tasks == [] && w.payments == map[]
    ensures History(guard, more) == w.(payments := map[0 := ORDERED])
  {
    var t := OrderTask(0, ORDERED);
    assert [] + [t] == [t] && RemoveAt([t], 0) == [];
    HistorySnoc(guard, steps, OrderRead(0, 7, 0));
    HistorySnoc(guard, steps + [OrderRead(0, 7, 0)], Do(0));
    more := steps + [OrderRead(0, 7, 0)] + [Do(0)];
  }

  lemma ThenVerify(guard: bool, steps: seq<Step>, w: World, valid: bool) returns (more: seq<Step>)
    requires History(guard, steps) == w && Looks(w.db, 0, UNPAID_ROW, []) && w.payments == map[0 := ORDERED]
    ensures var t := if valid then CaptureTask(0, 0, UNPAID_ROW, 42) else FailTask(0);
            History(guard, more) == w.(tasks := w.tasks + [t])
  {
    var read, k := VerifyRead(0, 7, 0, valid, 42), |w.tasks|;
    var look := LookTask(0, 0, UNPAID_ROW, valid, 42);
    assert RemoveAt(w.tasks + [look], k) == w.tasks;
    HistorySnoc(guard, steps, read);
    HistorySnoc(guard, steps + [read], Do(k));
    more := steps + [read] + [Do(k)];
  }

  lemma ThenCharge(guard: bool, steps: seq<Step>, w: World) returns (more: seq<Step>, v: World)
    requires History(guard, steps) == w && Looks(w.db, 0, UNPAID_ROW, []) && w.payments == map[0 := ORDERED]
    requires w.tasks == [FailTask(0), CaptureTask(0, 0, UNPAID_ROW, 42)] && w.charges == []
    ensures History(guard, more) == v && v.tasks == [FailTask(0)]
    ensures v.payments == map[0 := ORDERED.(status := Captured)] && |v.charges| == 1 && v.charges[0].order == 0
  {
    PriceShape(SAMPLE.kind, SAMPLE.rate, SAMPLE.hours, SAMPLE.commissionPct);
    LegsPosted(UNPAID_ROW);
    assert RemoveAt(w.tasks, 1) == [FailTask(0)];
    HistorySnoc(guard, steps, Do(1));
    more := steps + [Do(1)];
    v := History(guard, more);
  }

  lemma ThenFail(guard: bool, steps: seq<Step>, w: World) returns (more: seq<Step>)
    requires !guard && History(guard, steps) == w && w.tasks == [FailTask(0)] && 0 in w.payments
    ensures History(guard, more) == w.(tasks := [], payments := Marked(w.payments, 0, FailedPayment))
  {
    assert RemoveAt(w.tasks, 0) == [];
    HistorySnoc(guard, steps, Do(0));
    more := steps + [Do(0)];
  }

  /** From the empty database: a request with a bad signature has read the payment, the guest
      then pays, and the late mark leaves the payment of a confirmed booking failed. */
  lemma LateFailure(guard: bool) returns (steps: seq<Step>)
    requires !guard
    ensures var w := History(guard, steps);
            && |w.charges| == 1 && w.charges[0].order == 0
            && 0 in w.payments && w.payments[0].status == FailedPayment && w.tasks == []
  {
    var w, v: World;
    var bad, good := FailTask(0), CaptureTask(0, 0, UNPAID_ROW, 42);
    steps, w := CreatedRun(guard);
    steps := ThenOrder(guard, steps, w);
    assert [] + [bad] == [bad] && [bad] + [good] == [bad, good];
    steps := ThenVerify(guard, steps, w.(payments := map[0 := ORDERED]), false);
    steps := ThenVerify(guard, steps, w.(payments := map[0 := ORDERED], tasks := [bad]), true);
    steps, v := ThenCharge(guard, steps, w.(payments := map[0 := ORDERED], tasks := [bad, good]));
    steps := ThenFail(guard, steps, v);
  }

  /** In every history every payment charged stays marked captured, if and only if the failed
      mark tests that the payment is not captured already. The code's does not. */
  lemma {:induction false} MarkedExact(guard: bool)
    ensures (forall steps: seq<Step> {:trigger History(guard, steps)} :: MarkedAll(History(guard, steps))) <==> guard
  {
    if guard {
      forall steps: seq<Step> {:trigger History(guard, steps)} ensures MarkedAll(History(guard, steps)) {
        MarkedAlways(steps);
      }
    } else {
      var steps := LateFailure(guard);
      var w := History(guard, steps);
      assert w.charges[0] in w.charges;
    }
  }

  // ---- on its own, the protocol is the operation ----

  lemma LookedAt(guard: bool, w: World, id: nat, order: nat, valid: bool, qr: nat)
    requires id in w.db.rows && w.tasks == [LookTask(id, order, w.db.rows[id], valid, qr)]
    ensures var v := Advance(guard, w, Do(0));
            v == w.(tasks := if Chargeable(w.payments, id, order).Err? then []
                             else [if valid then CaptureTask(id, order, w.db.rows[id], qr) else FailTask(order)])
  {
    assert RemoveAt(w.tasks, 0) == [];
  }

  lemma WrittenBy(guard: bool, w: World, id: nat, order: nat, valid: bool, qr: nat)
    requires Sound(w) && id in w.db.rows && w.db.rows[id].status == PendingPayment &&
      Chargeable(w.payments, id, order).Ok?
    requires w.tasks == [if valid then CaptureTask(id, order, w.db.rows[id], qr) else FailTask(order)]
    ensures var v := Advance(guard, w, Do(0));
            && v.tasks == []
            && v.db.rows == (if valid then w.db.rows[id := Apply(w.db.rows[id], ConfirmPatch(qr))] else w.db.rows)
            && v.payments == Marked(w.payments, order, if valid then Captured else FailedPayment)
  {
    assert RemoveAt(w.tasks, 0) == [];
    PendingPriced(w.db, id);
    LegsPosted(w.db.rows[id]);
  }

  lemma SoundAlone(w: World, t: Task)
    requires Sound(w) && w.tasks == []
    requires t.FailTask? || (t.CaptureTask? && t.id in w.db.rows && w.db.rows[t.id].status == PendingPayment
                             && t.seen == w.db.rows[t.id] && Chargeable(w.payments, t.id, t.order).Ok?)
    ensures Sound(w.(tasks := [t]))
  {
    if t.CaptureTask? {
      PendingPriced(w.db, t.id);
    }
    CoreKept(w, w.(tasks := [t]));
  }

  // The read, the look at the payment and the write, one right after the other.
  ghost function Verified(guard: bool, w: World, id: nat, guest: nat, order: nat, valid: bool, qr: nat): World {
    Advance(guard, Advance(guard, Advance(guard, w, VerifyRead(id, guest, order, valid, qr)), Do(0)), Do(0))
  }

  lemma SoloRefused(guard: bool, w: World, id: nat, guest: nat, order: nat, valid: bool, qr: nat)
    requires w.tasks == [] && (Payable(w.db.rows, id, guest).Err? || Chargeable(w.payments, id, order).Err?)
    ensures Verified(guard, w, id, guest, order, valid, qr) == w
  {
    if Payable(w.db.rows, id, guest).Ok? {
      var t := LookTask(id, order, w.db.rows[id], valid, qr);
      assert [] + [t] == [t];
      LookedAt(guard, w.(tasks := [t]), id, order, valid, qr);
      assert w.(tasks := []) == w;
    }
  }

  lemma SoloWritten(guard: bool, w: World, id: nat, guest: nat, order: nat, valid: bool, qr: nat, v: World)
    requires Sound(w) && w.tasks == [] && Payable(w.db.rows, id, guest).Ok? && Chargeable(w.payments, id, order).Ok?
    requires v == Verified(guard, w, id, guest, order, valid, qr)
    ensures v.tasks == []
    ensures v.db.rows == (if valid then w.db.rows[id := Apply(w.db.rows[id], ConfirmPatch(qr))] else w.db.rows)
    ensures v.payments == Marked(w.payments, order, if valid then Captured else FailedPayment)
  {
    var t := LookTask(id, order, w.db.rows[id], valid, qr);
    assert [] + [t] == [t];
    LookedAt(guard, w.(tasks := [t]), id, order, valid, qr);
    var u := if valid then CaptureTask(id, order, w.db.rows[id], qr) else FailTask(order);
    SoundAlone(w, u);
    WrittenBy(guard, w.(tasks := [u]), id, order, valid, qr);
  }

  /** With nothing in between, verifying a payment does to booking and payment what the service
      method does, whatever the guard. */
  lemma SoloVerify(guard: bool, w: World, id: nat, guest: nat, order: nat, valid: bool, qr: nat, now: int)
    requires Sound(w) && w.tasks == []
    ensures var v := Verified(guard, w, id, guest, order, valid, qr);
            && v.tasks == []
            && v.db.rows == (if MayCapture(w.db.rows, w.payments, id, guest, order, valid).Ok?
                             then Execute(w.db.rows, id, Capture(guest, qr), now).0 else w.db.rows)
            && v.payments == (if MayCapture(w.db.rows, w.payments, id, guest, order, valid).Ok?
                              then Marked(w.payments, order, Captured)
                              else if SignatureRefused(w.db.rows, w.payments, id, guest, order, valid)
                              then Marked(w.payments, order, FailedPayment) else w.payments)
  {
    if Payable(w.db.rows, id, guest).Err? || Chargeable(w.payments, id, order).Err? {
      SoloRefused(guard, w, id, guest, order, valid, qr);
    } else {
      SoloWritten(guard, w, id, guest, order, valid, qr, Verified(guard, w, id, guest, order, valid, qr));
    }
  }
}
