/**
 What of the refunds written to a booking its row still shows. A refund is written as a sum:
 what its writer went by plus the amount it gives, so one written in between is overwritten.
 Admin refunds and auto-closes read in one step and write in a later one; a cancellation or a
 void goes by no earlier refund at all.
 */
module RefundWrites {
  import opened Common
  import Money
  import opened Booking
  import opened Lifecycle
  import opened DisputeRules
  import opened Disputes
  import opened Filings

  // Cancelled and voided bookings are given nothing more.
  predicate Kept(b: Row) { b.status != Cancelled && b.status != Voided }

  // All that has been added to a booking's refund.
  function Given(log: seq<Entry>, b: nat): int {
    if log == [] then 0
    else Given(log[..|log| - 1], b) + (if log[|log| - 1].bookingId == b then log[|log| - 1].amount else 0)
  }

  // Each refund written to the booking went by the one it overwrote.
  ghost predicate AllFresh(log: seq<Entry>, b: nat) {
    forall e :: e in log && e.bookingId == b ==> e.read == e.found
  }

  lemma GivenSnoc(log: seq<Entry>, e: Entry, b: nat)
    ensures Given(log + [e], b) == Given(log, b) + (if e.bookingId == b then e.amount else 0)
    ensures AllFresh(log + [e], b) <==> AllFresh(log, b) && (e.bookingId == b ==> e.read == e.found)
  {
    assert (log + [e])[..|log|] == log;
    assert e in log + [e];
  }

  // The row shows at most all that was added, and all of it exactly when nothing was lost.
  ghost predicate Accounted(shown: int, log: seq<Entry>, b: nat) {
    shown <= Given(log, b) && (shown == Given(log, b) <==> AllFresh(log, b))
  }

  // A reading some request still holds: only a current one can equal all that was added.
  predicate ReadingOk(read: int, shown: int, given: int) { read <= given && (read == given ==> read == shown) }

  ghost predicate TaskReadingsOk(tasks: seq<Task>, b: nat, shown: int, given: int) {
    forall t :: t in tasks && t.RefundWriteTask? && t.bookingId == b ==> ReadingOk(t.read, shown, given)
  }

  ghost predicate AdminReadingsOk(inFlight: seq<Lifecycle.Request>, b: nat, shown: int, given: int) {
    forall q :: q in inFlight && q.id == b && q.op.RefundByAdmin? ==> ReadingOk(RefundedSoFar(q.seen), shown, given)
  }

  ghost predicate RefundsOk(w: World, b: nat)
    requires b in w.db.rows
  {
    var shown, given := RefundedSoFar(w.db.rows[b]), Given(w.refunds, b);
    && Accounted(shown, w.refunds, b)
    && (Kept(w.db.rows[b]) ==>
          TaskReadingsOk(w.tasks, b, shown, given) && AdminReadingsOk(w.db.inFlight, b, shown, given))
  }

  // Dispute bookkeeping never goes through the booking's own operations, and refunds and
  // requests concern bookings that exist.
  ghost predicate Fenced(w: World) {
    && (forall q :: q in w.db.inFlight ==> !q.op.DisputeBookkeeping? && q.id in w.db.rows)
    && (forall t :: t in w.tasks && t.RefundWriteTask? ==> t.bookingId in w.db.rows)
    && (forall e :: e in w.refunds ==> e.bookingId in w.db.rows)
  }

  ghost predicate BookingOk(w: World, b: nat) { b in w.db.rows ==> RefundsOk(w, b) }

  // ---- one write ----

  // A writer adds to what it read; whoever else holds a reading now holds a stale one.
  lemma WriteAccounted(log: seq<Entry>, e: Entry, shown: int)
    requires Accounted(shown, log, e.bookingId) && e.found == shown && 0 < e.amount
    requires ReadingOk(e.read, shown, Given(log, e.bookingId))
    ensures Accounted(e.read + e.amount, log + [e], e.bookingId)
  {
    GivenSnoc(log, e, e.bookingId);
  }

  lemma Written(w: World, v: World, e: Entry)
    requires e.bookingId in w.db.rows && e.bookingId in v.db.rows && RefundsOk(w, e.bookingId)
    requires Kept(w.db.rows[e.bookingId])
    requires e.found == RefundedSoFar(w.db.rows[e.bookingId]) && 0 < e.amount
    requires ReadingOk(e.read, e.found, Given(w.refunds, e.bookingId))
    requires v.refunds == w.refunds + [e] && RefundedSoFar(v.db.rows[e.bookingId]) == e.read + e.amount
    requires forall t :: t in v.tasks ==> t in w.tasks || !t.RefundWriteTask?
    requires forall q :: q in v.db.inFlight ==> q in w.db.inFlight
    ensures RefundsOk(v, e.bookingId)
  {
    GivenSnoc(w.refunds, e, e.bookingId);
    WriteAccounted(w.refunds, e, e.found);
  }

  // A cancellation or a void sets the refund outright: nothing is lost when there was none.
  lemma SetOutright(w: World, v: World, e: Entry)
    requires e.bookingId in w.db.rows && e.bookingId in v.db.rows && RefundsOk(w, e.bookingId)
    requires e.found == RefundedSoFar(w.db.rows[e.bookingId]) && 0 <= e.found && e.read == 0
    requires v.refunds == w.refunds + [e] && RefundedSoFar(v.db.rows[e.bookingId]) == e.amount
    requires !Kept(v.db.rows[e.bookingId])
    ensures RefundsOk(v, e.bookingId)
  {
    GivenSnoc(w.refunds, e, e.bookingId);
  }

  // Nothing written to this booking; perhaps one refund to another.
  lemma Unwritten(w: World, v: World, b: nat, es: seq<Entry>)
    requires b in w.db.rows && b in v.db.rows && RefundsOk(w, b) && (Kept(v.db.rows[b]) ==> Kept(w.db.rows[b]))
    requires RefundedSoFar(v.db.rows[b]) == RefundedSoFar(w.db.rows[b])
    requires v.refunds == w.refunds + es && |es| <= 1 && forall e :: e in es ==> e.bookingId != b
    requires forall t :: t in v.tasks ==>
      t in w.tasks || (t.RefundWriteTask? && t.bookingId == b ==> t.read == RefundedSoFar(w.db.rows[b]))
    requires forall q :: q in v.db.inFlight ==>
      q in w.db.inFlight || (q.id == b && q.op.RefundByAdmin? ==> RefundedSoFar(q.seen) == RefundedSoFar(w.db.rows[b]))
    ensures RefundsOk(v, b)
  {
    if es == [] {
      assert v.refunds == w.refunds;
    } else {
      assert es == [es[0]] && es[0] in es;
      GivenSnoc(w.refunds, es[0], b);
    }
  }

  lemma {:induction false} NothingGiven(log: seq<Entry>, b: nat)
    requires forall e :: e in log ==> e.bookingId != b
    ensures Given(log, b) == 0 && AllFresh(log, b)
  {
    if log != [] {
      assert log[|log| - 1] in log;
      NothingGiven(log[..|log| - 1], b);
    }
  }

  // A booking just created.
  lemma Fresh(w: World, b: nat)
    requires Fenced(w) && b in w.db.rows && RefundedSoFar(w.db.rows[b]) == 0
    requires forall e :: e in w.refunds ==> e.bookingId != b
    requires forall t :: t in w.tasks && t.RefundWriteTask? ==> t.bookingId != b
    requires forall q :: q in w.db.inFlight ==> q.id != b
    ensures RefundsOk(w, b)
  {
    NothingGiven(w.refunds, b);
  }

  // ---- the booking operations ----

  // Whatever sets no refund leaves the booking's as it is.
  lemma OtherCommit(b: Row, p: Patch)
    requires !SetsRefund(p)
    ensures Apply(b, p).refund == b.refund
  {
  }

  lemma AdminCommit(b: Row, q: Lifecycle.Request)
    requires Plan(q.op, q.seen, q.at) == Ok(q.commit) && q.commit.patch.RefundPatch?
    requires !q.op.DisputeBookkeeping? && OpInRange(q.op) && b.status in q.commit.from
    ensures q.op.RefundByAdmin? && RefundedSoFar(q.seen) < q.commit.patch.refund && Kept(b)
  {
  }

  lemma FinishAdmin(w: World, k: nat, b: nat, v: World)
    requires w.db.trail.Keys == w.db.rows.Keys && b in w.db.rows && RefundsOk(w, b)
    requires Wins(w.db, k) && w.db.inFlight[k].id == b && w.db.inFlight[k].commit.patch.RefundPatch?
    requires var q := w.db.inFlight[k];
             Plan(q.op, q.seen, q.at) == Ok(q.commit) && OpInRange(q.op) && !q.op.DisputeBookkeeping?
    requires v == w.(db := Next(NO_GUARD, w.db, Finish(k)), refunds := w.refunds + BookingRefunds(w.db, Finish(k)))
    requires b in v.db.rows
    ensures RefundsOk(v, b)
  {
    FinishRows(NO_GUARD, w.db, k);
    assert w.db.inFlight[k] in w.db.inFlight;
    AdminCommit(w.db.rows[b], w.db.inFlight[k]);
    Written(w, v, BookingRefunds(w.db, Finish(k))[0]);
  }

  lemma FinishEnding(w: World, k: nat, b: nat, v: World)
    requires w.db.trail.Keys == w.db.rows.Keys && b in w.db.rows && RefundsOk(w, b)
    requires 0 <= RefundedSoFar(w.db.rows[b]) && Wins(w.db, k) && w.db.inFlight[k].id == b
    requires var p := w.db.inFlight[k].commit.patch; p.CancelPatch? || p.VoidPatch?
    requires v == w.(db := Next(NO_GUARD, w.db, Finish(k)), refunds := w.refunds + BookingRefunds(w.db, Finish(k)))
    requires b in v.db.rows
    ensures RefundsOk(v, b)
  {
    FinishRows(NO_GUARD, w.db, k);
    SetOutright(w, v, BookingRefunds(w.db, Finish(k))[0]);
  }

  lemma FinishElse(w: World, k: nat, b: nat, v: World)
    requires w.db.trail.Keys == w.db.rows.Keys && b in w.db.rows && RefundsOk(w, b)
    requires Wins(w.db, k) && w.db.inFlight[k].id == b && !SetsRefund(w.db.inFlight[k].commit.patch)
    requires v == w.(db := Next(NO_GUARD, w.db, Finish(k)), refunds := w.refunds + BookingRefunds(w.db, Finish(k)))
    requires b in v.db.rows && (Kept(v.db.rows[b]) ==> Kept(w.db.rows[b]))
    ensures RefundsOk(v, b)
  {
    FinishRows(NO_GUARD, w.db, k);
    OtherCommit(w.db.rows[b], w.db.inFlight[k].commit.patch);
    Unwritten(w, v, b, []);
  }

  lemma FinishOwn(w: World, k: nat, b: nat, v: World)
    requires Inv(NO_GUARD, w.db) && Fenced(w) && b in w.db.rows && RefundsOk(w, b)
    requires Wins(w.db, k) && w.db.inFlight[k].id == b
    requires v == w.(db := Next(NO_GUARD, w.db, Finish(k)), refunds := w.refunds + BookingRefunds(w.db, Finish(k)))
    requires b in v.db.rows && (Kept(v.db.rows[b]) ==> Kept(w.db.rows[b]))
    ensures RefundsOk(v, b)
  {
    var q := w.db.inFlight[k];
    assert q in w.db.inFlight && RequestOk(NO_GUARD, w.db, q) && RowOk(w.db.rows[b], w.db.clock);
    if q.commit.patch.RefundPatch? {
      FinishAdmin(w, k, b, v);
    } else if SetsRefund(q.commit.patch) {
      FinishEnding(w, k, b, v);
    } else {
      FinishElse(w, k, b, v);
    }
  }

  lemma FinishOther(w: World, k: nat, b: nat, v: World)
    requires w.db.trail.Keys == w.db.rows.Keys && b in w.db.rows && RefundsOk(w, b)
    requires !(Wins(w.db, k) && w.db.inFlight[k].id == b)
    requires v == w.(db := Next(NO_GUARD, w.db, Finish(k)), refunds := w.refunds + BookingRefunds(w.db, Finish(k)))
    ensures b in v.db.rows && RefundsOk(v, b)
  {
    FinishRows(NO_GUARD, w.db, k);
    Unwritten(w, v, b, BookingRefunds(w.db, Finish(k)));
  }

  // A booking keeps its row but for what commits do to it, and no commit undoes a cancellation.
  lemma QuietBook(w: World, a: Action, b: nat, v: World)
    requires Fenced(w) && !a.Finish? && !OwnedElsewhere(a) && b in w.db.rows && RefundsOk(w, b)
    requires v == w.(db := Next(NO_GUARD, w.db, a), refunds := w.refunds + BookingRefunds(w.db, a))
    ensures b in v.db.rows && RefundsOk(v, b)
  {
    assert v.db.rows[b] == w.db.rows[b];
    Unwritten(w, v, b, []);
  }

  lemma BookingBook(w: World, a: Action, b: nat, v: World)
    requires Inv(NO_GUARD, w.db) && Fenced(w) && BookingOk(w, b) && !OwnedElsewhere(a)
    requires v == w.(db := Next(NO_GUARD, w.db, a), refunds := w.refunds + BookingRefunds(w.db, a))
    ensures BookingOk(v, b)
  {
    if b in w.db.rows {
      RowsEvolve(NO_GUARD, w.db, a, b);
      if !a.Finish? {
        QuietBook(w, a, b, v);
      } else if Wins(w.db, a.index) && w.db.inFlight[a.index].id == b {
        FinishOwn(w, a.index, b, v);
      } else {
        FinishOther(w, a.index, b, v);
      }
    } else if b in v.db.rows {
      CreatedFresh(w, a, b, v);
    }
  }

  lemma CreatedFresh(w: World, a: Action, b: nat, v: World)
    requires w.db.trail.Keys == w.db.rows.Keys && Fenced(w) && b !in w.db.rows && b in v.db.rows
    requires v == w.(db := Next(NO_GUARD, w.db, a), refunds := w.refunds + BookingRefunds(w.db, a))
    ensures RefundsOk(v, b)
  {
    if a.Finish? {
      FinishRows(NO_GUARD, w.db, a.index);
    } else {
      assert a.Create? && a.newId == b && v.refunds == w.refunds;
      Fresh(v, b);
    }
  }

  // ---- the disputes' tasks ----

  lemma RefundDone(w: World, v: World, b: nat, e: Entry)
    requires Served(w, e.bookingId) && e.bookingId in w.db.trail && BookingOk(w, b)
    requires v.db == WriteRefund(w.db, e.bookingId, e.read + e.amount) && v.refunds == w.refunds + [e]
    requires e.found == RefundedSoFar(w.db.rows[e.bookingId]) && 0 < e.amount
    requires e.bookingId == b ==> ReadingOk(e.read, e.found, Given(w.refunds, b))
    requires forall t :: t in v.tasks ==> t in w.tasks || !t.RefundWriteTask?
    ensures BookingOk(v, b)
  {
    if b in w.db.rows {
      if e.bookingId == b {
        Written(w, v, e);
      } else {
        Unwritten(w, v, b, [e]);
      }
    }
  }

  lemma ResolveTasks(unique: bool, w: World, t: Task, newId: nat, v: World)
    requires t.ResolveTask? && v == Perform(unique, w, t, newId)
    ensures forall u :: u in v.tasks ==> u in w.tasks || !u.RefundWriteTask?
  {
  }

  lemma NothingDone(w: World, v: World, b: nat)
    requires BookingOk(w, b) && v.db == w.db && v.refunds == w.refunds
    requires forall t :: t in v.tasks ==>
      t in w.tasks || (t.RefundWriteTask? && t.bookingId == b && b in w.db.rows ==>
        t.read == RefundedSoFar(w.db.rows[b]))
    ensures BookingOk(v, b)
  {
    if b in w.db.rows {
      assert v.refunds == w.refunds + [];
      Unwritten(w, v, b, []);
    }
  }

  lemma ResolveBooking(unique: bool, w: World, t: Task, newId: nat, b: nat, v: World)
    requires Core(w) && Paying(w.db) && TaskOk(w, t) && t.ResolveTask? && BookingOk(w, b)
    requires v == Perform(unique, w, t, newId)
    ensures BookingOk(v, b)
  {
    DisputedBooking(w, t.id);
    ResolveEffect(unique, w, t, newId, v);
    ResolveTasks(unique, w, t, newId, v);
    if w.disputes[t.id].status in OPEN && Refunds(t.outcome) {
      RefundDone(w, v, b, SettleEntry(w, t));
    } else {
      NothingDone(w, v, b);
    }
  }

  lemma RefundWriteBooking(unique: bool, w: World, t: Task, newId: nat, b: nat, v: World)
    requires Paying(w.db) && TaskOk(w, t) && t.RefundWriteTask? && BookingOk(w, b)
    requires t.bookingId == b ==>
      ReadingOk(t.read, RefundedSoFar(w.db.rows[b]), Given(w.refunds, b))
    requires v == Perform(unique, w, t, newId)
    ensures BookingOk(v, b)
  {
    RefundWriteEffect(unique, w, t, newId, v);
    RefundDone(w, v, b, Entry(Some(t.id), t.bookingId, t.read, RefundedSoFar(w.db.rows[t.bookingId]), t.amount));
  }

  lemma NewTasks(unique: bool, w: World, t: Task, newId: nat, v: World)
    requires !t.ResolveTask? && v == Perform(unique, w, t, newId)
    ensures v.tasks == w.tasks || (|v.tasks| == |w.tasks| + 1 && v.tasks == w.tasks + [v.tasks[|w.tasks|]])
    ensures forall u :: u in v.tasks && u !in w.tasks && u.RefundWriteTask? ==>
      u.bookingId in w.db.rows && u.read == RefundedSoFar(w.db.rows[u.bookingId])
  {
  }

  lemma OtherBooking(unique: bool, w: World, t: Task, newId: nat, b: nat, v: World)
    requires !t.ResolveTask? && !t.RefundWriteTask? && BookingOk(w, b) && v == Perform(unique, w, t, newId)
    ensures BookingOk(v, b)
  {
    OtherEffect(unique, w, t, newId, v);
    NewTasks(unique, w, t, newId, v);
    NothingDone(w, v, b);
  }

  // What a task does to one booking: it writes one refund to it, or leaves it alone.
  lemma BookingDo(unique: bool, w: World, t: Task, newId: nat, b: nat, v: World)
    requires Core(w) && Paying(w.db) && TaskOk(w, t) && BookingOk(w, b) && v == Perform(unique, w, t, newId)
    requires t.RefundWriteTask? && t.bookingId == b ==>
      ReadingOk(t.read, RefundedSoFar(w.db.rows[b]), Given(w.refunds, b))
    ensures BookingOk(v, b)
  {
    if t.ResolveTask? {
      ResolveBooking(unique, w, t, newId, b, v);
    } else if t.RefundWriteTask? {
      RefundWriteBooking(unique, w, t, newId, b, v);
    } else {
      OtherBooking(unique, w, t, newId, b, v);
    }
  }

  // ---- the fence ----

  lemma FencedBook(w: World, a: Action, v: World)
    requires w.db.trail.Keys == w.db.rows.Keys && Fenced(w) && !OwnedElsewhere(a)
    requires v == w.(db := Next(NO_GUARD, w.db, a), refunds := w.refunds + BookingRefunds(w.db, a))
    ensures Fenced(v)
  {
    assert w.db.rows.Keys <= v.db.rows.Keys;
    assert forall q :: q in v.db.inFlight ==> q in w.db.inFlight || (!q.op.DisputeBookkeeping? && q.id in w.db.rows);
    assert forall e :: e in BookingRefunds(w.db, a) ==> e.bookingId in w.db.rows;
  }

  lemma FencedDo(unique: bool, w: World, t: Task, newId: nat, v: World)
    requires Core(w) && Paying(w.db) && TaskOk(w, t) && Fenced(w) && v == Perform(unique, w, t, newId)
    ensures Fenced(v)
  {
    if t.ResolveTask? {
      DisputedBooking(w, t.id);
      ResolveEffect(unique, w, t, newId, v);
    } else if t.RefundWriteTask? {
      RefundWriteEffect(unique, w, t, newId, v);
    } else {
      OtherEffect(unique, w, t, newId, v);
      NewTasks(unique, w, t, newId, v);
    }
  }

  // ---- every history ----

  ghost predicate Tracked(w: World, b: nat) { Fenced(w) && BookingOk(w, b) }

  lemma TaskTaken(w: World, k: nat, b: nat, w1: World)
    requires Core(w) && Tracked(w, b) && k < |w.tasks| && w1 == w.(tasks := RemoveAt(w.tasks, k))
    ensures Tracked(w1, b)
    ensures w.tasks[k].RefundWriteTask? && w.tasks[k].bookingId == b ==>
      b in w.db.rows && ReadingOk(w.tasks[k].read, RefundedSoFar(w.db.rows[b]), Given(w.refunds, b))
  {
    assert w.tasks[k] in w.tasks && TaskOk(w, w.tasks[k]);
    NothingDone(w, w1, b);
  }

  lemma TrackedDo(unique: bool, w: World, s: Step, b: nat, v: World)
    requires Core(w) && Paying(w.db) && Tracked(w, b) && s.Do? && s.index < |w.tasks| && v == Advance(unique, w, s)
    ensures Tracked(v, b)
  {
    var w1 := w.(tasks := RemoveAt(w.tasks, s.index));
    TakeOut(w, s.index, w1);
    TaskTaken(w, s.index, b, w1);
    BookingDo(unique, w1, w.tasks[s.index], s.newId, b, v);
    FencedDo(unique, w1, w.tasks[s.index], s.newId, v);
  }

  lemma TrackedRead(unique: bool, w: World, s: Step, b: nat, v: World)
    requires Tracked(w, b) && !s.Book? && !s.Do? && v == Advance(unique, w, s)
    ensures Tracked(v, b)
  {
    if v != w {
      var t := v.tasks[|w.tasks|];
      assert v == Spawn(w.(delay := v.delay), t) && !t.RefundWriteTask?;
      NothingDone(w, v, b);
    }
  }

  lemma TrackedBook(w: World, a: Action, b: nat, v: World)
    requires Inv(NO_GUARD, w.db) && Tracked(w, b) && !OwnedElsewhere(a)
    requires v == w.(db := Next(NO_GUARD, w.db, a), refunds := w.refunds + BookingRefunds(w.db, a))
    ensures Tracked(v, b)
  {
    BookingBook(w, a, b, v);
    FencedBook(w, a, v);
  }

  lemma TrackedStep(unique: bool, w: World, s: Step, b: nat, v: World)
    requires Sound(w) && Tracked(w, b) && v == Advance(unique, w, s)
    ensures Tracked(v, b)
  {
    if s.Book? {
      if !OwnedElsewhere(s.action) {
        TrackedBook(w, s.action, b, v);
      }
    } else if s.Do? {
      if s.index < |w.tasks| {
        InvPays(w.db);
        TrackedDo(unique, w, s, b, v);
      }
    } else {
      TrackedRead(unique, w, s, b, v);
    }
  }

  lemma {:induction false} TrackedAlways(unique: bool, steps: seq<Step>, b: nat)
    ensures Tracked(History(unique, steps), b)
  {
    if steps != [] {
      var before := steps[..|steps| - 1];
      HistorySound(unique, before);
      TrackedAlways(unique, before, b);
      TrackedStep(unique, History(unique, before), steps[|steps| - 1], b, History(unique, steps));
    }
  }

  /** In every history, every booking shows at most all the refunds ever written to it, by
      admins, disputes, cancellations and voids, and shows all of them if and only if each was
      written over the refund it went by, which for a cancellation or a void means over none. */
  lemma {:induction false} RefundsSurvive(unique: bool, steps: seq<Step>, b: nat)
    requires b in History(unique, steps).db.rows
    ensures var w := History(unique, steps);
            var shown := RefundedSoFar(w.db.rows[b]);
            && shown <= Given(w.refunds, b)
            && (shown == Given(w.refunds, b) <==> forall e :: e in w.refunds && e.bookingId == b ==> e.read == e.found)
  {
    TrackedAlways(unique, steps, b);
  }

  // ---- a refund lost ----

  const ONE_BACK := Lifecycle.Request(0, RefundByAdmin(1), 0, LEFT_ROW, Commit({Completed}, RefundPatch(1)))
  const ALL_BACK := Outcome(FullRefund, ResolvedGuest, Some(LEFT_ROW.total), None)

  lemma OneBackPlanned()
    ensures Plan(RefundByAdmin(1), LEFT_ROW, 0) == Ok(ONE_BACK.commit) && 0 < LEFT_ROW.total
  {
    Money.PriceShape(SAMPLE.kind, SAMPLE.rate, SAMPLE.hours, SAMPLE.commissionPct);
  }

  // The admin has read the booking, and then the guest files a dispute.
  lemma ReadThenFiled(unique: bool) returns (steps: seq<Step>, w: World)
    ensures History(unique, steps) == w && w == World(w.db, map[0 := FILED], [], map[], [], [], 0)
    ensures Looks(w.db, 0, LEFT_ROW, [ONE_BACK])
  {
    var db: Db;
    steps, db := Stayed(unique);
    OneBackPlanned();
    BeginLooks(NO_GUARD, db, LEFT_ROW, [], ONE_BACK);
    assert [] + [ONE_BACK] == [ONE_BACK];
    steps := ThenBook(unique, steps, db, Begin(0, RefundByAdmin(1), 0));
    db := Next(NO_GUARD, db, Begin(0, RefundByAdmin(1), 0));
    var c := CreateTask(FILED);
    assert [] + [c] == [c] && [c][1..] == [];
    steps := ThenLook(unique, steps, Only(db));
    steps := ThenInsert(unique, steps, Only(db).(tasks := [c]), 0);
    w := Only(db).(disputes := map[0 := FILED]);
  }

  lemma ResolutionRead(unique: bool, w: World)
    requires 0 in w.disputes && w.disputes[0] == FILED && 0 in w.db.rows && w.db.rows[0].total == LEFT_ROW.total &&
      w.tasks == []
    ensures Advance(unique, w, ResolveRead(0, ResolveRequest(FullRefund, None, None), 0))
            == w.(tasks := [ResolveTask(0, ALL_BACK, 0)])
  {
    assert [] + [ResolveTask(0, ALL_BACK, 0)] == [ResolveTask(0, ALL_BACK, 0)];
  }

  lemma ResolvedInFull(unique: bool, db: Db, w: World, v: World)
    requires w == World(db, map[0 := FILED], [ResolveTask(0, ALL_BACK, 0)], map[], [], [], 0)
    requires Looks(db, 0, LEFT_ROW, [ONE_BACK]) && v == Advance(unique, w, Do(0, 0))
    ensures v.tasks == [] && v.outcomes == map[0 := ALL_BACK] && v.refunds == [Entry(Some(0), 0, 0, 0, LEFT_ROW.total)]
    ensures Looks(v.db, 0, Apply(LEFT_ROW, RefundPatch(LEFT_ROW.total)), [ONE_BACK])
  {
    OneBackPlanned();
    assert RemoveAt(w.tasks, 0) == [];
  }

  lemma AdminWritesLast(w: World, row: Row)
    requires Looks(w.db, 0, row, [ONE_BACK]) && row.status == Completed
    ensures BookingRefunds(w.db, Finish(0)) == [Entry(None, 0, 0, RefundedSoFar(row), 1)]
    ensures Next(NO_GUARD, w.db, Finish(0)).rows == map[0 := Apply(row, RefundPatch(1))]
  {
    FinishLooks(NO_GUARD, w.db, 0, row, [ONE_BACK], 0);
  }

  // Resolved in full, with the admin's write still to come.
  lemma ReadThenResolved(unique: bool) returns (steps: seq<Step>, v: World)
    ensures History(unique, steps) == v && v.tasks == [] && v.outcomes == map[0 := ALL_BACK]
    ensures v.refunds == [Entry(Some(0), 0, 0, 0, LEFT_ROW.total)]
    ensures Looks(v.db, 0, Apply(LEFT_ROW, RefundPatch(LEFT_ROW.total)), [ONE_BACK])
  {
    var w: World;
    var read := ResolveRead(0, ResolveRequest(FullRefund, None, None), 0);
    steps, w := ReadThenFiled(unique);
    ResolutionRead(unique, w);
    HistorySnoc(unique, steps, read);
    HistorySnoc(unique, steps + [read], Do(0, 0));
    v := Advance(unique, w.(tasks := [ResolveTask(0, ALL_BACK, 0)]), Do(0, 0));
    ResolvedInFull(unique, w.db, w.(tasks := [ResolveTask(0, ALL_BACK, 0)]), v);
    steps := steps + [read] + [Do(0, 0)];
  }

  lemma TwoGiven(a: Entry, b: Entry)
    requires a.bookingId == 0 == b.bookingId
    ensures Given([a] + [b], 0) == a.amount + b.amount
  {
    GivenSnoc([], a, 0);
    assert [] + [a] == [a];
    GivenSnoc([a], b, 0);
  }

  /** From the empty database: an admin reads a completed booking to give back one paisa, a
      dispute on it is resolved with a full refund, and the admin's write follows. All is
      settled, the dispute counts as refunded in full, and the booking shows one paisa. */
  lemma RefundLost(unique: bool) returns (steps: seq<Step>)
    ensures var w := History(unique, steps);
            && w.tasks == [] && w.db.inFlight == [] && 0 in w.outcomes && w.outcomes[0].refund == Some(LEFT_ROW.total)
            && 0 in w.db.rows && RefundedSoFar(w.db.rows[0]) == 1 && Given(w.refunds, 0) == LEFT_ROW.total + 1
  {
    var v: World;
    var row := Apply(LEFT_ROW, RefundPatch(LEFT_ROW.total));
    steps, v := ReadThenResolved(unique);
    AdminWritesLast(v, row);
    FinishLooks(NO_GUARD, v.db, 0, row, [ONE_BACK], 0);
    assert RemoveAt([ONE_BACK], 0) == [];
    TwoGiven(v.refunds[0], BookingRefunds(v.db, Finish(0))[0]);
    HistorySnoc(unique, steps, Book(Finish(0)));
    steps := steps + [Book(Finish(0))];
  }

  // ---- a refund cancelled away, with nothing interleaved ----

  const FIRST_BACK := Lifecycle.Request(0, RefundByAdmin(1), 0, PAID_ROW, Commit({Confirmed}, RefundPatch(1)))
  const PARTLY_ROW := Apply(PAID_ROW, RefundPatch(1))
  const CALL_OFF := Lifecycle.Request(0, CancelByGuest(7), 0, PARTLY_ROW, Commit({Confirmed}, CancelPatch(0, Guest, 0)))

  lemma LoggedBook(unique: bool, steps: seq<Step>, w: World, a: Action, es: seq<Entry>) returns (more: seq<Step>)
    requires History(unique, steps) == w && !OwnedElsewhere(a) && BookingRefunds(w.db, a) == es
    ensures History(unique, more) == w.(db := Next(NO_GUARD, w.db, a), refunds := w.refunds + es)
  {
    HistorySnoc(unique, steps, Book(a));
    more := steps + [Book(a)];
  }

  lemma SetsEntry(db: Db, row: Row, q: Lifecycle.Request, e: Entry)
    requires Looks(db, 0, row, [q]) && q.id == 0 == q.at && q.seen == row
    requires row.status in q.commit.from && SetsRefund(q.commit.patch)
    requires e.dispute == None && e.bookingId == 0 && e.found == RefundedSoFar(row)
    requires e.read == (if q.commit.patch.RefundPatch? then RefundedSoFar(row) else 0)
    requires e.amount == q.commit.patch.refund - e.read
    ensures BookingRefunds(db, Finish(0)) == [e]
  {
  }

  // A booking operation that sets the refund, read and committed at once.
  lemma ThenSetRefund(unique: bool, steps: seq<Step>, w: World, row: Row, q: Lifecycle.Request, e: Entry)
    returns (more: seq<Step>, db: Db)
    requires History(unique, steps) == w && Looks(w.db, 0, row, []) && q.id == 0 == q.at && q.seen == row
    requires (q.op.RefundByAdmin? || q.op.CancelByGuest?) && OpInRange(q.op)
    requires Plan(q.op, row, 0) == Ok(q.commit) && row.status in q.commit.from && SetsRefund(q.commit.patch)
    requires e.dispute == None && e.bookingId == 0 && e.found == RefundedSoFar(row)
    requires e.read == (if q.commit.patch.RefundPatch? then RefundedSoFar(row) else 0)
    requires e.amount == q.commit.patch.refund - e.read
    ensures History(unique, more) == w.(db := db, refunds := w.refunds + [e])
    ensures Looks(db, 0, Apply(row, q.commit.patch), [])
  {
    var mid := Next(NO_GUARD, w.db, Begin(0, q.op, 0));
    BeginLooks(NO_GUARD, w.db, row, [], q);
    assert [] + [q] == [q] && RemoveAt([q], 0) == [] && w.refunds + [] == w.refunds;
    more := LoggedBook(unique, steps, w, Begin(0, q.op, 0), []);
    FinishLooks(NO_GUARD, mid, 0, row, [q], 0);
    SetsEntry(mid, row, q, e);
    more := LoggedBook(unique, more, w.(db := mid), Finish(0), [e]);
    db := Next(NO_GUARD, mid, Finish(0));
  }

  lemma CallOffPlanned()
    ensures Plan(FIRST_BACK.op, PAID_ROW, 0) == Ok(FIRST_BACK.commit)
    ensures Plan(CALL_OFF.op, PARTLY_ROW, 0) == Ok(CALL_OFF.commit)
  {
    Money.PriceShape(SAMPLE.kind, SAMPLE.rate, SAMPLE.hours, SAMPLE.commissionPct);
  }

  // Paid for.
  lemma Paid(unique: bool) returns (steps: seq<Step>, db: Db)
    ensures History(unique, steps) == Only(db) && Looks(db, 0, PAID_ROW, [])
  {
    steps, db := Created(unique);
    steps, db := ThenOperate(unique, steps, db, UNPAID_ROW, CAPTURE_REQUEST);
  }

  // One paisa given back, and then called off.
  lemma GivenAndCalledOff(unique: bool, first: Entry, second: Entry) returns (steps: seq<Step>, db: Db)
    requires first == Entry(None, 0, 0, 0, 1) && second == Entry(None, 0, 0, 1, 0)
    ensures History(unique, steps) == Only(db).(refunds := [first, second])
    ensures Looks(db, 0, Apply(PARTLY_ROW, CancelPatch(0, Guest, 0)), [])
  {
    CallOffPlanned();
    steps, db := Paid(unique);
    steps, db := ThenSetRefund(unique, steps, Only(db), PAID_ROW, FIRST_BACK, first);
    assert [] + [first] == [first] && [first] + [second] == [first, second];
    steps, db := ThenSetRefund(unique, steps, Only(db).(refunds := [first]), PARTLY_ROW, CALL_OFF, second);
  }

  /** From the empty database: an admin gives back one paisa of a confirmed booking, and the
      guest then cancels too late for a refund, each request on its own. The booking ends
      cancelled and shows none of it. */
  lemma RefundCancelledAway(unique: bool) returns (steps: seq<Step>)
    ensures var w := History(unique, steps);
            && w.tasks == [] && w.db.inFlight == [] && 0 in w.db.rows && w.db.rows[0].status == Cancelled
            && RefundedSoFar(w.db.rows[0]) == 0 && Given(w.refunds, 0) == 1
            && w.refunds == [Entry(None, 0, 0, 0, 1), Entry(None, 0, 0, 1, 0)]
  {
    var first, second := Entry(None, 0, 0, 0, 1), Entry(None, 0, 0, 1, 0);
    var db: Db;
    steps, db := GivenAndCalledOff(unique, first, second);
    assert [first] + [second] == [first, second];
    TwoGiven(first, second);
  }
}
