/**
 The dispute protocol with nothing in between: a read whose writes follow at once does to
 disputes, bookings and credits what the whole operation does, unique key or not.
 */
module DisputeSteps {
  import opened Common
  import opened Booking
  import opened Lifecycle
  import opened DisputeRules
  import opened Disputes
  import R = Refunds

  // The operations see the rows and the disputes.
  function Seen(w: World): R.State { R.State(w.db.rows, w.disputes) }

  // The first task is done.
  ghost function Drained(unique: bool, w: World, newId: nat): World { Advance(unique, w, Do(0, newId)) }

  lemma DrainOne(unique: bool, w: World, t: Task, newId: nat)
    requires w.tasks == []
    ensures Drained(unique, Spawn(w, t), newId) == Perform(unique, w, t, newId)
  {
    assert [] + [t] == [t] && RemoveAt([t], 0) == [];
    assert Spawn(w, t).(tasks := []) == w;
  }

  lemma NothingToDo(unique: bool, w: World, newId: nat)
    requires w.tasks == []
    ensures Drained(unique, w, newId) == w
  {
  }

  lemma SoloFile(unique: bool, w: World, newId: nat, bookingId: nat, guestId: nat, at: int, stamp: int)
    requires w.tasks == [] && newId !in w.disputes && w.db.clock <= at <= stamp
    ensures var v := Drained(unique, Advance(unique, w, FileRead(bookingId, guestId, at, stamp)), newId);
            v.tasks == [] && Seen(v) == R.Step(Seen(w), R.File(newId, bookingId, guestId, at, stamp))
  {
    var read := FileRead(bookingId, guestId, at, stamp);
    if bookingId in w.db.rows && !HasDispute(w.disputes, bookingId)
       && FileDispute(w.db.rows[bookingId], bookingId, guestId, at, stamp).Ok? {
      var d := FileDispute(w.db.rows[bookingId], bookingId, guestId, at, stamp).value;
      DrainOne(unique, w.(delay := Max(w.delay, stamp - at)), CreateTask(d), newId);
    } else {
      NothingToDo(unique, w, newId);
    }
  }

  // Viewing, asking for a response and answering, in one write each.
  lemma SoloStatus(unique: bool, w: World, newId: nat, id: nat, at: int)
    requires w.tasks == []
    ensures var v := Drained(unique, Advance(unique, w, DetailRead(id)), newId);
            v == if id in w.disputes && w.disputes[id].status == Filed
                 then w.(disputes := w.disputes[id := w.disputes[id].(status := UnderReview)]) else w
    ensures var v := Drained(unique, Advance(unique, w, AskRead(id, at)), newId);
            v == if id in w.disputes && w.disputes[id].status in {Filed, UnderReview}
                 then w.(disputes := w.disputes[id := w.disputes[id].(status := AwaitingHotelResponse,
                                                                      responseDeadline := Some(at + 172_800_000))])
                 else w
    ensures var v := Drained(unique, Advance(unique, w, AnswerRead(id, at)), newId);
            v == if id in w.disputes && w.disputes[id].status == AwaitingHotelResponse
                    && w.disputes[id].responseDeadline.Some? && at <= w.disputes[id].responseDeadline.value
                 then w.(disputes := w.disputes[id := w.disputes[id].(status := UnderReview)]) else w
  {
    DrainOne(unique, w, ReviewTask(id), newId);
    DrainOne(unique, w, AskTask(id, at), newId);
    DrainOne(unique, w, AnswerTask(id), newId);
    NothingToDo(unique, w, newId);
  }

  // ---- resolving ----

  lemma SettledAlone(unique: bool, w: World, id: nat, o: Outcome, at: int, v: World)
    requires w.db.trail.Keys == w.db.rows.Keys && id in w.disputes && w.disputes[id].bookingId in w.db.rows
    requires v == Perform(unique, w, ResolveTask(id, o, at), 0)
    ensures Seen(v) == R.Settle(Seen(w), id, o, at)
    ensures w.disputes[id].status in OPEN && !Refunds(o) && o.credit.Some? ==>
      v == Spawn(v.(tasks := w.tasks), CreditTask(id, o.credit.value)) && v.credits == w.credits
    ensures !(w.disputes[id].status in OPEN && !Refunds(o) && o.credit.Some?) ==>
      v.tasks == w.tasks && v.credits == w.credits
  {
    var b := w.disputes[id].bookingId;
    if w.disputes[id].status in OPEN && Refunds(o) {
      R.BookkeepingAdds(w.db.rows, b, o.refund.value, at);
    }
  }

  ghost function Resolved(unique: bool, w: World, id: nat, request: DisputeRules.Request, at: int): World {
    Drained(unique, Drained(unique, Advance(unique, w, ResolveRead(id, request, at)), 0), 0)
  }

  /** A resolution: the dispute closed with its refund in one transaction, then the credit. */
  lemma SoloResolve(unique: bool, w: World, id: nat, request: DisputeRules.Request, at: int)
    requires w.tasks == [] && w.db.trail.Keys == w.db.rows.Keys
    ensures var v := Resolved(unique, w, id, request, at);
            && v.tasks == [] && Seen(v) == R.Step(Seen(w), R.Resolve(id, request, at))
            && v.credits == if request.kind == WalletCredit && v.disputes != w.disputes
                            then w.credits + [Grant(id, request.creditAmount.value)] else w.credits
  {
    if id in w.disputes && w.disputes[id].bookingId in w.db.rows
       && Decide(w.db.rows[w.disputes[id].bookingId].total, request).Ok? {
      var o := Decide(w.db.rows[w.disputes[id].bookingId].total, request).value;
      var mid := Perform(unique, w, ResolveTask(id, o, at), 0);
      DrainOne(unique, w, ResolveTask(id, o, at), 0);
      SettledAlone(unique, w, id, o, at, mid);
      if mid.tasks == [] {
        NothingToDo(unique, mid, 0);
      } else {
        DrainOne(unique, mid.(tasks := []), CreditTask(id, o.credit.value), 0);
      }
      if w.disputes[id].status in OPEN { ClosedDiffers(w, id, o, at); }
    } else {
      NothingToDo(unique, w, 0);
    }
  }

  lemma ClosedDiffers(w: World, id: nat, o: Outcome, at: int)
    requires id in w.disputes && w.disputes[id].status in OPEN && o.status !in OPEN
    ensures w.disputes[id := Close(w.disputes[id], o, at)] != w.disputes
  {
    assert w.disputes[id := Close(w.disputes[id], o, at)][id].status != w.disputes[id].status;
  }

  // ---- the auto-close ----

  ghost function Swept(unique: bool, w: World, id: nat, at: int): World {
    Drained(unique, Drained(unique, Drained(unique, Drained(unique, Advance(unique, w, SweepRead(id, at)), 0), 0), 0),
      0)
  }

  lemma ClosedAlone(unique: bool, w: World, id: nat, at: int, b: Row)
    requires w.tasks == [] && w.db.trail.Keys == w.db.rows.Keys && id in w.disputes && w.disputes[id].status in OPEN
    requires w.disputes[id].bookingId in w.db.rows && b == w.db.rows[w.disputes[id].bookingId]
    ensures var v := Drained(unique, Drained(unique,
              Perform(unique, w, CloseTask(id, w.disputes[id].bookingId, b.status, b.total, at), 0), 0), 0);
            && v.tasks == [] && v.disputes == w.disputes[id := Close(w.disputes[id], AutoClosed(b.total), at)]
            && v.db.rows
               == w.db.rows[w.disputes[id].bookingId := Apply(b, RefundPatch(RefundedSoFar(b) + b.total))]
  {
    var booking := w.disputes[id].bookingId;
    var closed := Closed(w, id, AutoClosed(b.total), at);
    DrainOne(unique, closed, RefundReadTask(id, booking, b.status, b.total), 0);
    DrainOne(unique, closed, RefundWriteTask(id, booking, b.status, RefundedSoFar(b), b.total), 0);
  }

  // What an auto-close leaves.
  function ClosedFor(w: World, id: nat, at: int): R.State
    requires id in w.disputes && w.disputes[id].bookingId in w.db.rows
  {
    var b := w.db.rows[w.disputes[id].bookingId];
    R.State(w.db.rows[w.disputes[id].bookingId := Apply(b, RefundPatch(RefundedSoFar(b) + b.total))],
            w.disputes[id := Close(w.disputes[id], AutoClosed(b.total), at)])
  }

  lemma AutoCloseLeaves(w: World, id: nat, at: int)
    requires id in w.disputes && w.disputes[id].bookingId in w.db.rows && Expired(w.disputes[id], at)
    requires 0 < w.db.rows[w.disputes[id].bookingId].total
    ensures R.Step(Seen(w), R.AutoClose(id, at)) == ClosedFor(w, id, at)
  {
    R.BookkeepingAdds(w.db.rows, w.disputes[id].bookingId, w.db.rows[w.disputes[id].bookingId].total, at);
  }

  lemma SweptOpen(unique: bool, w: World, id: nat, at: int)
    requires w.tasks == [] && w.db.trail.Keys == w.db.rows.Keys && id in w.disputes && Expired(w.disputes[id], at)
    requires w.disputes[id].bookingId in w.db.rows
    ensures var v := Swept(unique, w, id, at); v.tasks == [] && Seen(v) == ClosedFor(w, id, at)
  {
    var b := w.db.rows[w.disputes[id].bookingId];
    DrainOne(unique, w, SweepTask(id, at), 0);
    DrainOne(unique, w, CloseTask(id, w.disputes[id].bookingId, b.status, b.total, at), 0);
    ClosedAlone(unique, w, id, at, b);
  }

  lemma SweptNot(unique: bool, w: World, id: nat, at: int)
    requires w.tasks == []
    requires id !in w.disputes || !Expired(w.disputes[id], at) || w.disputes[id].bookingId !in w.db.rows
    ensures Swept(unique, w, id, at) == w && R.Step(Seen(w), R.AutoClose(id, at)) == Seen(w)
  {
    DrainOne(unique, w, SweepTask(id, at), 0);
    NothingToDo(unique, w, 0);
  }

  /** An auto-close: the dispute closed for the guest, then its booking read and written. */
  lemma SoloSweep(unique: bool, w: World, id: nat, at: int)
    requires w.tasks == [] && Paying(w.db)
    ensures Swept(unique, w, id, at).tasks == []
    ensures Seen(Swept(unique, w, id, at)) == R.Step(Seen(w), R.AutoClose(id, at))
  {
    if id in w.disputes && Expired(w.disputes[id], at) && w.disputes[id].bookingId in w.db.rows {
      SweptOpen(unique, w, id, at);
      AutoCloseLeaves(w, id, at);
    } else {
      SweptNot(unique, w, id, at);
    }
  }
}
