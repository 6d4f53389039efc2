/**
 How much money one booking can give back. Runs of whole operations: each booking
 or dispute operation reads, decides and commits as one step; what interleaved
 refunds leave of each other is the matter of `RefundWrites`.
 */
module Refunds {
  import opened Common
  import opened Money
  import opened Booking
  import opened DisputeRules

  datatype State = State(rows: Table, disputes: map<nat, Dispute>)

  datatype Operation =
    | Insert(newId: nat, data: NewBooking, now: int)
    | Act(id: nat, op: Op, now: int)
    | File(newDispute: nat, bookingId: nat, guestId: nat, now: int, stamp: int)
    | Resolve(dispute: nat, request: DisputeRules.Request, now: int)
    | AutoClose(dispute: nat, now: int)

  const EMPTY := State(map[], map[])

  // Close the dispute and, when the outcome refunds, add it to what the booking has given back.
  function Settle(s: State, k: nat, o: Outcome, now: int): State
    requires k in s.disputes
  {
    var d := s.disputes[k];
    if d.status !in OPEN then s
    else
      State(if Refunds(o) && d.bookingId in s.rows
            then Execute(s.rows, d.bookingId, DisputeBookkeeping(s.rows[d.bookingId].status, o.refund.value), now).0
            else s.rows,
            s.disputes[k := Close(d, o, now)])
  }

  ghost function Step(s: State, a: Operation): State {
    match a
    case Insert(id, data, now) =>
      if id in s.rows || !InRange(data) then s else s.(rows := s.rows[id := FreshRow(data, now)])
    case Act(id, op, now) =>
      if op.DisputeBookkeeping? || !OpInRange(op) then s else s.(rows := Execute(s.rows, id, op, now).0)
    case File(k, bookingId, guestId, now, stamp) =>
      if k in s.disputes || bookingId !in s.rows || HasDispute(s.disputes, bookingId) then s
      else
        var filed := FileDispute(s.rows[bookingId], bookingId, guestId, now, stamp);
        if filed.Ok? then s.(disputes := s.disputes[k := filed.value]) else s
    case Resolve(k, request, now) =>
      if k !in s.disputes || s.disputes[k].bookingId !in s.rows then s
      else
        var decided := Decide(s.rows[s.disputes[k].bookingId].total, request);
        if decided.Ok? then Settle(s, k, decided.value, now) else s
    case AutoClose(k, now) =>
      if k !in s.disputes || s.disputes[k].bookingId !in s.rows || !Expired(s.disputes[k], now) then s
      else Settle(s, k, AutoClosed(s.rows[s.disputes[k].bookingId].total), now)
  }

  ghost function Run(acts: seq<Operation>): State {
    if acts == [] then EMPTY else Step(Run(acts[..|acts| - 1]), acts[|acts| - 1])
  }

  // ---- what a booking may have given back ----

  function DisputeRefund(d: Dispute): int { if d.refund.Some? then d.refund.value else 0 }

  ghost predicate RowWithin(b: Row, extra: int) {
    0 < b.total && 0 <= RefundedSoFar(b) <= b.total + extra
  }

  ghost predicate DisputeWithin(rows: Table, d: Dispute) {
    && d.bookingId in rows && rows[d.bookingId].status == Completed
    && 0 <= DisputeRefund(d) <= rows[d.bookingId].total
    && (d.status in OPEN ==> d.refund.None?)
    && RowWithin(rows[d.bookingId], DisputeRefund(d))
  }

  ghost predicate RowsWithin(s: State) {
    forall id :: id in s.rows && !HasDispute(s.disputes, id) ==> RowWithin(s.rows[id], 0)
  }

  ghost predicate DisputesWithin(s: State) {
    && (forall k :: k in s.disputes ==> DisputeWithin(s.rows, s.disputes[k]))
    && (forall j, k :: j in s.disputes && k in s.disputes && j != k ==>
      s.disputes[j].bookingId != s.disputes[k].bookingId)
  }

  ghost predicate Within(s: State) { RowsWithin(s) && DisputesWithin(s) }

  lemma CancellationWithin(b: Row, now: int)
    requires b.total > 0
    ensures 0 <= CancellationRefund(b, now) <= b.total
  {
  }

  // What one planned commit does to the row it was planned from.
  lemma PatchWithin(b: Row, op: Op, now: int, extra: int)
    requires RowWithin(b, extra) && 0 <= extra && OpInRange(op) && !op.DisputeBookkeeping?
    requires Plan(op, b, now).Ok? && b.status in Plan(op, b, now).value.from
    ensures var c := Apply(b, Plan(op, b, now).value.patch);
            RowWithin(c, extra) && (b.status == Completed ==> c.status == Completed && c.total == b.total)
  {
    CancellationWithin(b, now);
  }

  lemma CommitWithin(rows: Table, id: nat, op: Op, now: int, extra: int)
    requires id in rows && RowWithin(rows[id], extra) && 0 <= extra && OpInRange(op) && !op.DisputeBookkeeping?
    ensures var after := Execute(rows, id, op, now).0;
            && after.Keys == rows.Keys && (forall j :: j in rows && j != id ==> after[j] == rows[j])
            && RowWithin(after[id], extra)
            && (rows[id].status == Completed ==> after[id].status == Completed && after[id].total == rows[id].total)
  {
    var planned := PlanIn(rows, id, op, now);
    if planned.Ok? {
      assert planned == Plan(op, rows[id], now);
      if rows[id].status in planned.value.from {
        PatchWithin(rows[id], op, now, extra);
        assert Execute(rows, id, op, now).0 == rows[id := Apply(rows[id], planned.value.patch)];
      }
    }
  }

  lemma ActKeeps(s: State, a: Operation)
    requires Within(s) && a.Act?
    ensures Within(Step(s, a))
  {
    var t := Step(s, a);
    if a.id in s.rows && !a.op.DisputeBookkeeping? && OpInRange(a.op) {
      if k :| k in s.disputes && s.disputes[k].bookingId == a.id {
        assert DisputeWithin(s.rows, s.disputes[k]);
        CommitWithin(s.rows, a.id, a.op, a.now, DisputeRefund(s.disputes[k]));
      } else {
        CommitWithin(s.rows, a.id, a.op, a.now, 0);
      }
      forall k | k in t.disputes ensures DisputeWithin(t.rows, t.disputes[k]) {
        assert DisputeWithin(s.rows, s.disputes[k]);
      }
    }
  }

  lemma InsertKeeps(s: State, a: Operation)
    requires Within(s) && a.Insert?
    ensures Within(Step(s, a))
  {
    var t := Step(s, a);
    if t != s {
      PriceShape(a.data.kind, a.data.rate, a.data.hours, a.data.commissionPct);
      forall k | k in t.disputes ensures DisputeWithin(t.rows, t.disputes[k]) {
        assert DisputeWithin(s.rows, s.disputes[k]);
      }
    }
  }

  lemma StillDisputed(before: map<nat, Dispute>, after: map<nat, Dispute>)
    requires forall k :: k in before ==> k in after && after[k].bookingId == before[k].bookingId
    ensures forall id :: HasDispute(before, id) ==> HasDispute(after, id)
  {
    forall id | HasDispute(before, id) ensures HasDispute(after, id) {
      var k :| k in before && before[k].bookingId == id;
      assert after[k].bookingId == id;
    }
  }

  lemma FileKeeps(s: State, a: Operation)
    requires Within(s) && a.File?
    ensures Within(Step(s, a))
  {
    var t := Step(s, a);
    if t != s {
      assert RowWithin(s.rows[a.bookingId], 0);
      forall k | k in t.disputes ensures DisputeWithin(t.rows, t.disputes[k]) {
        assert k in s.disputes ==> DisputeWithin(s.rows, s.disputes[k]);
      }
      StillDisputed(s.disputes, t.disputes);
    }
  }

  lemma BookkeepingAdds(rows: Table, id: nat, amount: int, now: int)
    requires id in rows
    ensures Execute(rows, id, DisputeBookkeeping(rows[id].status, amount), now).0
            == rows[id := Apply(rows[id], RefundPatch(RefundedSoFar(rows[id]) + amount))]
  {
  }

  lemma SettleKeeps(s: State, k: nat, o: Outcome, now: int)
    requires Within(s) && k in s.disputes && s.disputes[k].bookingId in s.rows
    requires o.status !in OPEN && (o.refund.Some? ==> 0 < o.refund.value <= s.rows[s.disputes[k].bookingId].total)
    ensures Within(Settle(s, k, o, now))
  {
    var d, t := s.disputes[k], Settle(s, k, o, now);
    assert DisputeWithin(s.rows, d);
    if d.status in OPEN {
      if Refunds(o) {
        BookkeepingAdds(s.rows, d.bookingId, o.refund.value, now);
      }
      forall j | j in t.disputes ensures DisputeWithin(t.rows, t.disputes[j]) {
        assert DisputeWithin(s.rows, s.disputes[j]);
      }
      StillDisputed(s.disputes, t.disputes);
      assert HasDispute(s.disputes, d.bookingId);
    }
  }

  lemma StepKeeps(s: State, a: Operation)
    requires Within(s)
    ensures Within(Step(s, a))
  {
    if a.Insert? {
      InsertKeeps(s, a);
    } else if a.Act? {
      ActKeeps(s, a);
    } else if a.File? {
      FileKeeps(s, a);
    } else if a.dispute in s.disputes {
      var d := s.disputes[a.dispute];
      assert DisputeWithin(s.rows, d);
      var total := s.rows[d.bookingId].total;
      if a.Resolve? {
        if Decide(total, a.request).Ok? {
          DecideCloses(total, a.request);
          SettleKeeps(s, a.dispute, Decide(total, a.request).value, a.now);
        }
      } else {
        SettleKeeps(s, a.dispute, AutoClosed(total), a.now);
      }
    }
  }

  lemma {:induction false} RunKeeps(acts: seq<Operation>)
    ensures Within(Run(acts))
  {
    if acts != [] {
      RunKeeps(acts[..|acts| - 1]);
      StepKeeps(Run(acts[..|acts| - 1]), acts[|acts| - 1]);
    }
  }

  // ---- main results ----

  /** The recorded refund of a booking never exceeds its total until a dispute refund
      is applied, and afterwards never exceeds the total plus that one refund, which
      is itself at most the total; a booking has at most one dispute. */
  lemma {:induction false} RefundBound(acts: seq<Operation>, id: nat)
    requires id in Run(acts).rows
    ensures var s := Run(acts);
            var b := s.rows[id];
            && (forall j, k ::
                 j in s.disputes && k in s.disputes && s.disputes[j].bookingId == id == s.disputes[k].bookingId ==>
                 j == k)
            && (!HasDispute(s.disputes, id) ==> 0 <= RefundedSoFar(b) <= b.total)
            && (forall k :: k in s.disputes && s.disputes[k].bookingId == id ==>
                 var extra := DisputeRefund(s.disputes[k]);
                 0 <= extra <= b.total && 0 <= RefundedSoFar(b) <= b.total + extra <= 2 * b.total)
  {
    RunKeeps(acts);
    var s := Run(acts);
    forall k | k in s.disputes && s.disputes[k].bookingId == id
      ensures 0 <= DisputeRefund(s.disputes[k]) <= s.rows[id].total
              && 0 <= RefundedSoFar(s.rows[id]) <= s.rows[id].total + DisputeRefund(s.disputes[k])
    {
      assert DisputeWithin(s.rows, s.disputes[k]);
    }
  }

  // ---- within the total, exactly ----

  // No booking has given back more than it took.
  ghost predicate Modest(s: State) { forall id :: id in s.rows ==> RefundedSoFar(s.rows[id]) <= s.rows[id].total }

  // What a dispute is about to give back is still there to give.
  ghost predicate SettleAffordable(s: State, k: nat, o: Outcome)
    requires k in s.disputes
  {
    s.disputes[k].status in OPEN && Refunds(o) && s.disputes[k].bookingId in s.rows ==>
      var b := s.rows[s.disputes[k].bookingId];
      o.refund.value <= b.total - RefundedSoFar(b)
  }

  ghost predicate StepAffordable(s: State, a: Operation) {
    && (a.Resolve? && a.dispute in s.disputes && s.disputes[a.dispute].bookingId in s.rows ==>
         var decided := Decide(s.rows[s.disputes[a.dispute].bookingId].total, a.request);
         decided.Ok? ==> SettleAffordable(s, a.dispute, decided.value))
    && (a.AutoClose? && a.dispute in s.disputes && s.disputes[a.dispute].bookingId in s.rows
        && Expired(s.disputes[a.dispute], a.now) ==>
         SettleAffordable(s, a.dispute, AutoClosed(s.rows[s.disputes[a.dispute].bookingId].total)))
  }

  ghost predicate Affordable(acts: seq<Operation>) {
    acts != [] ==> Affordable(acts[..|acts| - 1]) && StepAffordable(Run(acts[..|acts| - 1]), acts[|acts| - 1])
  }

  ghost predicate NeverBeyond(acts: seq<Operation>) {
    Modest(Run(acts)) && (acts != [] ==> NeverBeyond(acts[..|acts| - 1]))
  }

  lemma TotalsPositive(s: State)
    requires Within(s)
    ensures forall id :: id in s.rows ==> 0 < s.rows[id].total && 0 <= RefundedSoFar(s.rows[id])
  {
    forall id | id in s.rows ensures 0 < s.rows[id].total && 0 <= RefundedSoFar(s.rows[id]) {
      if k :| k in s.disputes && s.disputes[k].bookingId == id {
        assert DisputeWithin(s.rows, s.disputes[k]);
      } else {
        assert RowWithin(s.rows[id], 0);
      }
    }
  }

  // The step of a dispute: within the total afterwards exactly when the refund fits the rest.
  lemma SettleExact(s: State, k: nat, o: Outcome, now: int)
    requires Modest(s) && k in s.disputes && s.disputes[k].bookingId in s.rows && o.status !in OPEN
    ensures Modest(Settle(s, k, o, now)) <==> SettleAffordable(s, k, o)
  {
    var d, t := s.disputes[k], Settle(s, k, o, now);
    if d.status in OPEN && Refunds(o) {
      BookkeepingAdds(s.rows, d.bookingId, o.refund.value, now);
      assert t.rows[d.bookingId].total == s.rows[d.bookingId].total;
      assert RefundedSoFar(t.rows[d.bookingId]) == RefundedSoFar(s.rows[d.bookingId]) + o.refund.value;
      assert forall id :: id in t.rows && id != d.bookingId ==> t.rows[id] == s.rows[id];
    } else {
      assert t.rows == s.rows;
    }
  }

  lemma OtherModest(s: State, a: Operation)
    requires Within(s) && Modest(s) && (a.Insert? || a.Act? || a.File?)
    ensures Modest(Step(s, a))
  {
    if a.Insert? {
      PriceShapeOfInsert(a);
    } else if a.Act? && a.id in s.rows && !a.op.DisputeBookkeeping? && OpInRange(a.op) {
      TotalsPositive(s);
      CommitWithin(s.rows, a.id, a.op, a.now, 0);
    }
  }

  lemma PriceShapeOfInsert(a: Operation)
    requires a.Insert?
    ensures InRange(a.data) ==> 0 <= FreshRow(a.data, a.now).total
  {
    if InRange(a.data) {
      PriceShape(a.data.kind, a.data.rate, a.data.hours, a.data.commissionPct);
    }
  }

  lemma StepExact(s: State, a: Operation)
    requires Within(s) && Modest(s)
    ensures Modest(Step(s, a)) <==> StepAffordable(s, a)
  {
    if a.Insert? || a.Act? || a.File? {
      OtherModest(s, a);
    } else if a.dispute in s.disputes && s.disputes[a.dispute].bookingId in s.rows {
      TotalsPositive(s);
      var total := s.rows[s.disputes[a.dispute].bookingId].total;
      if a.Resolve? {
        if Decide(total, a.request).Ok? {
          DecideCloses(total, a.request);
          SettleExact(s, a.dispute, Decide(total, a.request).value, a.now);
        }
      } else {
        SettleExact(s, a.dispute, AutoClosed(total), a.now);
      }
    }
  }

  /** A run keeps every booking's recorded refund within its total at every moment if and only
      if each resolution and each auto-close refunds no more than what is left of the total:
      the test that admin refunds make and disputes do not. */
  lemma {:induction false} WithinTotalExact(acts: seq<Operation>)
    ensures NeverBeyond(acts) <==> Affordable(acts)
  {
    if acts != [] {
      var before, a := acts[..|acts| - 1], acts[|acts| - 1];
      WithinTotalExact(before);
      RunKeeps(before);
      if Modest(Run(before)) {
        StepExact(Run(before), a);
      }
    }
  }

  lemma RunSnoc(acts: seq<Operation>, a: Operation)
    ensures Run(acts + [a]) == Step(Run(acts), a)
  {
    assert (acts + [a])[..|acts|] == acts;
  }

  lemma ThenAct(acts: seq<Operation>, row: Row, op: Op, now: int) returns (more: seq<Operation>)
    requires Run(acts) == State(map[0 := row], map[]) && OpInRange(op) && !op.DisputeBookkeeping? && !op.Extend?
    requires Plan(op, row, now).Ok? && row.status in Plan(op, row, now).value.from
    ensures Run(more) == State(map[0 := Apply(row, Plan(op, row, now).value.patch)], map[])
  {
    more := acts + [Act(0, op, now)];
    RunSnoc(acts, Act(0, op, now));
    assert map[0 := row][0 := Apply(row, Plan(op, row, now).value.patch)] ==
      map[0 := Apply(row, Plan(op, row, now).value.patch)];
  }

  // A guest pays and arrives on time.
  lemma Arrived(n: NewBooking) returns (acts: seq<Operation>, row: Row)
    requires InRange(n)
    ensures Run(acts) == State(map[0 := row], map[])
    ensures row == FreshRow(n, n.checkInAt).(status := CheckedIn, payment := Paid, checkedInAt := Some(n.checkInAt))
  {
    row := FreshRow(n, n.checkInAt);
    RunSnoc([], Insert(0, n, n.checkInAt));
    acts := [] + [Insert(0, n, n.checkInAt)];
    assert Run(acts) == State(map[0 := row], map[]);
    acts := ThenAct(acts, row, Capture(n.guestId, 1), n.checkInAt);
    row := Apply(row, ConfirmPatch(1));
    acts := ThenAct(acts, row, CheckIn(n.guestId, 1), n.checkInAt);
    row := Apply(row, CheckInPatch(n.checkInAt));
  }

  // The guest leaves and the admin then refunds the whole total.
  lemma FullyRefunded(n: NewBooking) returns (acts: seq<Operation>, row: Row)
    requires InRange(n)
    ensures Run(acts) == State(map[0 := row], map[])
    ensures row.status == Completed && row.guestId == n.guestId && row.checkedOutAt == Some(n.checkInAt)
    ensures row.total == FreshRow(n, n.checkInAt).total && row.refund == Some(row.total) && row.total > 0
  {
    PriceShape(n.kind, n.rate, n.hours, n.commissionPct);
    acts, row := Arrived(n);
    acts := ThenAct(acts, row, CheckOut(n.guestId), n.checkInAt);
    row := Apply(row, CheckOutPatch(n.checkInAt));
    acts := ThenAct(acts, row, RefundByAdmin(row.total), n.checkInAt);
    row := Apply(row, RefundPatch(row.total));
  }

  /** The bound is tight for every price: some run gives back exactly twice the total. */
  lemma {:induction false} TwiceTheTotal(n: NewBooking) returns (acts: seq<Operation>)
    requires InRange(n)
    ensures var s := Run(acts);
            0 in s.rows && s.rows[0].total == FreshRow(n, n.checkInAt).total > 0 &&
              RefundedSoFar(s.rows[0]) == 2 * s.rows[0].total
  {
    var row: Row;
    acts, row := FullyRefunded(n);
    var now := n.checkInAt;
    RunSnoc(acts, File(0, 0, n.guestId, now, now));
    acts := acts + [File(0, 0, n.guestId, now, now)];
    var resolve := Resolve(0, ResolveRequest(FullRefund, None, None), now);
    BookkeepingAdds(map[0 := row], 0, row.total, now);
    RunSnoc(acts, resolve);
    acts := acts + [resolve];
  }
}
