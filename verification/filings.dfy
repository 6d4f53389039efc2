/** One dispute per booking, under arbitrary interleaving: exactly when the table has a unique key. */
module Filings {
  import opened Common
  import opened Booking
  import opened Lifecycle
  import opened DisputeRules
  import opened Disputes

  ghost predicate OnePerBooking(disputes: map<nat, Dispute>) {
    forall j, k :: j in disputes && k in disputes && disputes[j].bookingId == disputes[k].bookingId ==> j == k
  }

  // A task inserts at most one dispute and never moves one to another booking.
  lemma PerformKeepsBookings(unique: bool, w: World, t: Task, newId: nat, v: World)
    requires v == Perform(unique, w, t, newId)
    ensures forall id :: id in w.disputes ==> id in v.disputes && v.disputes[id].bookingId == w.disputes[id].bookingId
    ensures v.disputes.Keys != w.disputes.Keys ==>
      && t.CreateTask? && v.disputes == w.disputes[newId := t.dispute]
      && (unique ==> !HasDispute(w.disputes, t.dispute.bookingId))
  {
  }

  lemma OneKept(before: map<nat, Dispute>, after: map<nat, Dispute>)
    requires OnePerBooking(before) && after.Keys == before.Keys
    requires forall id :: id in before ==> id in after && after[id].bookingId == before[id].bookingId
    ensures OnePerBooking(after)
  {
  }

  lemma UniqueDo(w: World, t: Task, newId: nat, v: World)
    requires OnePerBooking(w.disputes) && v == Perform(true, w, t, newId)
    ensures OnePerBooking(v.disputes)
  {
    PerformKeepsBookings(true, w, t, newId, v);
    if v.disputes.Keys == w.disputes.Keys {
      OneKept(w.disputes, v.disputes);
    }
  }

  lemma {:induction false} UniqueHolds(steps: seq<Step>)
    ensures OnePerBooking(History(true, steps).disputes)
  {
    if steps != [] {
      var w, s := History(true, steps[..|steps| - 1]), steps[|steps| - 1];
      UniqueHolds(steps[..|steps| - 1]);
      if s.Do? && s.index < |w.tasks| {
        UniqueDo(w.(tasks := RemoveAt(w.tasks, s.index)), w.tasks[s.index], s.newId, History(true, steps));
      }
    }
  }

  // ---- without it: a run from the empty database to two disputes on one booking ----

  function Only(db: Db): World { START.(db := db) }

  lemma HistorySnoc(unique: bool, steps: seq<Step>, s: Step)
    ensures History(unique, steps + [s]) == Advance(unique, History(unique, steps), s)
  {
    assert (steps + [s])[..|steps|] == steps;
  }

  lemma ThenBook(unique: bool, steps: seq<Step>, db: Db, a: Action) returns (more: seq<Step>)
    requires History(unique, steps) == Only(db) && !OwnedElsewhere(a) && BookingRefunds(db, a) == []
    ensures History(unique, more) == Only(Next(NO_GUARD, db, a))
  {
    more := steps + [Book(a)];
    HistorySnoc(unique, steps, Book(a));
  }

  // One booking operation, read and committed at once.
  lemma ThenOperate(unique: bool, steps: seq<Step>, db: Db, row: Row, q: Lifecycle.Request)
    returns (more: seq<Step>, after: Db)
    requires History(unique, steps) == Only(db) && Looks(db, 0, row, []) && q.id == 0 == q.at && q.seen == row
    requires q.op.Capture? || q.op.CheckIn? || q.op.CheckOut?
    requires Plan(q.op, row, 0) == Ok(q.commit) && row.status in q.commit.from
    ensures History(unique, more) == Only(after) && Looks(after, 0, Apply(row, q.commit.patch), [])
  {
    var mid := Next(NO_GUARD, db, Begin(0, q.op, 0));
    BeginLooks(NO_GUARD, db, row, [], q);
    assert [] + [q] == [q] && RemoveAt([q], 0) == [];
    FinishLooks(NO_GUARD, mid, 0, row, [q], 0);
    more := ThenBook(unique, steps, db, Begin(0, q.op, 0));
    more := ThenBook(unique, more, mid, Finish(0));
    after := Next(NO_GUARD, mid, Finish(0));
  }

  lemma Created(unique: bool) returns (steps: seq<Step>, db: Db)
    ensures History(unique, steps) == Only(db) && Looks(db, 0, UNPAID_ROW, [])
  {
    AddLooks(NO_GUARD);
    steps := ThenBook(unique, [], INITIAL, AddRoomType(0, 1));
    steps := ThenBook(unique, steps, INITIAL.(roomCounts := map[0 := 1]), Create(0, SAMPLE, 1));
    db := Next(NO_GUARD, INITIAL.(roomCounts := map[0 := 1]), Create(0, SAMPLE, 1));
  }

  // The guest pays, arrives and leaves.
  lemma Stayed(unique: bool) returns (steps: seq<Step>, db: Db)
    ensures History(unique, steps) == Only(db) && Looks(db, 0, LEFT_ROW, [])
  {
    steps, db := Created(unique);
    steps, db := ThenOperate(unique, steps, db, UNPAID_ROW, CAPTURE_REQUEST);
    steps, db := ThenOperate(unique, steps, db, PAID_ROW, ARRIVE_REQUEST);
    steps, db := ThenOperate(unique, steps, db, ARRIVED_ROW, LEAVE_REQUEST);
  }

  const FILED := Dispute(0, 7, Filed, None, None, None, RESOLUTION_WINDOW, None)

  lemma ThenLook(unique: bool, steps: seq<Step>, w: World) returns (more: seq<Step>)
    requires History(unique, steps) == w && w.disputes == map[] && w.db.clock == 0 && w.db.rows == map[0 := LEFT_ROW]
    ensures History(unique, more) == w.(tasks := w.tasks + [CreateTask(FILED)])
  {
    more := steps + [FileRead(0, 7, 0, 0)];
    HistorySnoc(unique, steps, FileRead(0, 7, 0, 0));
    assert FileDispute(LEFT_ROW, 0, 7, 0, 0) == Ok(FILED);
  }

  lemma ThenInsert(unique: bool, steps: seq<Step>, w: World, k: nat) returns (more: seq<Step>)
    requires History(unique, steps) == w && w.tasks != [] && w.tasks[0] == CreateTask(FILED) && k !in w.disputes
    requires unique ==> w.disputes == map[]
    ensures History(unique, more) == w.(tasks := w.tasks[1..], disputes := w.disputes[k := FILED])
  {
    more := steps + [Do(0, k)];
    HistorySnoc(unique, steps, Do(0, k));
    assert RemoveAt(w.tasks, 0) == w.tasks[1..];
  }

  /** From the empty database: a guest stays, two filings both look before either inserts,
      and the booking ends with two disputes. */
  lemma TwoDisputes(unique: bool) returns (steps: seq<Step>)
    requires !unique
    ensures History(unique, steps).disputes == map[0 := FILED, 1 := FILED]
  {
    var db: Db;
    var c := CreateTask(FILED);
    steps, db := Stayed(unique);
    steps := ThenLook(unique, steps, Only(db));
    assert [] + [c] == [c] && [c] + [c] == [c, c] && [c, c][1..] == [c] && [c][1..] == [];
    steps := ThenLook(unique, steps, Only(db).(tasks := [c]));
    steps := ThenInsert(unique, steps, Only(db).(tasks := [c, c]), 0);
    steps := ThenInsert(unique, steps, Only(db).(tasks := [c], disputes := map[0 := FILED]), 1);
  }

  /** No booking ever has two disputes, in any history, if and only if the insert is guarded by
      a unique key on the booking. The code only looks for an earlier dispute first. */
  lemma {:induction false} UniqueExact(unique: bool)
    ensures (forall steps: seq<Step> {:trigger History(unique, steps)} ::
      OnePerBooking(History(unique, steps).disputes))
            <==> unique
  {
    if unique {
      forall steps: seq<Step> {:trigger History(unique, steps)} ensures OnePerBooking(History(unique, steps).disputes) {
        UniqueHolds(steps);
      }
    } else {
      var steps := TwoDisputes(unique);
      var two := History(unique, steps).disputes;
      assert two[0].bookingId == two[1].bookingId;
    }
  }
}
