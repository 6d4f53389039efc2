/** What the overbooking rule reports, measured against what rooms can be handed out. */
module OverbookingAlarm {
  import opened Common
  import opened Booking
  import Lifecycle
  import opened Allocator
  import opened Anomalies

  // With k rooms, no legal seating ever trips the rule.
  ghost predicate NeverFalse(k: nat) {
    forall rows: Table, rt: nat, f: Assignment, a: nat, b: nat {:trigger Seats(rows, rt, k, f), Pair(rows, a, b)} ::
      Seats(rows, rt, k, f) && Pair(rows, a, b) ==> rows[a].roomTypeId != rt
  }

  /** The rule compares bookings pairwise and never looks at the room count: it reports only
      real double bookings if and only if the room type has at most one room. */
  lemma AlarmExact(k: nat)
    ensures NeverFalse(k) <==> k <= 1
  {
    if k <= 1 {
      forall rows: Table, rt: nat, f: Assignment, a: nat, b: nat {:trigger Seats(rows, rt, k, f), Pair(rows, a, b)}
        | Seats(rows, rt, k, f) && Pair(rows, a, b)
        ensures rows[a].roomTypeId != rt
      {
        if rows[a].roomTypeId == rt {
          assert Occupies(rows, rt, a) && Occupies(rows, rt, b);
        }
      }
    } else {
      var b := Lifecycle.PAID_ROW;
      var rows: Table, f: Assignment := map[0 := b, 1 := b], map[0 := 0, 1 := 1];
      assert Seats(rows, 0, k, f) && Pair(rows, 0, 1);
    }
  }

  /** No overlap is missed: of any two bookings holding the same room type at the same
      instant, one is reported. */
  lemma AlarmComplete(s: Snapshot, rt: nat, t: int, now: int)
    requires exists a, b :: a in Overlapping(s.rows, rt, t, t + 1) && b in Overlapping(s.rows, rt, t, t + 1) && a != b
                            && Holds(s.rows[a]) && Holds(s.rows[b])
    ensures exists e :: e in Overlapping(s.rows, rt, t, t + 1) && Hit(Overbooking, s, now, e)
  {
    var a, b :| a in Overlapping(s.rows, rt, t, t + 1) && b in Overlapping(s.rows, rt, t, t + 1) && a != b
                && Holds(s.rows[a]) && Holds(s.rows[b]);
    var low, high := if a < b then a else b, if a < b then b else a;
    assert Pair(s.rows, low, high);
    assert Hit(Overbooking, s, now, low);
  }
}
