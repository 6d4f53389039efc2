/**
 Room allocation. Admission only counts overlapping active bookings against the
 room count. Here: concrete rooms can always be handed out without ever moving a
 guest, and the counting rule is exactly the rule "some room is free whatever the
 desk has done so far".
 */
module Allocator {
  import opened Common
  import opened Money
  import opened Booking
  import opened Lifecycle

  // Booking id -> room number within its room type.
  type Assignment = map<nat, nat>

  ghost predicate Occupies(rows: Table, rt: nat, id: nat) {
    id in rows && rows[id].roomTypeId == rt && Active(rows[id])
  }

  ghost predicate Apart(a: Row, b: Row) { !Overlaps(a, b.checkInAt, b.checkOutAt) }

  // f gives every active booking of the room type one of k rooms, stays sharing a room disjoint.
  ghost predicate Seats(rows: Table, rt: nat, k: nat, f: Assignment) {
    && (forall id :: Occupies(rows, rt, id) ==> id in f && f[id] < k)
    && (forall x, y :: Occupies(rows, rt, x) && Occupies(rows, rt, y) && x != y && f[x] == f[y] ==>
      Apart(rows[x], rows[y]))
  }

  ghost predicate FreeRoom(rows: Table, rt: nat, f: Assignment, room: nat, from: int, to: int) {
    forall id :: Occupies(rows, rt, id) && id in f && f[id] == room ==> !Overlaps(rows[id], from, to)
  }

  ghost predicate RealStays(rows: Table) {
    forall id :: id in rows ==> rows[id].checkInAt < rows[id].checkOutAt
  }

  // ---- counting against rooms ----

  lemma OverlappingSeated(rows: Table, rt: nat, k: nat, f: Assignment, from: int, to: int)
    requires Seats(rows, rt, k, f)
    ensures Overlapping(rows, rt, from, to) <= f.Keys
    ensures Image(Overlapping(rows, rt, from, to), f) <= Rooms(k)
  {
    forall id | id in Overlapping(rows, rt, from, to) ensures id in f && f[id] < k {
      assert Occupies(rows, rt, id);
    }
  }

  // Fewer overlapping bookings than rooms: some room is free throughout, under any seating.
  lemma RoomLeft(rows: Table, rt: nat, k: nat, f: Assignment, from: int, to: int)
    requires Seats(rows, rt, k, f) && |Overlapping(rows, rt, from, to)| < k
    ensures exists room: nat :: room < k && FreeRoom(rows, rt, f, room, from, to)
  {
    var busy := Overlapping(rows, rt, from, to);
    OverlappingSeated(rows, rt, k, f, from, to);
    ImageSize(busy, f);
    if Rooms(k) <= Image(busy, f) {
      SubsetSize(Rooms(k), Image(busy, f));
      assert false;
    }
    var room: nat :| room in Rooms(k) && room !in Image(busy, f);
    forall id | Occupies(rows, rt, id) && id in f && f[id] == room ensures !Overlaps(rows[id], from, to) {
      assert id in busy <==> Overlaps(rows[id], from, to);
    }
    assert FreeRoom(rows, rt, f, room, from, to);
  }

  /** At no instant do more active bookings of a room type hold a room than it has rooms. */
  lemma InstantBound(rows: Table, rt: nat, k: nat, f: Assignment, t: int)
    requires Seats(rows, rt, k, f)
    ensures |Overlapping(rows, rt, t, t + 1)| <= k
  {
    var here := Overlapping(rows, rt, t, t + 1);
    OverlappingSeated(rows, rt, k, f, t, t + 1);
    forall x, y | x in here && y in here && x != y ensures f[x] != f[y] {
      assert Occupies(rows, rt, x) && Occupies(rows, rt, y);
    }
    ImageSize(here, f);
    SubsetSize(Image(here, f), Rooms(k));
  }

  // ---- the counting rule is exact ----

  // Swap the two rooms from instant `cut` on.
  ghost function SwapTails(rows: Table, rt: nat, f: Assignment, r: nat, s: nat, cut: int): Assignment {
    map id | id in f ::
      if Occupies(rows, rt, id) && rows[id].checkInAt >= cut && f[id] == r then s
      else if Occupies(rows, rt, id) && rows[id].checkInAt >= cut && f[id] == s then r
      else f[id]
  }

  // Room r holds x then y, both inside the requested time; room s is free for it.
  // After the swap at the end of x, r still holds x and s holds y.
  lemma SwapBlocks(rows: Table, rt: nat, k: nat, f: Assignment, x: nat, y: nat, s: nat, from: int, to: int)
    requires Seats(rows, rt, k, f) && RealStays(rows) && s < k
    requires Occupies(rows, rt, x) && Occupies(rows, rt, y) && x != y && f[x] == f[y]
    requires Overlaps(rows[x], from, to) && Overlaps(rows[y], from, to)
    requires rows[x].checkOutAt <= rows[y].checkInAt
    requires FreeRoom(rows, rt, f, s, from, to)
    ensures var g := SwapTails(rows, rt, f, f[x], s, rows[x].checkOutAt);
            && Seats(rows, rt, k, g) && g.Keys == f.Keys && g[x] == f[x] && g[y] == s
            && (forall id :: id in f && f[id] != f[x] && f[id] != s ==> g[id] == f[id])
  {
    var cut, r := rows[x].checkOutAt, f[x];
    var g := SwapTails(rows, rt, f, r, s, cut);
    forall a, b | Occupies(rows, rt, a) && Occupies(rows, rt, b) && a != b && g[a] == g[b]
      ensures Apart(rows[a], rows[b])
    {
      if f[a] != f[b] {
        // One of the two moved into the other's room: the mover starts at or
        // after the cut, the other one ended by then.
        var mover, other := if rows[a].checkInAt >= cut then a else b, if rows[a].checkInAt >= cut then b else a;
        assert rows[mover].checkInAt >= cut > rows[other].checkInAt;
        assert rows[other].checkOutAt <= cut by {
          if f[other] == r && other != x {
            assert Apart(rows[other], rows[x]);
          }
        }
      }
    }
  }

  lemma StrictlyMore(a: set<nat>, b: set<nat>, s: nat)
    requires a <= b && s in b && s !in a
    ensures |a| < |b|
  {
    SubsetSize(a + {s}, b);
  }

  lemma StillBlocked(busy: set<nat>, f: Assignment, g: Assignment, x: nat, room: nat)
    requires busy <= f.Keys && busy <= g.Keys && x in busy && g[x] == f[x] && room in Image(busy, f)
    requires forall id :: id in busy && f[id] != f[x] ==> g[id] == f[id]
    ensures room in Image(busy, g)
  {
    var id := Preimage(busy, f, room);
    var kept := if room == f[x] then x else id;
    assert g[kept] == room;
  }

  lemma OneMoreInImage(busy: set<nat>, f: Assignment, g: Assignment, x: nat, y: nat, s: nat)
    requires busy <= f.Keys && busy <= g.Keys && x in busy && y in busy
    requires g[x] == f[x] && g[y] == s && s !in Image(busy, f)
    requires forall id :: id in busy && f[id] != f[x] ==> g[id] == f[id]
    ensures |Image(busy, f)| < |Image(busy, g)|
  {
    var before, after := Image(busy, f), Image(busy, g);
    forall room | room in before ensures room in after {
      StillBlocked(busy, f, g, x, room);
    }
    assert s in after;
    StrictlyMore(before, after, s);
  }

  // Fewer rooms blocked than overlapping bookings: two of them share a room, one before the other.
  lemma SharedRoom(rows: Table, rt: nat, k: nat, f: Assignment, busy: set<nat>) returns (x: nat, y: nat)
    requires Seats(rows, rt, k, f) && busy <= f.Keys && |Image(busy, f)| < |busy|
    requires forall id :: id in busy ==> Occupies(rows, rt, id)
    ensures x in busy && y in busy && x != y && f[x] == f[y]
    ensures Occupies(rows, rt, x) && Occupies(rows, rt, y) && rows[x].checkOutAt <= rows[y].checkInAt
  {
    ImageSize(busy, f);
    x, y :| x in busy && y in busy && x != y && f[x] == f[y];
    assert Apart(rows[x], rows[y]);
    if rows[x].checkOutAt > rows[y].checkInAt {
      x, y := y, x;
    }
  }

  lemma UnblockedRoom(rows: Table, rt: nat, f: Assignment, s: nat, from: int, to: int)
    requires Overlapping(rows, rt, from, to) <= f.Keys && s !in Image(Overlapping(rows, rt, from, to), f)
    ensures FreeRoom(rows, rt, f, s, from, to)
  {
    forall id | Occupies(rows, rt, id) && id in f && f[id] == s ensures !Overlaps(rows[id], from, to) {
      assert id in Overlapping(rows, rt, from, to) <==> Overlaps(rows[id], from, to);
    }
  }

  // While some room is unblocked, one swap blocks one more.
  lemma BlockOneMore(rows: Table, rt: nat, k: nat, f: Assignment, from: int, to: int, s: nat) returns (g: Assignment)
    requires Seats(rows, rt, k, f) && RealStays(rows) && s < k
    requires var busy := Overlapping(rows, rt, from, to);
             busy <= f.Keys && |Image(busy, f)| < |busy| && s !in Image(busy, f)
    ensures Seats(rows, rt, k, g) && g.Keys == f.Keys
    ensures |Image(Overlapping(rows, rt, from, to), f)| < |Image(Overlapping(rows, rt, from, to), g)|
  {
    var busy := Overlapping(rows, rt, from, to);
    var x, y := SharedRoom(rows, rt, k, f, busy);
    UnblockedRoom(rows, rt, f, s, from, to);
    SwapBlocks(rows, rt, k, f, x, y, s, from, to);
    g := SwapTails(rows, rt, f, f[x], s, rows[x].checkOutAt);
    OneMoreInImage(busy, f, g, x, y, s);
  }

  // With at least k overlapping bookings, some legal seating blocks every room.
  lemma {:induction false} BlockEveryRoom(rows: Table, rt: nat, k: nat, f: Assignment, from: int, to: int)
    requires Seats(rows, rt, k, f) && RealStays(rows) && |Overlapping(rows, rt, from, to)| >= k
    requires Overlapping(rows, rt, from, to) <= f.Keys && Image(Overlapping(rows, rt, from, to), f) <= Rooms(k)
    ensures exists g: Assignment :: Seats(rows, rt, k, g) && forall room: nat :: room < k ==>
      !FreeRoom(rows, rt, g, room, from, to)
    decreases k - |Image(Overlapping(rows, rt, from, to), f)|
  {
    var busy := Overlapping(rows, rt, from, to);
    if Image(busy, f) == Rooms(k) {
      forall room: nat | room < k ensures !FreeRoom(rows, rt, f, room, from, to) {
        assert room in Image(busy, f);
        var id := Preimage(busy, f, room);
        assert Occupies(rows, rt, id);
      }
    } else {
      SubsetSize(Image(busy, f), Rooms(k));
      var s: nat :| s in Rooms(k) && s !in Image(busy, f);
      var g := BlockOneMore(rows, rt, k, f, from, to, s);
      OverlappingSeated(rows, rt, k, g, from, to);
      SubsetSize(Image(busy, g), Rooms(k));
      BlockEveryRoom(rows, rt, k, g, from, to);
    }
  }

  /** The counting rule admits a stay exactly when every legal seating of the
      current guests leaves some room free for the whole stay. */
  lemma {:induction false} CountingIsExact(rows: Table, rt: nat, k: nat, from: int, to: int)
    requires RealStays(rows) && exists f: Assignment :: Seats(rows, rt, k, f)
    ensures |Overlapping(rows, rt, from, to)| < k
            <==> forall f: Assignment :: Seats(rows, rt, k, f) ==> exists room: nat ::
              room < k && FreeRoom(rows, rt, f, room, from, to)
  {
    if |Overlapping(rows, rt, from, to)| < k {
      forall f: Assignment | Seats(rows, rt, k, f)
        ensures exists room: nat :: room < k && FreeRoom(rows, rt, f, room, from, to)
      {
        RoomLeft(rows, rt, k, f, from, to);
      }
    } else {
      var f: Assignment :| Seats(rows, rt, k, f);
      OverlappingSeated(rows, rt, k, f, from, to);
      BlockEveryRoom(rows, rt, k, f, from, to);
    }
  }

  // ---- which tables can be seated at all ----

  // Who holds a room of the type at instant t.
  function At(rows: Table, rt: nat, t: int): set<nat> { Overlapping(rows, rt, t, t + 1) }

  // At no instant more bookings than rooms.
  ghost predicate WithinRooms(rows: Table, rt: nat, k: nat) { forall t: int :: |At(rows, rt, t)| <= k }

  lemma {:induction false} LatestArrival(rows: Table, ids: set<nat>) returns (last: nat)
    requires ids != {} && ids <= rows.Keys
    ensures last in ids && forall id :: id in ids ==> rows[id].checkInAt <= rows[last].checkInAt
    decreases |ids|
  {
    last :| last in ids;
    if ids != {last} {
      assert ids == (ids - {last}) + {last};
      var other := LatestArrival(rows, ids - {last});
      if rows[last].checkInAt < rows[other].checkInAt {
        last := other;
      }
    }
  }

  // Whoever overlaps the latest arrival is there when it arrives.
  lemma RoomForLatest(rows: Table, rt: nat, k: nat, last: nat)
    requires RealStays(rows) && WithinRooms(rows, rt, k) && Occupies(rows, rt, last)
    requires forall id :: Occupies(rows, rt, id) ==> rows[id].checkInAt <= rows[last].checkInAt
    ensures |Overlapping(rows - {last}, rt, rows[last].checkInAt, rows[last].checkOutAt)| < k
  {
    var b := rows[last];
    var there, busy := At(rows, rt, b.checkInAt), Overlapping(rows - {last}, rt, b.checkInAt, b.checkOutAt);
    forall id | id in busy ensures id in there - {last} {
      assert Occupies(rows, rt, id);
    }
    assert last in there;
    SubsetSize(busy, there - {last});
  }

  lemma RemovalKeepsWithin(rows: Table, rt: nat, k: nat, id: nat)
    requires WithinRooms(rows, rt, k)
    ensures WithinRooms(rows - {id}, rt, k)
  {
    forall t: int ensures |At(rows - {id}, rt, t)| <= k {
      SubsetSize(At(rows - {id}, rt, t), At(rows, rt, t));
    }
  }

  // Seat everyone in order of arrival.
  lemma {:induction false} SeatAll(rows: Table, rt: nat, k: nat) returns (f: Assignment)
    requires RealStays(rows) && WithinRooms(rows, rt, k)
    ensures Seats(rows, rt, k, f)
    decreases |rows|
  {
    var ids := set id | id in rows && Occupies(rows, rt, id);
    assert forall id :: Occupies(rows, rt, id) ==> id in ids;
    if ids == {} {
      f := map[];
    } else {
      var last := LatestArrival(rows, ids);
      var rest := rows - {last};
      forall id | Occupies(rows, rt, id) ensures rows[id].checkInAt <= rows[last].checkInAt {
        assert id in ids;
      }
      RemovalKeepsWithin(rows, rt, k, last);
      RoomForLatest(rows, rt, k, last);
      var g := SeatAll(rest, rt, k);
      RoomLeft(rest, rt, k, g, rows[last].checkInAt, rows[last].checkOutAt);
      var room: nat :| room < k && FreeRoom(rest, rt, g, room, rows[last].checkInAt, rows[last].checkOutAt);
      f := g[last := room];
      InsertKeepsSeats(rest, last, rows[last], rt, k, g, room);
      assert rest[last := rows[last]] == rows;
    }
  }

  /** Concrete rooms can be handed out if and only if no instant has more bookings than rooms. */
  lemma {:induction false} SeatableExact(rows: Table, rt: nat, k: nat)
    requires RealStays(rows)
    ensures (exists f: Assignment :: Seats(rows, rt, k, f)) <==> WithinRooms(rows, rt, k)
  {
    if WithinRooms(rows, rt, k) {
      var f := SeatAll(rows, rt, k);
    } else if exists f: Assignment :: Seats(rows, rt, k, f) {
      var f: Assignment :| Seats(rows, rt, k, f);
      forall t: int ensures |At(rows, rt, t)| <= k {
        InstantBound(rows, rt, k, f, t);
      }
    }
  }

  // ---- extensions, exactly ----

  // Someone else may always stay in the house during the added time, as long as one room is left.
  ghost predicate AddedTimeFree(rows: Table, id: nat, k: nat, newOut: int)
    requires id in rows
  {
    forall t: int ::
      rows[id].checkOutAt <= t < newOut ==> |At(rows, rows[id].roomTypeId, t) - {id}| < k
  }

  ghost predicate Lengthens(b: Row, c: Row) {
    && c.roomTypeId == b.roomTypeId && c.checkInAt == b.checkInAt && b.checkInAt < b.checkOutAt < c.checkOutAt
    && Active(b) && Active(c)
  }

  // The instants of the added time gain exactly the lengthened stay; all others stay as they were.
  lemma LengthenedInstant(rows: Table, id: nat, c: Row, t: int)
    requires id in rows && Lengthens(rows[id], c)
    ensures var rt := c.roomTypeId;
            At(rows[id := c], rt, t)
            == if rows[id].checkOutAt <= t < c.checkOutAt then At(rows, rt, t) - {id} + {id}
               else At(rows, rt, t)
  {
  }

  /** Lengthening a stay keeps every instant within the room count if and only if at every
      instant of the added time the other guests leave a room. */
  lemma {:induction false} ExtendExact(rows: Table, id: nat, c: Row, k: nat)
    requires id in rows && Lengthens(rows[id], c) && WithinRooms(rows, c.roomTypeId, k)
    ensures WithinRooms(rows[id := c], c.roomTypeId, k) <==> AddedTimeFree(rows, id, k, c.checkOutAt)
  {
    var rt := c.roomTypeId;
    var rows' := rows[id := c];
    if AddedTimeFree(rows, id, k, c.checkOutAt) {
      forall t: int ensures |At(rows', rt, t)| <= k {
        LengthenedInstant(rows, id, c, t);
      }
    }
    if WithinRooms(rows[id := c], rt, k) {
      forall t: int | rows[id].checkOutAt <= t < c.checkOutAt ensures |At(rows, rt, t) - {id}| < k {
        LengthenedInstant(rows, id, c, t);
        var others := At(rows, rt, t) - {id};
        assert |others + {id}| == |others| + 1;
        assert |At(rows[id := c], rt, t)| <= k;
      }
    }
  }

  /** A seating survives a lengthened stay, with nobody moved, if and only if the guest's own
      room is free for the added time. */
  lemma {:induction false} ExtendKeepsSeatsExact(rows: Table, id: nat, c: Row, k: nat, f: Assignment)
    requires id in rows && Lengthens(rows[id], c) && RealStays(rows) && Seats(rows, c.roomTypeId, k, f)
    ensures id in f
    ensures Seats(rows[id := c], c.roomTypeId, k, f)
            <==> FreeRoom(rows, c.roomTypeId, f, f[id], rows[id].checkOutAt, c.checkOutAt)
  {
    var rt, rows' := c.roomTypeId, rows[id := c];
    assert Occupies(rows, rt, id) && Occupies(rows', rt, id);
    forall x: nat ensures Occupies(rows', rt, x) <==> Occupies(rows, rt, x) {
    }
    if FreeRoom(rows, rt, f, f[id], rows[id].checkOutAt, c.checkOutAt) {
      forall x: nat, y: nat | Occupies(rows', rt, x) && Occupies(rows', rt, y) && x != y && f[x] == f[y]
        ensures Apart(rows'[x], rows'[y])
      {
        assert Apart(rows[x], rows[y]);
      }
    }
    if Seats(rows', rt, k, f) {
      forall x: nat | Occupies(rows, rt, x) && x in f && f[x] == f[id]
        ensures !Overlaps(rows[x], rows[id].checkOutAt, c.checkOutAt) {
        if x != id {
          assert Apart(rows'[x], rows'[id]) && Apart(rows[x], rows[id]);
        }
      }
    }
  }

  // ---- reachable states ----

  // One assignment for the whole house.
  ghost predicate Housed(s: Db, f: Assignment) {
    && f.Keys == s.rows.Keys
    && (forall id :: id in s.rows ==> s.rows[id].roomTypeId in s.roomCounts)
    && (forall rt :: rt in s.roomCounts ==> Seats(s.rows, rt, s.roomCounts[rt], f))
  }

  ghost predicate Extends(f: Assignment, g: Assignment) {
    forall id :: id in f ==> id in g && g[id] == f[id]
  }

  // The stay an extension commits, when one commits.
  ghost predicate CommitsExtension(s: Db, a: Action) {
    a.Finish? && Wins(s, a.index) && s.inFlight[a.index].commit.patch.ExtendPatch?
  }

  // `extend` as one step: its overlap check would still succeed when it commits.
  ghost predicate FreshExtend(s: Db, a: Action) {
    CommitsExtension(s, a) ==>
      var q := s.inFlight[a.index];
      !HasOverlap(s.rows, s.rows[q.id].roomTypeId, s.rows[q.id].checkOutAt, q.commit.patch.checkOutAt, q.id)
  }

  ghost predicate FreshExtends(guard: set<BookingStatus>, s: Db, acts: seq<Action>) {
    acts != [] ==>
      && FreshExtends(guard, s, acts[..|acts| - 1])
      && FreshExtend(Run(guard, s, acts[..|acts| - 1]), acts[|acts| - 1])
  }

  // Same stay, same room type, and only an active row can be active.
  ghost predicate SameStay(b: Row, c: Row) {
    && c.roomTypeId == b.roomTypeId && c.checkInAt == b.checkInAt && c.checkOutAt == b.checkOutAt
    && (Active(c) ==> Active(b))
  }

  lemma ReplaceKeepsSeats(rows: Table, id: nat, c: Row, rt: nat, k: nat, f: Assignment)
    requires Seats(rows, rt, k, f) && id in rows && SameStay(rows[id], c)
    ensures Seats(rows[id := c], rt, k, f)
  {
    forall x | Occupies(rows[id := c], rt, x) ensures Occupies(rows, rt, x) {
    }
  }

  lemma ExtendKeepsSeats(rows: Table, id: nat, c: Row, rt: nat, k: nat, f: Assignment)
    requires Seats(rows, rt, k, f) && RealStays(rows) && id in rows && Active(rows[id])
    requires c.roomTypeId == rows[id].roomTypeId && c.checkInAt == rows[id].checkInAt &&
      rows[id].checkOutAt < c.checkOutAt
    requires !HasOverlap(rows, c.roomTypeId, rows[id].checkOutAt, c.checkOutAt, id)
    ensures Seats(rows[id := c], rt, k, f)
  {
    var rows' := rows[id := c];
    forall x | Occupies(rows', rt, x) ensures Occupies(rows, rt, x) {
    }
    if c.roomTypeId == rt {
      forall x | Occupies(rows, rt, x) && x != id ensures !Overlaps(rows[x], rows[id].checkOutAt, c.checkOutAt) {
        var others := Overlapping(rows, rt, rows[id].checkOutAt, c.checkOutAt) - {id};
        assert others == {};
        assert x in others <==> Overlaps(rows[x], rows[id].checkOutAt, c.checkOutAt);
      }
    }
    forall x, y | Occupies(rows', rt, x) && Occupies(rows', rt, y) && x != y && f[x] == f[y]
      ensures Apart(rows'[x], rows'[y])
    {
      assert Apart(rows[x], rows[y]);
    }
  }

  lemma InsertKeepsSeats(rows: Table, id: nat, c: Row, rt: nat, k: nat, f: Assignment, room: nat)
    requires Seats(rows, rt, k, f) && id !in rows
    requires c.roomTypeId == rt ==> room < k && FreeRoom(rows, rt, f, room, c.checkInAt, c.checkOutAt)
    ensures Seats(rows[id := c], rt, k, f[id := room])
  {
    var rows', g := rows[id := c], f[id := room];
    forall x | Occupies(rows', rt, x) && x != id ensures Occupies(rows, rt, x) && g[x] == f[x] {
    }
    forall x, y | Occupies(rows', rt, x) && Occupies(rows', rt, y) && x != y && g[x] == g[y]
      ensures Apart(rows'[x], rows'[y])
    {
      if x == id {
        assert !Overlaps(rows[y], c.checkInAt, c.checkOutAt);
      } else if y == id {
        assert !Overlaps(rows[x], c.checkInAt, c.checkOutAt);
      }
    }
  }

  lemma InsertKeepsHousing(s: Db, t: Db, id: nat, row: Row, f: Assignment, room: nat)
    requires Housed(s, f) && id !in s.rows && row.roomTypeId in s.roomCounts
    requires t.rows == s.rows[id := row] && t.roomCounts == s.roomCounts
    requires room < s.roomCounts[row.roomTypeId] &&
      FreeRoom(s.rows, row.roomTypeId, f, room, row.checkInAt, row.checkOutAt)
    ensures Housed(t, f[id := room])
  {
    forall rt | rt in s.roomCounts ensures Seats(t.rows, rt, s.roomCounts[rt], f[id := room]) {
      InsertKeepsSeats(s.rows, id, row, rt, s.roomCounts[rt], f, room);
    }
  }

  lemma CreateKeepsHousing(guard: set<BookingStatus>, s: Db, a: Action, f: Assignment) returns (g: Assignment)
    requires Housed(s, f) && a.Create? && Creatable(s, a)
    ensures Housed(Next(guard, s, a), g) && Extends(f, g)
  {
    var row, rt := FreshRow(a.data, s.clock), a.data.roomTypeId;
    RoomLeft(s.rows, rt, s.roomCounts[rt], f, row.checkInAt, row.checkOutAt);
    var room: nat :| room < s.roomCounts[rt] && FreeRoom(s.rows, rt, f, room, row.checkInAt, row.checkOutAt);
    g := f[a.newId := room];
    InsertKeepsHousing(s, Next(guard, s, a), a.newId, row, f, room);
  }

  lemma StayUnchanged(b: Row, q: Request, clock: int)
    requires RowOk(b, clock) && RowOk(q.seen, clock) && Evolved(q.seen, b)
    requires OpInRange(q.op) && Plan(q.op, q.seen, q.at) == Ok(q.commit)
    requires !IsSweep(q.op) && q.seen.checkedInAt.Some? ==> q.seen.checkedInAt.value <= q.at
    requires q.at <= clock && b.status in q.commit.from && !q.op.Extend?
    ensures SameStay(b, Apply(b, q.commit.patch))
  {
    CommitStep(b, q, clock);
    assert !q.commit.patch.ExtendPatch?;
  }

  lemma ReplaceKeepsHousing(s: Db, t: Db, id: nat, c: Row, f: Assignment)
    requires Housed(s, f) && id in s.rows && SameStay(s.rows[id], c)
    requires t.rows == s.rows[id := c] && t.roomCounts == s.roomCounts
    ensures Housed(t, f)
  {
    forall rt | rt in t.roomCounts ensures Seats(t.rows, rt, t.roomCounts[rt], f) {
      ReplaceKeepsSeats(s.rows, id, c, rt, s.roomCounts[rt], f);
    }
  }

  lemma QuietKeepsHousing(s: Db, t: Db, f: Assignment)
    requires Housed(s, f) && t.rows == s.rows
    requires forall rt :: rt in s.roomCounts ==> rt in t.roomCounts && s.roomCounts[rt] <= t.roomCounts[rt]
    ensures Housed(t, f)
  {
    forall rt | rt in t.roomCounts ensures Seats(t.rows, rt, t.roomCounts[rt], f) {
      if rt in s.roomCounts {
        assert Seats(s.rows, rt, s.roomCounts[rt], f);
      }
    }
  }

  lemma RefundKeepsHousing(guard: set<BookingStatus>, s: Db, id: nat, extra: nat, f: Assignment)
    requires Housed(s, f) && id in s.rows && id in s.trail
    ensures Housed(Next(guard, s, RefundWrite(id, extra)), f)
  {
    var t := Next(guard, s, RefundWrite(id, extra));
    assert t.rows == s.rows[id := AddRefund(s.rows[id], extra)] && t.roomCounts == s.roomCounts;
    ReplaceKeepsHousing(s, t, id, AddRefund(s.rows[id], extra), f);
  }

  lemma OtherKeepsHousing(guard: set<BookingStatus>, s: Db, a: Action, f: Assignment)
    requires Housed(s, f) && !a.Create? && !a.Finish?
    ensures Housed(Next(guard, s, a), f)
  {
    if a.RefundWrite? && a.bookingId in s.rows && a.bookingId in s.trail {
      RefundKeepsHousing(guard, s, a.bookingId, a.extra, f);
    } else {
      QuietKeepsHousing(s, Next(guard, s, a), f);
    }
  }

  // An extension whose check still succeeds finds every room free of others.
  lemma FreshMeansFree(s: Db, a: Action, f: Assignment)
    requires Housed(s, f) && FreshExtend(s, a)
    ensures OwnRoomFree(s, f, a)
  {
    if CommitsExtension(s, a) {
      var q := s.inFlight[a.index];
      OverlapExists(s.rows, s.rows[q.id].roomTypeId, s.rows[q.id].checkOutAt, q.commit.patch.checkOutAt, q.id);
    }
  }

  // The last element of fs houses the guests now, the ones before it did at each
  // earlier step, and nobody was moved.
  ghost predicate HousingHistory(guard: set<BookingStatus>, acts: seq<Action>, fs: seq<Assignment>)
    decreases |acts|
  {
    && |fs| == |acts| + 1
    && Housed(Run(guard, INITIAL, acts), fs[|acts|])
    && (acts != [] ==>
      && HousingHistory(guard, acts[..|acts| - 1], fs[..|acts|])
      && Extends(fs[|acts| - 1], fs[|acts|]))
  }

  /** In every run whose extensions check and commit as one step, concrete rooms can
      be handed out at every moment, and each guest keeps the room first given. */
  lemma {:induction false} RoomsAlwaysAssigned(guard: set<BookingStatus>, acts: seq<Action>)
    requires FreshExtends(guard, INITIAL, acts)
    ensures exists fs: seq<Assignment> :: HousingHistory(guard, acts, fs)
  {
    if acts == [] {
      assert HousingHistory(guard, acts, [map[]]);
    } else {
      var n := |acts| - 1;
      RoomsAlwaysAssigned(guard, acts[..n]);
      var fs: seq<Assignment> :| HousingHistory(guard, acts[..n], fs);
      RunKeepsInv(guard, acts[..n]);
      FreshMeansFree(Run(guard, INITIAL, acts[..n]), acts[n], fs[n]);
      HousedNext(guard, Run(guard, INITIAL, acts[..n]), acts[n], fs[n]);
      var g: Assignment :| Housed(Run(guard, INITIAL, acts), g) && Extends(fs[n], g);
      assert (fs + [g])[..n + 1] == fs;
      assert HousingHistory(guard, acts, fs + [g]);
    }
  }

  // Read off: step i is housed by fs[i], and the later assignments all contain it.
  lemma {:induction false} NobodyMoves(guard: set<BookingStatus>, acts: seq<Action>, fs: seq<Assignment>, i: nat)
    requires HousingHistory(guard, acts, fs) && i <= |acts|
    ensures Housed(Run(guard, INITIAL, acts[..i]), fs[i]) && Extends(fs[i], fs[|acts|])
    decreases |acts|
  {
    if i == |acts| {
      assert acts[..i] == acts;
    } else {
      var n := |acts| - 1;
      NobodyMoves(guard, acts[..n], fs[..n + 1], i);
      assert acts[..n][..i] == acts[..i];
    }
  }

  // ---- overbooking, exactly ----

  // At every instant of the time it adds, a committing extension finds a room left.
  ghost predicate ExtensionFits(s: Db, a: Action) {
    CommitsExtension(s, a) ==>
      var q := s.inFlight[a.index];
      var rt := s.rows[q.id].roomTypeId;
      rt in s.roomCounts ==> AddedTimeFree(s.rows, q.id, s.roomCounts[rt], q.commit.patch.checkOutAt)
  }

  ghost predicate ExtensionsFit(guard: set<BookingStatus>, acts: seq<Action>) {
    acts != [] ==>
      && ExtensionsFit(guard, acts[..|acts| - 1])
      && ExtensionFits(Run(guard, INITIAL, acts[..|acts| - 1]), acts[|acts| - 1])
  }

  ghost predicate HouseFits(s: Db) {
    forall rt :: rt in s.roomCounts ==> WithinRooms(s.rows, rt, s.roomCounts[rt])
  }

  ghost predicate NeverOver(guard: set<BookingStatus>, acts: seq<Action>) {
    HouseFits(Run(guard, INITIAL, acts)) && (acts != [] ==> NeverOver(guard, acts[..|acts| - 1]))
  }

  ghost predicate RoomTypesKnown(s: Db) { forall id :: id in s.rows ==> s.rows[id].roomTypeId in s.roomCounts }

  lemma AdmittedFits(rows: Table, id: nat, c: Row, rt: nat, k: nat)
    requires WithinRooms(rows, rt, k) && id !in rows
    requires c.roomTypeId == rt ==> |Overlapping(rows, rt, c.checkInAt, c.checkOutAt)| < k
    ensures WithinRooms(rows[id := c], rt, k)
  {
    var rows' := rows[id := c];
    forall t: int ensures |At(rows', rt, t)| <= k {
      if id in At(rows', rt, t) {
        SubsetSize(At(rows', rt, t) - {id}, Overlapping(rows, rt, c.checkInAt, c.checkOutAt));
      } else {
        SubsetSize(At(rows', rt, t), At(rows, rt, t));
      }
    }
  }

  // Replaced by a row that occupies no instant the old one did not.
  lemma ReplacedFits(rows: Table, id: nat, c: Row, rt: nat, k: nat)
    requires WithinRooms(rows, rt, k) && id in rows && c.roomTypeId == rows[id].roomTypeId
    requires Active(c) ==> Active(rows[id]) && c.checkInAt == rows[id].checkInAt && c.checkOutAt <= rows[id].checkOutAt
    ensures WithinRooms(rows[id := c], rt, k)
  {
    var rows' := rows[id := c];
    forall t: int ensures |At(rows', rt, t)| <= k {
      SubsetSize(At(rows', rt, t), At(rows, rt, t));
    }
  }

  lemma OtherTypeFits(rows: Table, id: nat, c: Row, rt: nat, k: nat)
    requires WithinRooms(rows, rt, k) && id in rows && rows[id].roomTypeId != rt && c.roomTypeId != rt
    ensures WithinRooms(rows[id := c], rt, k)
  {
    var rows' := rows[id := c];
    forall t: int ensures |At(rows', rt, t)| <= k {
      assert At(rows', rt, t) == At(rows, rt, t);
    }
  }

  // A committed extension, however stale the row it was planned from, keeps the rest of the stay.
  lemma ExtensionRow(guard: set<BookingStatus>, s: Db, k: nat)
    requires Inv(guard, s) && CommitsExtension(s, Finish(k))
    ensures var q := s.inFlight[k];
            var b, c := s.rows[q.id], Apply(s.rows[q.id], q.commit.patch);
            && c.roomTypeId == b.roomTypeId && c.checkInAt == b.checkInAt < b.checkOutAt && Active(b) && Active(c)
            && c.checkOutAt == q.commit.patch.checkOutAt
  {
    var q := s.inFlight[k];
    assert RequestOk(guard, s, q) && RowOk(s.rows[q.id], s.clock);
  }

  lemma ExtensionFitsExact(guard: set<BookingStatus>, s: Db, k: nat)
    requires Inv(guard, s) && RoomTypesKnown(s) && HouseFits(s) && CommitsExtension(s, Finish(k))
    ensures HouseFits(Next(guard, s, Finish(k))) <==> ExtensionFits(s, Finish(k))
  {
    var q, t := s.inFlight[k], Next(guard, s, Finish(k));
    var b, c := s.rows[q.id], Apply(s.rows[q.id], q.commit.patch);
    FinishRows(guard, s, k);
    ExtensionRow(guard, s, k);
    forall rt | rt in s.roomCounts && rt != b.roomTypeId ensures WithinRooms(t.rows, rt, s.roomCounts[rt]) {
      OtherTypeFits(s.rows, q.id, c, rt, s.roomCounts[rt]);
    }
    if b.checkOutAt < c.checkOutAt {
      ExtendExact(s.rows, q.id, c, s.roomCounts[b.roomTypeId]);
    } else {
      ReplacedFits(s.rows, q.id, c, b.roomTypeId, s.roomCounts[b.roomTypeId]);
    }
  }

  lemma WinnersStay(guard: set<BookingStatus>, s: Db, k: nat)
    requires Inv(guard, s) && Wins(s, k) && !CommitsExtension(s, Finish(k))
    ensures var q := s.inFlight[k]; SameStay(s.rows[q.id], Apply(s.rows[q.id], q.commit.patch))
  {
    var q := s.inFlight[k];
    assert RequestOk(guard, s, q) && RowOk(s.rows[q.id], s.clock);
    StayUnchanged(s.rows[q.id], q, s.clock);
  }

  lemma OtherCommitFits(guard: set<BookingStatus>, s: Db, k: nat)
    requires Inv(guard, s) && HouseFits(s) && Wins(s, k) && !CommitsExtension(s, Finish(k))
    ensures HouseFits(Next(guard, s, Finish(k)))
  {
    var q, t := s.inFlight[k], Next(guard, s, Finish(k));
    FinishRows(guard, s, k);
    WinnersStay(guard, s, k);
    forall rt | rt in s.roomCounts ensures WithinRooms(t.rows, rt, s.roomCounts[rt]) {
      ReplacedFits(s.rows, q.id, Apply(s.rows[q.id], q.commit.patch), rt, s.roomCounts[rt]);
    }
  }

  lemma CreateFits(guard: set<BookingStatus>, s: Db, a: Action)
    requires HouseFits(s) && a.Create? && Creatable(s, a)
    ensures HouseFits(Next(guard, s, a))
  {
    var row := FreshRow(a.data, s.clock);
    forall rt | rt in s.roomCounts ensures WithinRooms(s.rows[a.newId := row], rt, s.roomCounts[rt]) {
      AdmittedFits(s.rows, a.newId, row, rt, s.roomCounts[rt]);
    }
  }

  lemma QuietFits(guard: set<BookingStatus>, s: Db, a: Action)
    requires RoomTypesKnown(s) && HouseFits(s) && !a.Create? && !a.Finish?
    ensures HouseFits(Next(guard, s, a))
  {
    var t := Next(guard, s, a);
    forall rt | rt in t.roomCounts ensures WithinRooms(t.rows, rt, t.roomCounts[rt]) {
      if a.RefundWrite? && t != s {
        ReplacedFits(s.rows, a.bookingId, AddRefund(s.rows[a.bookingId], a.extra), rt, s.roomCounts[rt]);
      } else if rt in s.roomCounts {
        assert WithinRooms(s.rows, rt, s.roomCounts[rt]);
      } else {
        forall i: int ensures |At(t.rows, rt, i)| <= t.roomCounts[rt] {
          assert At(t.rows, rt, i) == {};
        }
      }
    }
  }

  lemma StepFits(guard: set<BookingStatus>, s: Db, a: Action)
    requires Inv(guard, s) && RoomTypesKnown(s) && HouseFits(s)
    ensures HouseFits(Next(guard, s, a)) <==> ExtensionFits(s, a)
  {
    if a.Create? {
      if Creatable(s, a) {
        CreateFits(guard, s, a);
      }
    } else if a.Finish? {
      FinishRows(guard, s, a.index);
      if CommitsExtension(s, a) {
        ExtensionFitsExact(guard, s, a.index);
      } else if Wins(s, a.index) {
        OtherCommitFits(guard, s, a.index);
      }
    } else {
      QuietFits(guard, s, a);
    }
  }

  lemma {:induction false} RunRoomTypes(guard: set<BookingStatus>, acts: seq<Action>)
    ensures RoomTypesKnown(Run(guard, INITIAL, acts))
  {
    if acts != [] {
      var before, a := acts[..|acts| - 1], acts[|acts| - 1];
      RunRoomTypes(guard, before);
      RunKeepsInv(guard, before);
      StepRoomTypes(guard, Run(guard, INITIAL, before), a);
    }
  }

  lemma StepRoomTypes(guard: set<BookingStatus>, s: Db, a: Action)
    requires Inv(guard, s) && RoomTypesKnown(s)
    ensures RoomTypesKnown(Next(guard, s, a))
  {
    var t := Next(guard, s, a);
    assert s.roomCounts.Keys <= t.roomCounts.Keys by {
      if a.Finish? {
        FinishRows(guard, s, a.index);
      }
    }
    forall id | id in t.rows ensures t.rows[id].roomTypeId in t.roomCounts {
      if id in s.rows {
        RowsEvolve(guard, s, a, id);
      } else if a.Finish? {
        FinishRows(guard, s, a.index);
      }
    }
  }

  /** No instant of any room type is overbooked at any moment of a run if and only if every
      extension that commits finds, at each instant it adds, a room left by the other guests. */
  lemma {:induction false} NeverOverbooked(guard: set<BookingStatus>, acts: seq<Action>)
    ensures NeverOver(guard, acts) <==> ExtensionsFit(guard, acts)
  {
    if acts == [] {
    } else {
      var before, a := acts[..|acts| - 1], acts[|acts| - 1];
      NeverOverbooked(guard, before);
      RunKeepsInv(guard, before);
      RunRoomTypes(guard, before);
      if HouseFits(Run(guard, INITIAL, before)) {
        StepFits(guard, Run(guard, INITIAL, before), a);
      }
    }
  }

  // ---- handing out rooms, exactly ----

  // A committing extension finds the guest's own room free for the time it adds.
  ghost predicate OwnRoomFree(s: Db, f: Assignment, a: Action)
    requires f.Keys == s.rows.Keys
  {
    CommitsExtension(s, a) ==>
      var q := s.inFlight[a.index];
      FreeRoom(s.rows, s.rows[q.id].roomTypeId, f, f[q.id], s.rows[q.id].checkOutAt, q.commit.patch.checkOutAt)
  }

  // With the same bookings there is only one way to go on without moving anyone.
  lemma OnlyOneWayOn(f: Assignment, t: Db)
    requires f.Keys == t.rows.Keys
    ensures (exists g: Assignment :: Housed(t, g) && Extends(f, g)) <==> Housed(t, f)
  {
    forall g: Assignment | Housed(t, g) && Extends(f, g) ensures g == f {
    }
    if Housed(t, f) {
      assert Extends(f, f);
    }
  }

  lemma OtherTypeSeats(rows: Table, id: nat, c: Row, rt: nat, k: nat, f: Assignment)
    requires Seats(rows, rt, k, f) && id in rows && rows[id].roomTypeId != rt && c.roomTypeId != rt
    ensures Seats(rows[id := c], rt, k, f)
  {
    forall x: nat ensures Occupies(rows[id := c], rt, x) <==> Occupies(rows, rt, x) {
    }
  }

  // A row replaced by one of the same room type: only that type's seating is in question.
  lemma HousedByType(s: Db, t: Db, id: nat, c: Row, f: Assignment)
    requires Housed(s, f) && id in s.rows && c.roomTypeId == s.rows[id].roomTypeId
    requires t.rows == s.rows[id := c] && t.roomCounts == s.roomCounts
    ensures Housed(t, f) <==> Seats(t.rows, c.roomTypeId, s.roomCounts[c.roomTypeId], f)
  {
    forall rt | rt in s.roomCounts && rt != c.roomTypeId ensures Seats(t.rows, rt, s.roomCounts[rt], f) {
      OtherTypeSeats(s.rows, id, c, rt, s.roomCounts[rt], f);
    }
  }

  // The seating survives a committed extension exactly when the guest's own room is free.
  lemma ExtensionHousedExact(guard: set<BookingStatus>, s: Db, k: nat, f: Assignment)
    requires Inv(guard, s) && Housed(s, f) && RealStays(s.rows) && CommitsExtension(s, Finish(k))
    ensures Housed(Next(guard, s, Finish(k)), f) <==> OwnRoomFree(s, f, Finish(k))
  {
    var q := s.inFlight[k];
    var b, c := s.rows[q.id], Apply(s.rows[q.id], q.commit.patch);
    FinishRows(guard, s, k);
    ExtensionRow(guard, s, k);
    HousedByType(s, Next(guard, s, Finish(k)), q.id, c, f);
    LengthSeats(s.rows, q.id, c, s.roomCounts[b.roomTypeId], f);
  }

  lemma LengthSeats(rows: Table, id: nat, c: Row, k: nat, f: Assignment)
    requires id in rows && RealStays(rows) && Seats(rows, c.roomTypeId, k, f) && Active(rows[id]) && Active(c)
    requires c.roomTypeId == rows[id].roomTypeId && c.checkInAt == rows[id].checkInAt
    ensures id in f
    ensures Seats(rows[id := c], c.roomTypeId, k, f)
            <==> FreeRoom(rows, c.roomTypeId, f, f[id], rows[id].checkOutAt, c.checkOutAt)
  {
    if rows[id].checkOutAt < c.checkOutAt {
      ExtendKeepsSeatsExact(rows, id, c, k, f);
    } else {
      ShorterKeepsSeats(rows, id, c, k, f);
    }
  }

  lemma ShorterKeepsSeats(rows: Table, id: nat, c: Row, k: nat, f: Assignment)
    requires id in rows && Active(rows[id]) && Active(c) && RealStays(rows) && Seats(rows, c.roomTypeId, k, f)
    requires c.roomTypeId == rows[id].roomTypeId && c.checkInAt == rows[id].checkInAt &&
      c.checkOutAt <= rows[id].checkOutAt
    ensures id in f && Seats(rows[id := c], c.roomTypeId, k, f)
    ensures FreeRoom(rows, c.roomTypeId, f, f[id], rows[id].checkOutAt, c.checkOutAt)
  {
    var rt, rows' := c.roomTypeId, rows[id := c];
    assert Occupies(rows, rt, id);
    forall x: nat ensures Occupies(rows', rt, x) <==> Occupies(rows, rt, x) {
    }
    forall x: nat | Occupies(rows, rt, x) && x in f && f[x] == f[id]
      ensures !Overlaps(rows[x], rows[id].checkOutAt, c.checkOutAt)
    {
      if x != id {
        assert Apart(rows[x], rows[id]);
      }
    }
  }

  /** Whatever rooms have been handed out so far, one more step can be housed with nobody
      moved if and only if an extension it commits finds the guest's own room free. */
  lemma {:induction false} HousingContinues(guard: set<BookingStatus>, acts: seq<Action>, fs: seq<Assignment>,
          a: Action)
    requires HousingHistory(guard, acts, fs)
    ensures (exists g: Assignment :: HousingHistory(guard, acts + [a], fs + [g]))
            <==> OwnRoomFree(Run(guard, INITIAL, acts), fs[|acts|], a)
  {
    var s, f, n := Run(guard, INITIAL, acts), fs[|acts|], |acts|;
    RunKeepsInv(guard, acts);
    RunSnoc(guard, INITIAL, acts, a);
    assert (acts + [a])[..n] == acts;
    forall g: Assignment ensures HousingHistory(guard, acts + [a], fs + [g]) <==>
      Housed(Next(guard, s, a), g) && Extends(f, g) {
      assert (fs + [g])[..n + 1] == fs;
    }
    HousedNext(guard, s, a, f);
    if OwnRoomFree(s, f, a) {
      var g: Assignment :| Housed(Next(guard, s, a), g) && Extends(f, g);
      assert HousingHistory(guard, acts + [a], fs + [g]);
    }
  }

  lemma HousedAfterExtension(guard: set<BookingStatus>, s: Db, a: Action, f: Assignment)
    requires Inv(guard, s) && Housed(s, f) && RealStays(s.rows) && CommitsExtension(s, a)
    ensures (exists g: Assignment :: Housed(Next(guard, s, a), g) && Extends(f, g)) <==> OwnRoomFree(s, f, a)
  {
    FinishRows(guard, s, a.index);
    ExtensionHousedExact(guard, s, a.index, f);
    OnlyOneWayOn(f, Next(guard, s, a));
  }

  lemma HousedNext(guard: set<BookingStatus>, s: Db, a: Action, f: Assignment)
    requires Inv(guard, s) && Housed(s, f)
    ensures (exists g: Assignment :: Housed(Next(guard, s, a), g) && Extends(f, g)) <==> OwnRoomFree(s, f, a)
  {
    if CommitsExtension(s, a) {
      assert RowsOk(guard, s);
      HousedAfterExtension(guard, s, a, f);
    } else {
      var g := UncontestedHousing(guard, s, a, f);
    }
  }

  lemma UncontestedFinish(guard: set<BookingStatus>, s: Db, k: nat, f: Assignment)
    requires Inv(guard, s) && Housed(s, f) && !CommitsExtension(s, Finish(k))
    ensures Housed(Next(guard, s, Finish(k)), f)
  {
    var t := Next(guard, s, Finish(k));
    FinishRows(guard, s, k);
    if Wins(s, k) {
      WinnersStay(guard, s, k);
      ReplaceKeepsHousing(s, t, s.inFlight[k].id, Apply(s.rows[s.inFlight[k].id], s.inFlight[k].commit.patch), f);
    } else {
      QuietKeepsHousing(s, t, f);
    }
  }

  lemma UncontestedHousing(guard: set<BookingStatus>, s: Db, a: Action, f: Assignment) returns (g: Assignment)
    requires Inv(guard, s) && Housed(s, f) && !CommitsExtension(s, a)
    ensures Housed(Next(guard, s, a), g) && Extends(f, g)
  {
    g := f;
    if a.Create? {
      if Creatable(s, a) {
        g := CreateKeepsHousing(guard, s, a, f);
      }
    } else if a.Finish? {
      UncontestedFinish(guard, s, a.index, f);
    } else {
      OtherKeepsHousing(guard, s, a, f);
    }
  }

  // ---- search ----

  // The availability condition of the public search over a property's room types.
  predicate SearchAvailable(rows: Table, roomCounts: map<nat, nat>, types: set<nat>, from: int, to: int)
    requires types <= roomCounts.Keys
  {
    exists rt :: rt in types && roomCounts[rt] > |Overlapping(rows, rt, from, to)|
  }

  ghost predicate RoomGuaranteed(rows: Table, rt: nat, k: nat, from: int, to: int) {
    forall f: Assignment :: Seats(rows, rt, k, f) ==> exists room: nat ::
      room < k && FreeRoom(rows, rt, f, room, from, to)
  }

  lemma SearchIsAdmission(s: Db, types: set<nat>, n: NewBooking, id: nat)
    requires types <= s.roomCounts.Keys && id !in s.rows && id !in s.trail && InRange(n)
    ensures SearchAvailable(s.rows, s.roomCounts, types, n.checkInAt, CheckOutFor(n))
            <==> exists rt :: rt in types && Creatable(s, Create(id, n.(roomTypeId := rt), s.roomCounts[rt]))
  {
    forall rt | rt in types
      ensures s.roomCounts[rt] > |Overlapping(s.rows, rt, n.checkInAt, CheckOutFor(n))|
              <==> Creatable(s, Create(id, n.(roomTypeId := rt), s.roomCounts[rt]))
    {
    }
  }

  lemma SearchIsGuarantee(s: Db, types: set<nat>, from: int, to: int)
    requires types <= s.roomCounts.Keys && HouseFits(s) && RealStays(s.rows)
    ensures SearchAvailable(s.rows, s.roomCounts, types, from, to)
            <==> exists rt :: rt in types && RoomGuaranteed(s.rows, rt, s.roomCounts[rt], from, to)
  {
    forall rt | rt in types
      ensures s.roomCounts[rt] > |Overlapping(s.rows, rt, from, to)|
              <==> RoomGuaranteed(s.rows, rt, s.roomCounts[rt], from, to)
    {
      SeatableExact(s.rows, rt, s.roomCounts[rt]);
      CountingIsExact(s.rows, rt, s.roomCounts[rt], from, to);
    }
  }

  /** The search lists a property for an interval if and only if admission would take that
      interval for one of its room types, in every run; and, unless an extension has already
      overbooked the house, if and only if one of them has a room free for the whole interval
      under every legal seating. */
  lemma {:induction false} SearchAgrees(guard: set<BookingStatus>, acts: seq<Action>, types: set<nat>, n: NewBooking,
          id: nat)
    requires var s := Run(guard, INITIAL, acts); types <= s.roomCounts.Keys && id !in s.rows && InRange(n)
    ensures var s := Run(guard, INITIAL, acts);
            var found := SearchAvailable(s.rows, s.roomCounts, types, n.checkInAt, CheckOutFor(n));
            && (found <==> exists rt :: rt in types && Creatable(s, Create(id, n.(roomTypeId := rt), s.roomCounts[rt])))
            && (HouseFits(s) ==>
                 (found <==> exists rt ::
                    rt in types && RoomGuaranteed(s.rows, rt, s.roomCounts[rt], n.checkInAt, CheckOutFor(n))))
  {
    var s := Run(guard, INITIAL, acts);
    RunKeepsInv(guard, acts);
    assert s.trail.Keys == s.rows.Keys && RowsOk(guard, s);
    SearchIsAdmission(s, types, n, id);
    if HouseFits(s) {
      SearchIsGuarantee(s, types, n.checkInAt, CheckOutFor(n));
    }
  }

  // ---- why the extension must be one step ----

  const LATER_GUEST := SAMPLE.(checkInAt := 3 * HOUR)
  const EXTEND_REQUEST :=
    Request(0, Extend(4 * HOUR, 100), 0, ARRIVED_ROW,
      Commit({CheckedIn}, ExtendPatch(4 * HOUR, 4, ARRIVED_ROW.total + 100)))

  lemma ArrivedLooks(guard: set<BookingStatus>) returns (acts: seq<Action>)
    ensures Looks(Run(guard, INITIAL, acts), 0, ARRIVED_ROW, [])
  {
    acts := CreateLooks(guard);
    acts := ThenBegin(guard, acts, UNPAID_ROW, [], CAPTURE_REQUEST);
    acts := ThenFinish(guard, acts, 0, UNPAID_ROW, [CAPTURE_REQUEST], 0);
    acts := ThenBegin(guard, acts, PAID_ROW, [], ARRIVE_REQUEST);
    acts := ThenFinish(guard, acts, 0, PAID_ROW, [ARRIVE_REQUEST], 0);
  }

  lemma ExtendPlanned()
    ensures Plan(EXTEND_REQUEST.op, ARRIVED_ROW, 0) == Ok(EXTEND_REQUEST.commit)
    ensures RoomStaysFree(map[0 := ARRIVED_ROW], 0, EXTEND_REQUEST.op, ARRIVED_ROW)
  {
    assert Overlapping(map[0 := ARRIVED_ROW], 0, 3 * HOUR, 4 * HOUR) - {0} == {};
  }

  lemma ExtendReadLooks(guard: set<BookingStatus>) returns (acts: seq<Action>)
    ensures Looks(Run(guard, INITIAL, acts), 0, ARRIVED_ROW, [EXTEND_REQUEST])
  {
    acts := ArrivedLooks(guard);
    ExtendPlanned();
    acts := ThenBegin(guard, acts, ARRIVED_ROW, [], EXTEND_REQUEST);
  }

  lemma LaterGuestAdmitted(guard: set<BookingStatus>, s: Db)
    requires Looks(s, 0, ARRIVED_ROW, [EXTEND_REQUEST])
    ensures var t := Next(guard, s, Create(1, LATER_GUEST, 1));
            && t.rows == map[0 := ARRIVED_ROW, 1 := FreshRow(LATER_GUEST, 0)]
            && t.inFlight == [EXTEND_REQUEST] && t.trail.Keys == t.rows.Keys && t.clock == 0 &&
              t.roomCounts == s.roomCounts
  {
    assert Overlapping(s.rows, 0, LATER_GUEST.checkInAt, CheckOutFor(LATER_GUEST)) == {};
  }

  lemma BothHoldTheRoom()
    ensures var extended := Apply(ARRIVED_ROW, EXTEND_REQUEST.commit.patch);
            Overlapping(map[0 := extended, 1 := FreshRow(LATER_GUEST, 0)], 0, 3 * HOUR, 3 * HOUR + 1) == {0, 1}
  {
  }

  /** Check-then-act: a booking admitted between an extension's check and its commit
      leaves the single room of a room type promised twice. */
  lemma StaleExtendOverbooks(guard: set<BookingStatus>) returns (acts: seq<Action>)
    ensures var s := Run(guard, INITIAL, acts);
            0 in s.roomCounts && |Overlapping(s.rows, 0, 3 * HOUR, 3 * HOUR + 1)| > s.roomCounts[0]
  {
    acts := ExtendReadLooks(guard);
    LaterGuestAdmitted(guard, Run(guard, INITIAL, acts));
    RunSnoc(guard, INITIAL, acts, Create(1, LATER_GUEST, 1));
    acts := acts + [Create(1, LATER_GUEST, 1)];
    FinishRows(guard, Run(guard, INITIAL, acts), 0);
    RunSnoc(guard, INITIAL, acts, Finish(0));
    acts := acts + [Finish(0)];
    var extended := Apply(ARRIVED_ROW, EXTEND_REQUEST.commit.patch);
    assert Run(guard, INITIAL, acts).rows == map[0 := extended, 1 := FreshRow(LATER_GUEST, 0)];
    BothHoldTheRoom();
  }
}
