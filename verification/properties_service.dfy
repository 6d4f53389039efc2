/** The owner-facing and admin-facing property operations over the property table. */
module PropertyServices {
  import opened Common
  import opened Money
  import opened Properties
  import opened Onboarding

  // What one operation leaves: the row stepped on, every other row untouched.
  predicate Stepped(before: map<nat, Property>, after: map<nat, Property>, id: nat, a: Act, r: Result<()>) {
    if id !in before then after == before && r == Err(NotFound)
    else after == before[id := Step(before[id], a).0] && r == Step(before[id], a).1
  }

  class PropertiesService {
    var rows: map<nat, Property>

    constructor ()
      ensures rows == map[]
    {
      rows := map[];
    }

    method CreateDraft(id: nat, ownerId: nat)
      requires id !in rows
      modifies this
      ensures rows == old(rows)[id := NewDraft(ownerId)]
    {
      rows := rows[id := NewDraft(ownerId)];
    }

    // Delete all, then insert one by one; a repeated category aborts the transaction.
    method ReplaceRoomTypes(id: nat, counted: seq<WizardRoom>) returns (ok: bool)
      requires id in rows
      modifies this
      ensures ok <==> Replaced(counted).Some?
      ensures rows == if ok then old(rows)[id := old(rows)[id].(rooms := Replaced(counted).value)] else old(rows)
    {
      var created: map<Category, Room> := map[];
      for i := 0 to |counted|
        invariant Replaced(counted[..i]) == Some(created) && rows == old(rows)
      {
        assert counted[..i + 1][..i] == counted[..i];
        if counted[i].kind in created {
          StaysRefused(counted, i + 1);
          return false;
        }
        created := created[counted[i].kind := Materialized(counted[i])];
      }
      assert counted[..|counted|] == counted;
      rows := rows[id := rows[id].(rooms := created)];
      return true;
    }

    method ValidateAndMaterialize(p: Property) returns (m: Result<(Basics, RoomsAndRules)>)
      ensures m == Materialize(p)
      ensures m.Ok? <==>
        && p.wizard.basics.Some? && p.wizard.location && p.wizard.rooms.Some? && p.wizard.photos && p.compliance.Some?
        && RoomsInRange(p.wizard.rooms.value)
        && Complete(p.wizard.basics.value, p.wizard.rooms.value, p.compliance.value)
      ensures m.Ok? ==> m.value == (p.wizard.basics.value, p.wizard.rooms.value)
    {
      if p.wizard.basics.None? || !p.wizard.location || p.wizard.rooms.None? { return Err(BadRequest); }
      if !RoomsInRange(p.wizard.rooms.value) || !p.wizard.photos { return Err(BadRequest); }
      if p.compliance.None? { return Err(BadRequest); }
      var errors := AssertConditionalFields(p.wizard.basics.value, p.wizard.rooms.value, p.compliance.value);
      if |errors| > 0 { return Err(BadRequest); }
      return Ok((p.wizard.basics.value, p.wizard.rooms.value));
    }

    // Status and policy first, rooms in a transaction of their own.
    method WriteSubmission(id: nat) returns (r: Result<()>)
      requires id in rows
      modifies this
      ensures rows == old(rows)[id := Submitted(old(rows)[id]).0] && r == Submitted(old(rows)[id]).1
    {
      var property := rows[id];
      var materialized := ValidateAndMaterialize(property);
      if materialized.Err? {
        assert rows[id := property] == rows;
        return Err(materialized.error);
      }
      var (step1, step3) := materialized.value;
      rows := rows[id := property.(status := PendingReview, policy := Some(step1.policy),
                                   minHours := step3.minHours, wizard := NO_WIZARD)];
      var replaced := ReplaceRoomTypes(id, Counted(step3.rooms));
      if !replaced { return Err(Internal); }
      return Ok(());
    }

    method Submit(id: nat) returns (r: Result<()>)
      modifies this
      ensures Stepped(old(rows), rows, id, Act.Submit, r)
    {
      if id !in rows { return Err(NotFound); }
      if rows[id].status != Draft {
        assert rows[id := rows[id]] == rows;
        return Err(Conflict);
      }
      r := WriteSubmission(id);
    }

    method Revise(id: nat) returns (r: Result<()>)
      modifies this
      ensures Stepped(old(rows), rows, id, Act.Revise, r)
    {
      if id !in rows { return Err(NotFound); }
      if rows[id].status != NeedsRevision {
        assert rows[id := rows[id]] == rows;
        return Err(Conflict);
      }
      r := WriteSubmission(id);
    }

    method SaveRoomsStep(id: nat, s: RoomsAndRules) returns (r: Result<()>)
      modifies this
      ensures Stepped(old(rows), rows, id, SaveRooms(s), r)
      ensures r.Ok? <==>
        && id in old(rows) && old(rows)[id].status in {Draft, NeedsRevision, Rejected, Suspended, Escalated}
        && (forall room :: room in s.rooms ==>
             && room.count <= 500
             && (room.hourly.Some? ==> 100.0 <= room.hourly.value <= 100_000.0)
             && (room.fullday.Some? ==> 500.0 <= room.fullday.value <= 500_000.0))
        && (s.minHours.Some? ==> 1 <= s.minHours.value <= 3) && exists room :: room in s.rooms && room.count > 0
      ensures rows == if r.Ok? then old(rows)[id := old(rows)[id].(wizard := old(rows)[id].wizard.(rooms := Some(s)))]
                      else old(rows)
    {
      if id !in rows { return Err(NotFound); }
      var property := rows[id];
      assert rows[id := property] == rows;
      CountedIn(s.rooms);
      if !Editable(property) { return Err(Conflict); }
      if !RoomsInRange(s) { return Err(BadRequest); }
      if |Counted(s.rooms)| == 0 { return Err(BadRequest); }
      assert Counted(s.rooms)[0] in Counted(s.rooms);
      rows := rows[id := property.(wizard := property.wizard.(rooms := Some(s)))];
      return Ok(());
    }

    method UpdateRoom(id: nat, kind: Category, edit: RoomEdit) returns (r: Result<()>)
      modifies this
      ensures id in old(rows) && EditInRange(edit) ==> Stepped(old(rows), rows, id, Act.UpdateRoom(kind, edit), r)
      ensures r.Ok? <==>
        && id in old(rows) && kind in old(rows)[id].rooms && (edit.count.Some? ==> edit.count.value <= 500)
        && (edit.hourly.Some? ==> 100 <= edit.hourly.value <= 100_000)
        && (edit.fullday.Some? ==> 500 <= edit.fullday.value <= 500_000)
      ensures r.Err? ==> rows == old(rows)
      ensures r.Ok? ==>
        && id in rows && kind in rows[id].rooms
        && rows == old(rows)[id := old(rows)[id].(rooms := old(rows)[id].rooms[kind := rows[id].rooms[kind]])]
        && var was, room := old(rows)[id].rooms[kind], rows[id].rooms[kind];
        && room.count == (if edit.count.Some? then edit.count.value else was.count)
        && room.maxOccupancy == (if edit.maxOccupancy.Some? then edit.maxOccupancy else was.maxOccupancy)
        && room.hourly == (if edit.hourly.Some? then Some(100 * edit.hourly.value) else was.hourly)
        && room.fullday == (if edit.fullday.Some? then Some(100 * edit.fullday.value) else was.fullday)
    {
      if !EditInRange(edit) { return Err(BadRequest); }
      if id !in rows { return Err(NotFound); }
      var rooms := rows[id].rooms;
      assert rows[id := rows[id]] == rows;
      if kind !in rooms { return Err(NotFound); }
      var room := rooms[kind];
      if edit.count.Some? { room := room.(count := edit.count.value); }
      if edit.maxOccupancy.Some? { room := room.(maxOccupancy := edit.maxOccupancy); }
      if edit.hourly.Some? { room := room.(hourly := Some(edit.hourly.value * 100)); }
      if edit.fullday.Some? { room := room.(fullday := Some(edit.fullday.value * 100)); }
      rows := rows[id := rows[id].(rooms := rooms[kind := room])];
      return Ok(());
    }

    method Approve(id: nat) returns (r: Result<()>)
      modifies this
      ensures Stepped(old(rows), rows, id, Act.Approve, r)
      ensures r.Ok? <==> id in old(rows) && old(rows)[id].status == PendingReview
      ensures rows == if r.Ok? then old(rows)[id := old(rows)[id].(status := Approved)] else old(rows)
    {
      if id !in rows { return Err(NotFound); }
      assert rows[id := rows[id]] == rows;
      if rows[id].status != PendingReview { return Err(Conflict); }
      rows := rows[id := rows[id].(status := Approved)];
      return Ok(());
    }

    method Reject(id: nat) returns (r: Result<()>)
      modifies this
      ensures Stepped(old(rows), rows, id, Act.Reject, r)
      ensures r.Ok? <==> id in old(rows) && old(rows)[id].status == PendingReview
      ensures rows == if r.Ok? then old(rows)[id := old(rows)[id].(status := Rejected)] else old(rows)
    {
      if id !in rows { return Err(NotFound); }
      assert rows[id := rows[id]] == rows;
      if rows[id].status != PendingReview { return Err(Conflict); }
      rows := rows[id := rows[id].(status := Rejected)];
      return Ok(());
    }

    method RequestRevision(id: nat) returns (r: Result<()>)
      modifies this
      ensures Stepped(old(rows), rows, id, Act.RequestRevision, r)
      ensures r.Ok? <==> id in old(rows) && old(rows)[id].status == PendingReview
      ensures r.Ok? ==>
        var p := old(rows)[id];
        rows == old(rows)[id := if p.revisionCount < 3
                                then p.(status := NeedsRevision, revisionCount := p.revisionCount + 1)
                                else p.(status := Escalated)]
      ensures r.Err? ==> rows == old(rows)
    {
      if id !in rows { return Err(NotFound); }
      var property := rows[id];
      assert rows[id := property] == rows;
      if property.status != PendingReview { return Err(Conflict); }
      if property.revisionCount + 1 > REVISION_CAP {
        rows := rows[id := property.(status := Escalated)];
        return Ok(());
      }
      rows := rows[id := property.(status := NeedsRevision, revisionCount := property.revisionCount + 1)];
      return Ok(());
    }
  }

  // Once a category repeats, no later row makes the insert succeed.
  lemma {:induction false} StaysRefused(counted: seq<WizardRoom>, n: nat)
    requires n <= |counted| && Replaced(counted[..n]).None?
    ensures Replaced(counted).None?
    decreases |counted|
  {
    if n == |counted| {
      assert counted[..n] == counted;
    } else {
      assert counted[..|counted| - 1][..n] == counted[..n];
      StaysRefused(counted[..|counted| - 1], n);
    }
  }
}
