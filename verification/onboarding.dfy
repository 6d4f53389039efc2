/**
 The onboarding and moderation operations, each on its own. Submitting writes the status
 and the policy first and replaces the rooms in a second transaction, which fails when two
 counted rooms share a category.
 */
module Onboarding {
  import opened Common
  import opened Money
  import opened Properties

  const REVISION_CAP: nat := 3

  predicate Editable(p: Property) { p.status != PendingReview && p.status != Approved }

  // Steps 1-5 are checked again, in order, at submission.
  function Materialize(p: Property): Result<(Basics, RoomsAndRules)> {
    var w := p.wizard;
    if w.basics.None? || !w.location || w.rooms.None? || !RoomsInRange(w.rooms.value) || !w.photos then Err(BadRequest)
    else if p.compliance.None? then Err(BadRequest)
    else if RoomErrors(w.basics.value, w.rooms.value) != [] then Err(BadRequest)
    else if LegalErrors(w.basics.value, w.rooms.value, p.compliance.value) != [] then Err(BadRequest)
    else Ok((w.basics.value, w.rooms.value))
  }

  function Submitted(p: Property): (Property, Result<()>) {
    var m := Materialize(p);
    if m.Err? then (p, Err(m.error))
    else
      var (b, s) := m.value;
      var reviewed := p.(status := PendingReview, policy := Some(b.policy), minHours := s.minHours,
        wizard := NO_WIZARD);
      var rooms := Replaced(Counted(s.rooms));
      if rooms.Some? then (reviewed.(rooms := rooms.value), Ok(())) else (reviewed, Err(Internal))
  }

  datatype RoomEdit = RoomEdit(count: Option<nat>, maxOccupancy: Option<nat>, hourly: Option<int>, fullday: Option<int>)

  predicate EditInRange(e: RoomEdit) {
    && (e.count.Some? ==> e.count.value <= 500)
    && (e.hourly.Some? ==> 100 <= e.hourly.value <= 100_000)
    && (e.fullday.Some? ==> 500 <= e.fullday.value <= 500_000)
  }

  function Edited(r: Room, e: RoomEdit): Room {
    Room(if e.count.Some? then e.count.value else r.count,
         if e.hourly.Some? then Some(e.hourly.value * 100) else r.hourly,
         if e.fullday.Some? then Some(e.fullday.value * 100) else r.fullday,
         if e.maxOccupancy.Some? then e.maxOccupancy else r.maxOccupancy)
  }

  datatype Act =
    | SaveBasics(basics: Basics)
    | SaveLocation
    | SaveRooms(rooms: RoomsAndRules)
    | SavePhotos
    | SaveCompliance(compliance: Compliance)
    | Submit
    | Revise
    | Approve
    | Reject
    | RequestRevision
    | UpdateRoom(kind: Category, edit: RoomEdit)
    | UpdateSettings(minHours: nat)

  function SaveStep(p: Property, a: Act): (Property, Result<()>)
    requires a.SaveBasics? || a.SaveLocation? || a.SaveRooms? || a.SavePhotos? || a.SaveCompliance?
  {
    if !Editable(p) then (p, Err(Conflict))
    else
      match a
      case SaveBasics(b) => (p.(wizard := p.wizard.(basics := Some(b))), Ok(()))
      case SaveLocation => (p.(wizard := p.wizard.(location := true)), Ok(()))
      case SaveRooms(s) =>
        if !RoomsInRange(s) || Counted(s.rooms) == [] then (p, Err(BadRequest))
        else (p.(wizard := p.wizard.(rooms := Some(s))), Ok(()))
      case SavePhotos => (p.(wizard := p.wizard.(photos := true)), Ok(()))
      case SaveCompliance(c) => (p.(compliance := Some(c)), Ok(()))
  }

  /** Saving a step is refused under review and once approved; it stores what was given and leaves
      everything else, the rooms on sale above all, as it is. */
  lemma SavesExact(p: Property, a: Act)
    requires a.SaveBasics? || a.SaveLocation? || a.SaveRooms? || a.SavePhotos? || a.SaveCompliance?
    ensures var (q, r) := SaveStep(p, a);
            && (p.status in {PendingReview, Approved} ==> r == Err(Conflict))
            && (r.Err? ==> q == p) && (r.Err? ==> p.status in {PendingReview, Approved} || a.SaveRooms?)
            && q == p.(wizard := q.wizard, compliance := q.compliance)
            && q.wizard == p.wizard.(basics := q.wizard.basics, location := q.wizard.location,
                                     rooms := q.wizard.rooms, photos := q.wizard.photos)
            && (r.Ok? ==>
                 && q.wizard.basics == (if a.SaveBasics? then Some(a.basics) else p.wizard.basics)
                 && q.wizard.location == (a.SaveLocation? || p.wizard.location)
                 && q.wizard.rooms == (if a.SaveRooms? then Some(a.rooms) else p.wizard.rooms)
                 && q.wizard.photos == (a.SavePhotos? || p.wizard.photos)
                 && q.compliance == (if a.SaveCompliance? then Some(a.compliance) else p.compliance))
  {
  }

  // Approve, reject, or ask for a revision; the fourth request escalates instead.
  function Moderate(p: Property, a: Act): (Property, Result<()>)
    requires a.Approve? || a.Reject? || a.RequestRevision?
  {
    if p.status != PendingReview then (p, Err(Conflict))
    else if a.Approve? then (p.(status := Approved), Ok(()))
    else if a.Reject? then (p.(status := Rejected), Ok(()))
    else if p.revisionCount + 1 > REVISION_CAP then (p.(status := Escalated), Ok(()))
    else (p.(status := NeedsRevision, revisionCount := p.revisionCount + 1), Ok(()))
  }

  function Step(p: Property, a: Act): (Property, Result<()>) {
    match a
    case Submit => if p.status != Draft then (p, Err(Conflict)) else Submitted(p)
    case Revise => if p.status != NeedsRevision then (p, Err(Conflict)) else Submitted(p)
    case Approve => Moderate(p, a)
    case Reject => Moderate(p, a)
    case RequestRevision => Moderate(p, a)
    case UpdateRoom(kind, edit) =>
      if !EditInRange(edit) then (p, Err(BadRequest))
      else if kind !in p.rooms then (p, Err(NotFound))
      else (p.(rooms := p.rooms[kind := Edited(p.rooms[kind], edit)]), Ok(()))
    case UpdateSettings(h) => if 1 <= h <= 3 then (p.(minHours := Some(h)), Ok(())) else (p, Err(BadRequest))
    case _ => SaveStep(p, a)
  }

  // ---- what every operation keeps ----

  ghost predicate WizardOk(w: Wizard) {
    w.rooms.Some? ==> RoomsInRange(w.rooms.value) && Counted(w.rooms.value.rooms) != []
  }

  ghost predicate HoursOk(hours: Option<nat>) { hours.Some? ==> 1 <= hours.value <= 3 }

  ghost predicate Sound(p: Property) {
    && WizardOk(p.wizard) && RatesPositive(p.rooms) && HoursOk(p.minHours) && p.revisionCount <= REVISION_CAP
    && (p.status == Draft ==> p.rooms == map[] && p.policy.None?)
    && (p.status != Draft ==> p.policy.Some?)
  }

  lemma MaterializeComplete(p: Property)
    requires Materialize(p).Ok?
    ensures var (b, s) := Materialize(p).value;
            && p.compliance.Some? && Complete(b, s, p.compliance.value) && RoomsInRange(s)
            && p.wizard.rooms == Some(s)
  {
    ConditionalFieldsExact(p.wizard.basics.value, p.wizard.rooms.value, p.compliance.value);
  }

  // The rooms a submission leaves are the ones entered, or, when two counted rooms share
  // a category, the ones the property had before.
  ghost predicate Clean(p: Property, b: Basics, s: RoomsAndRules) {
    DistinctKinds(Counted(s.rooms)) || AllPriced(p.rooms, b.policy)
  }

  /** What any accepted submission is worth: the property under review is bookable exactly
      when its counted categories are distinct or the rooms it already had are priced for
      the new policy. For a first submission, which has no rooms yet, only the former. */
  lemma {:induction false} SubmissionExact(p: Property)
    requires Sound(p) && Materialize(p).Ok?
    ensures var (b, s) := Materialize(p).value;
            var q := Submitted(p).0;
            && q.status == PendingReview && RatesPositive(q.rooms)
            && p.wizard.basics == Some(b) && p.wizard.rooms == Some(s)
            && q == p.(status := PendingReview, policy := Some(b.policy), minHours := s.minHours,
                       wizard := Wizard(None, false, None, false), rooms := q.rooms)
            && (DistinctKinds(Counted(s.rooms)) ==> Stores(Counted(s.rooms), q.rooms))
            && (!DistinctKinds(Counted(s.rooms)) ==> q.rooms == p.rooms)
            && (Bookable(q) <==> Clean(p, b, s))
            && (Submitted(p).1.Ok? <==> DistinctKinds(Counted(s.rooms)))
            && (p.status == Draft ==> (Clean(p, b, s) <==> DistinctKinds(Counted(s.rooms))))
  {
    var (b, s) := Materialize(p).value;
    MaterializeComplete(p);
    ReplacedExact(Counted(s.rooms));
    if DistinctKinds(Counted(s.rooms)) {
      MaterializedPriced(b, s, p.compliance.value);
    }
  }

  lemma EditKeepsRates(rooms: map<Category, Room>, kind: Category, e: RoomEdit)
    requires RatesPositive(rooms) && kind in rooms && EditInRange(e)
    ensures RatesPositive(rooms[kind := Edited(rooms[kind], e)])
  {
  }

  lemma EditKeepsBookable(p: Property, kind: Category, e: RoomEdit)
    requires Bookable(p) && kind in p.rooms
    ensures Bookable(p.(rooms := p.rooms[kind := Edited(p.rooms[kind], e)]))
  {
    var rooms := p.rooms[kind := Edited(p.rooms[kind], e)];
    assert kind in rooms;
    forall k | k in rooms ensures Priced(rooms[k], p.policy.value) {
      assert k in p.rooms && Priced(p.rooms[k], p.policy.value);
    }
  }

  // What a new booking asks of the property before anything else.
  function RateFor(p: Property, kind: Category, wanted: BookingType): Result<int> {
    if p.status != Approved || kind !in p.rooms then Err(NotFound)
    else if p.policy.None? then Err(BadRequest)
    else if !Sells(p.policy.value, wanted) then Err(BadRequest)
    else
      var rate := if wanted == Hourly then p.rooms[kind].hourly else p.rooms[kind].fullday;
      if rate.None? then Err(BadRequest) else Ok(rate.value)
  }
}
