/** A property's onboarding data, the checks a submission passes, and what it materializes. */
module Properties {
  import opened Common
  import opened Money

  datatype Policy = HourlyOnly | FullDayOnly | Both

  datatype Category = Ac | NonAc | Dorm | Suite

  datatype Entity = Individual | SoleProprietor | Partnership | Llp | PrivateLimited | PublicLimited

  datatype Document =
    | FireSafetyCert | FssaiLicense | PartnershipDeed | LlpAgreement | IncorporationCertificate | BoardResolution
    | OtherDocument

  datatype PropertyStatus = Draft | PendingReview | NeedsRevision | Approved | Rejected | Suspended | Escalated

  // ---- what the wizard stores (rates in rupees) ----

  datatype WizardRoom = WizardRoom(kind: Category, count: nat, hourly: Option<real>, fullday: Option<real>,
    maxOccupancy: Option<nat>)

  datatype Basics = Basics(policy: Policy, entity: Entity, banquet: bool)

  datatype RoomsAndRules = RoomsAndRules(rooms: seq<WizardRoom>, minHours: Option<nat>, seating: Option<nat>,
    servesFood: bool)

  datatype Compliance = Compliance(gstin: bool, documents: set<Document>)

  // `location` and `photos`: whether steps 2 and 4 are stored.
  datatype Wizard = Wizard(basics: Option<Basics>, location: bool, rooms: Option<RoomsAndRules>, photos: bool)

  const NO_WIZARD := Wizard(None, false, None, false)

  // ---- what is live (rates in paise); room types are unique per category ----

  datatype Room = Room(count: nat, hourly: Option<int>, fullday: Option<int>, maxOccupancy: Option<nat>)

  datatype Property = Property(
    ownerId: nat, status: PropertyStatus, wizard: Wizard, compliance: Option<Compliance>,
    policy: Option<Policy>, minHours: Option<nat>, rooms: map<Category, Room>, revisionCount: nat)

  function NewDraft(ownerId: nat): Property {
    Property(ownerId, Draft, NO_WIZARD, None, None, None, map[], 0)
  }

  // ---- request validation ----

  predicate Within(rate: Option<real>, low: real, high: real) { rate.Some? ==> low <= rate.value <= high }

  predicate RoomInRange(r: WizardRoom) {
    r.count <= 500 && Within(r.hourly, 100.0, 100000.0) && Within(r.fullday, 500.0, 500000.0)
  }

  predicate RoomsInRange(s: RoomsAndRules) {
    && (forall r :: r in s.rooms ==> RoomInRange(r))
    && (s.minHours.Some? ==> 1 <= s.minHours.value <= 3)
  }

  function Counted(rooms: seq<WizardRoom>): seq<WizardRoom> {
    if rooms == [] then []
    else
      var before, r := Counted(rooms[..|rooms| - 1]), rooms[|rooms| - 1];
      if r.count > 0 then before + [r] else before
  }

  lemma {:induction false} CountedIn(rooms: seq<WizardRoom>)
    ensures forall r :: r in Counted(rooms) <==> r in rooms && r.count > 0
  {
    if rooms != [] {
      CountedIn(rooms[..|rooms| - 1]);
      assert rooms == rooms[..|rooms| - 1] + [rooms[|rooms| - 1]];
    }
  }

  // ---- the conditional fields checked at submission ----

  datatype FieldError =
    | MinHoursMissing | HourlyRateMissing(index: nat) | FulldayRateMissing(index: nat) | SeatingMissing
    | GstinMissing | DocumentMissing(document: Document)

  predicate Sells(policy: Policy, kind: BookingType) {
    policy == Both || (policy == HourlyOnly && kind == Hourly) || (policy == FullDayOnly && kind == FullDay)
  }

  function When(missing: bool, e: FieldError): seq<FieldError> { if missing then [e] else [] }

  function RateErrorsAt(policy: Policy, r: WizardRoom, i: nat): seq<FieldError> {
    When(Sells(policy, Hourly) && r.hourly.None?, HourlyRateMissing(i))
    + When(Sells(policy, FullDay) && r.fullday.None?, FulldayRateMissing(i))
  }

  function RateErrors(policy: Policy, counted: seq<WizardRoom>): seq<FieldError> {
    if counted == [] then []
    else
      var i := |counted| - 1;
      RateErrors(policy, counted[..i]) + RateErrorsAt(policy, counted[i], i)
  }

  function RoomErrors(b: Basics, s: RoomsAndRules): seq<FieldError> {
    When(b.policy != FullDayOnly && s.minHours.None?, MinHoursMissing)
    + RateErrors(b.policy, Counted(s.rooms))
    + When(b.banquet && s.seating.None?, SeatingMissing)
  }

  function EntityDocuments(e: Entity): seq<Document> {
    match e
    case Individual => []
    case SoleProprietor => []
    case Partnership => [PartnershipDeed]
    case Llp => [LlpAgreement, IncorporationCertificate]
    case PrivateLimited => [IncorporationCertificate, BoardResolution]
    case PublicLimited => [IncorporationCertificate, BoardResolution]
  }

  function MissingOf(required: seq<Document>, have: set<Document>): seq<FieldError> {
    if required == [] then []
    else
      var i := |required| - 1;
      MissingOf(required[..i], have) + When(required[i] !in have, DocumentMissing(required[i]))
  }

  function GeneralErrors(b: Basics, s: RoomsAndRules, c: Compliance): seq<FieldError> {
    When(b.entity != Individual && b.entity != SoleProprietor && !c.gstin, GstinMissing)
    + When(FireSafetyCert !in c.documents, DocumentMissing(FireSafetyCert))
    + When(s.servesFood && FssaiLicense !in c.documents, DocumentMissing(FssaiLicense))
  }

  function LegalErrors(b: Basics, s: RoomsAndRules, c: Compliance): seq<FieldError> {
    GeneralErrors(b, s, c) + MissingOf(EntityDocuments(b.entity), c.documents)
  }

  predicate WizardPriced(policy: Policy, r: WizardRoom) {
    (Sells(policy, Hourly) ==> r.hourly.Some?) && (Sells(policy, FullDay) ==> r.fullday.Some?)
  }

  lemma {:induction false} NoRateErrors(policy: Policy, counted: seq<WizardRoom>)
    ensures RateErrors(policy, counted) == [] <==> forall r :: r in counted ==> WizardPriced(policy, r)
  {
    if counted != [] {
      var i := |counted| - 1;
      NoRateErrors(policy, counted[..i]);
      assert counted == counted[..i] + [counted[i]];
      assert counted[i] in counted;
    }
  }

  lemma {:induction false} NothingMissing(required: seq<Document>, have: set<Document>)
    ensures MissingOf(required, have) == [] <==> forall d :: d in required ==> d in have
  {
    if required != [] {
      var i := |required| - 1;
      NothingMissing(required[..i], have);
      assert required == required[..i] + [required[i]];
    }
  }

  lemma RateErrorsAtNamed(policy: Policy, r: WizardRoom, j: nat, i: nat)
    ensures HourlyRateMissing(i) in RateErrorsAt(policy, r, j)
            <==> i == j && policy in {HourlyOnly, Both} && r.hourly.None?
    ensures FulldayRateMissing(i) in RateErrorsAt(policy, r, j)
            <==> i == j && policy in {FullDayOnly, Both} && r.fullday.None?
  {
  }

  /** Every error names what is missing: a rate of the room at its place among the counted ones
      that the policy needs and it has not got, or a document required and not there. */
  lemma {:induction false} RateErrorsNamed(policy: Policy, counted: seq<WizardRoom>, i: nat)
    ensures HourlyRateMissing(i) in RateErrors(policy, counted)
            <==> i < |counted| && policy in {HourlyOnly, Both} && counted[i].hourly.None?
    ensures FulldayRateMissing(i) in RateErrors(policy, counted)
            <==> i < |counted| && policy in {FullDayOnly, Both} && counted[i].fullday.None?
  {
    if counted != [] {
      var j := |counted| - 1;
      RateErrorsNamed(policy, counted[..j], i);
      RateErrorsAtNamed(policy, counted[j], j, i);
    }
  }

  lemma {:induction false} MissingNamed(required: seq<Document>, have: set<Document>, d: Document)
    ensures DocumentMissing(d) in MissingOf(required, have) <==> d in required && d !in have
  {
    if required != [] {
      var i := |required| - 1;
      assert required == required[..i] + [required[i]];
      MissingNamed(required[..i], have, d);
    }
  }

  // What passing both checks means.
  ghost predicate Complete(b: Basics, s: RoomsAndRules, c: Compliance) {
    && (Sells(b.policy, Hourly) ==> s.minHours.Some?)
    && (forall r :: r in s.rooms && r.count > 0 ==> WizardPriced(b.policy, r))
    && (b.banquet ==> s.seating.Some?)
    && (b.entity in {Individual, SoleProprietor} || c.gstin)
    && FireSafetyCert in c.documents && (s.servesFood ==> FssaiLicense in c.documents)
    && (b.entity == Partnership ==> PartnershipDeed in c.documents)
    && (b.entity == Llp ==> LlpAgreement in c.documents)
    && (b.entity in {Llp, PrivateLimited, PublicLimited} ==> IncorporationCertificate in c.documents)
    && (b.entity in {PrivateLimited, PublicLimited} ==> BoardResolution in c.documents)
  }

  /** A submission is refused for its conditional fields exactly when something the policy,
      the property kind, the amenities or the business entity requires is missing. */
  lemma ConditionalFieldsExact(b: Basics, s: RoomsAndRules, c: Compliance)
    ensures RoomErrors(b, s) == [] && LegalErrors(b, s, c) == [] <==> Complete(b, s, c)
  {
    CountedIn(s.rooms);
    NoRateErrors(b.policy, Counted(s.rooms));
    NothingMissing(EntityDocuments(b.entity), c.documents);
  }

  method RoomRateErrors(policy: Policy, counted: seq<WizardRoom>) returns (errors: seq<FieldError>)
    ensures errors == RateErrors(policy, counted)
  {
    errors := [];
    for i := 0 to |counted|
      invariant errors == RateErrors(policy, counted[..i])
    {
      assert counted[..i + 1][..i] == counted[..i];
      var room, found: seq<FieldError> := counted[i], [];
      if Sells(policy, Hourly) && room.hourly.None? {
        found := found + [HourlyRateMissing(i)];
      }
      if Sells(policy, FullDay) && room.fullday.None? {
        found := found + [FulldayRateMissing(i)];
      }
      assert found == RateErrorsAt(policy, room, i);
      errors := errors + found;
    }
    assert counted[..|counted|] == counted;
  }

  method StepThreeErrors(b: Basics, s: RoomsAndRules) returns (errors: seq<FieldError>)
    ensures errors == RoomErrors(b, s)
  {
    errors := [];
    if b.policy != FullDayOnly && s.minHours.None? {
      errors := errors + [MinHoursMissing];
    }
    assert errors == When(b.policy != FullDayOnly && s.minHours.None?, MinHoursMissing);
    var rates := RoomRateErrors(b.policy, Counted(s.rooms));
    errors := errors + rates;
    ghost var soFar := errors;
    if b.banquet && s.seating.None? {
      errors := errors + [SeatingMissing];
    }
    assert errors == soFar + When(b.banquet && s.seating.None?, SeatingMissing);
  }

  method MissingDocuments(required: seq<Document>, have: set<Document>) returns (errors: seq<FieldError>)
    ensures errors == MissingOf(required, have)
  {
    errors := [];
    for i := 0 to |required|
      invariant errors == MissingOf(required[..i], have)
    {
      assert required[..i + 1][..i] == required[..i];
      if required[i] !in have {
        errors := errors + [DocumentMissing(required[i])];
      }
    }
    assert required[..|required|] == required;
  }

  method StepFiveErrors(b: Basics, s: RoomsAndRules, c: Compliance) returns (errors: seq<FieldError>)
    ensures errors == LegalErrors(b, s, c)
  {
    errors := [];
    if b.entity != Individual && b.entity != SoleProprietor && !c.gstin {
      errors := errors + [GstinMissing];
    }
    if FireSafetyCert !in c.documents {
      errors := errors + [DocumentMissing(FireSafetyCert)];
    }
    if s.servesFood && FssaiLicense !in c.documents {
      errors := errors + [DocumentMissing(FssaiLicense)];
    }
    var missing := MissingDocuments(EntityDocuments(b.entity), c.documents);
    errors := errors + missing;
  }

  // Throws the step-3 errors first; step 5 is looked at only when there are none.
  method AssertConditionalFields(b: Basics, s: RoomsAndRules, c: Compliance) returns (errors: seq<FieldError>)
    ensures errors == if RoomErrors(b, s) != [] then RoomErrors(b, s) else LegalErrors(b, s, c)
    ensures errors == [] <==> Complete(b, s, c)
  {
    ConditionalFieldsExact(b, s, c);
    errors := StepThreeErrors(b, s);
    if |errors| > 0 { return; }
    errors := StepFiveErrors(b, s, c);
  }

  // ---- materializing ----

  // Math.round(rupees * 100)
  function Paise(rupees: real): int { (rupees * 100.0 + 0.5).Floor }

  function PaiseOf(rate: Option<real>): Option<int> { if rate.Some? then Some(Paise(rate.value)) else None }

  function Materialized(r: WizardRoom): Room { Room(r.count, PaiseOf(r.hourly), PaiseOf(r.fullday), r.maxOccupancy) }

  ghost predicate DistinctKinds(rooms: seq<WizardRoom>) {
    forall i, j :: 0 <= i < j < |rooms| ==> rooms[i].kind != rooms[j].kind
  }

  // Delete all, create all, in one transaction: a repeated category violates the
  // unique key and undoes both.
  function Replaced(counted: seq<WizardRoom>): Option<map<Category, Room>> {
    if counted == [] then Some(map[])
    else
      var before, r := Replaced(counted[..|counted| - 1]), counted[|counted| - 1];
      if before.None? || r.kind in before.value then None else Some(before.value[r.kind := Materialized(r)])
  }

  predicate HasKind(rooms: seq<WizardRoom>, k: Category) { exists r :: r in rooms && r.kind == k }

  lemma HasKindSnoc(rooms: seq<WizardRoom>, r: WizardRoom)
    ensures forall k :: HasKind(rooms + [r], k) <==> HasKind(rooms, k) || k == r.kind
  {
    forall k ensures HasKind(rooms + [r], k) <==> HasKind(rooms, k) || k == r.kind {
      assert r in rooms + [r];
      if x :| x in rooms && x.kind == k {
        assert x in rooms + [r];
      }
    }
  }

  lemma DistinctSnoc(rooms: seq<WizardRoom>, r: WizardRoom)
    ensures DistinctKinds(rooms + [r]) <==> DistinctKinds(rooms) && !HasKind(rooms, r.kind)
  {
    var all := rooms + [r];
    if DistinctKinds(all) {
      forall i, j | 0 <= i < j < |rooms| ensures rooms[i].kind != rooms[j].kind {
        assert all[i].kind != all[j].kind;
      }
      forall x | x in rooms ensures x.kind != r.kind {
        var i :| 0 <= i < |rooms| && rooms[i] == x;
        assert all[i].kind != all[|rooms|].kind;
      }
    }
  }

  // What replacing stores: one room per counted category, exactly as entered.
  ghost predicate Stores(counted: seq<WizardRoom>, rooms: map<Category, Room>) {
    && (forall k :: k in rooms <==> HasKind(counted, k))
    && (forall r :: r in counted ==> r.kind in rooms && rooms[r.kind] == Materialized(r))
  }

  /** Replacing the rooms succeeds exactly when the counted categories are distinct. */
  lemma {:induction false} ReplacedExact(counted: seq<WizardRoom>)
    ensures Replaced(counted).Some? <==> DistinctKinds(counted)
    ensures Replaced(counted).Some? ==> Stores(counted, Replaced(counted).value)
  {
    if counted != [] {
      var before, r := counted[..|counted| - 1], counted[|counted| - 1];
      assert counted == before + [r];
      ReplacedExact(before);
      HasKindSnoc(before, r);
      DistinctSnoc(before, r);
      if Replaced(counted).Some? {
        forall x | x in before ensures x.kind != r.kind {
          assert HasKind(before, x.kind);
        }
      }
    }
  }

  // ---- bookability ----

  predicate Priced(r: Room, policy: Policy) {
    (Sells(policy, Hourly) ==> r.hourly.Some?) && (Sells(policy, FullDay) ==> r.fullday.Some?)
  }

  ghost predicate AllPriced(rooms: map<Category, Room>, policy: Policy) {
    rooms != map[] && forall k :: k in rooms ==> Priced(rooms[k], policy)
  }

  ghost predicate Bookable(p: Property) { p.policy.Some? && AllPriced(p.rooms, p.policy.value) }

  predicate Positive(rate: Option<int>) { rate.Some? ==> rate.value > 0 }

  ghost predicate RatesPositive(rooms: map<Category, Room>) {
    forall k :: k in rooms ==> Positive(rooms[k].hourly) && Positive(rooms[k].fullday)
  }

  // To half a paisa, halves going up.
  predicate InPaise(rupees: Option<real>, paise: Option<int>) {
    && (rupees.Some? <==> paise.Some?)
    && (rupees.Some? && paise.Some? ==> -0.5 < paise.value as real - 100.0 * rupees.value <= 0.5)
  }

  ghost predicate AsEntered(r: WizardRoom, room: Room) {
    && room.count == r.count && room.maxOccupancy == r.maxOccupancy
    && InPaise(r.hourly, room.hourly) && InPaise(r.fullday, room.fullday)
  }

  lemma MaterializedAsEntered(r: WizardRoom)
    ensures AsEntered(r, Materialized(r))
  {
  }

  lemma PaisePositive(rupees: real)
    requires rupees >= 1.0
    ensures Paise(rupees) > 0
  {
  }

  /** Materializing a complete step 3 with distinct counted categories makes every counted room
      as it was entered, rates in paise, and prices it for everything the policy sells. */
  lemma MaterializedPriced(b: Basics, s: RoomsAndRules, c: Compliance)
    requires Complete(b, s, c) && RoomsInRange(s) && Counted(s.rooms) != [] && DistinctKinds(Counted(s.rooms))
    ensures var rooms := Replaced(Counted(s.rooms));
            && rooms.Some? && AllPriced(rooms.value, b.policy) && RatesPositive(rooms.value)
            && (forall r :: r in s.rooms && r.count > 0 ==>
                 r.kind in rooms.value && AsEntered(r, rooms.value[r.kind]))
            && (forall k :: k in rooms.value ==> exists r :: r in s.rooms && r.count > 0 && r.kind == k)
  {
    CountedIn(s.rooms);
    var counted := Counted(s.rooms);
    ReplacedExact(counted);
    var rooms := Replaced(counted).value;
    assert counted[0] in counted;
    assert counted[0].kind in rooms;
    forall r | r in s.rooms && r.count > 0 ensures r.kind in rooms && AsEntered(r, rooms[r.kind]) {
      assert r in counted;
      MaterializedAsEntered(r);
    }
    forall k | k in rooms ensures exists r :: r in s.rooms && r.count > 0 && r.kind == k {
      assert HasKind(counted, k);
      var r :| r in counted && r.kind == k;
    }
    forall k | k in rooms ensures Priced(rooms[k], b.policy) && Positive(rooms[k].hourly) &&
      Positive(rooms[k].fullday) {
      assert HasKind(counted, k);
      var r :| r in counted && r.kind == k;
      assert WizardPriced(b.policy, r) && RoomInRange(r);
      if r.hourly.Some? { PaisePositive(r.hourly.value); }
      if r.fullday.Some? { PaisePositive(r.fullday.value); }
    }
  }
}
