/**
 Onboarding and moderation under arbitrary interleaving. Every request reads the property
 and checks it (`Ask`), and writes later (`Do`), whatever has happened in between. A
 submission writes twice: status and policy, then the rooms. None of the code's writes
 tests the row it changes; `Guards` says which ones would.
 */
module OnboardingProtocol {
  import opened Common
  import opened Money
  import opened Properties
  import opened Onboarding

  datatype Verdict = Approving | Rejecting | Revising

  // What a request still has to write.
  datatype Task =
    | SubmitWrite(from: PropertyStatus, basics: Basics, rooms: RoomsAndRules)
    | ReplaceWrite(rooms: RoomsAndRules)
    | ModerateWrite(verdict: Verdict, round: nat)
    | SaveWrite(wizard: Wizard)
    | ComplianceWrite(compliance: Compliance)

  // `reviews` counts how often the property has been put up for review.
  datatype World = World(p: Property, tasks: seq<Task>, reviews: nat)

  datatype Move = Ask(act: Act) | Do(index: nat)

  // submission: its first write tests the status it read. moderation: the write tests
  // pending_review. round: it tests the revision count it read. save: the status again.
  datatype Guards = Guards(submission: bool, moderation: bool, round: bool, save: bool)

  const CODE_GUARDS := Guards(false, false, false, false)

  function VerdictOf(a: Act): Verdict
    requires a.Approve? || a.Reject? || a.RequestRevision?
  {
    if a.Approve? then Approving else if a.Reject? then Rejecting else Revising
  }

  function SubmitTask(p: Property): seq<Task> {
    var m := Materialize(p);
    if m.Ok? then [SubmitWrite(p.status, m.value.0, m.value.1)] else []
  }

  // The guards of each request, evaluated on the row it reads.
  function Reads(p: Property, a: Act): seq<Task> {
    match a
    case Submit => if p.status == Draft then SubmitTask(p) else []
    case Revise => if p.status == NeedsRevision then SubmitTask(p) else []
    case Approve => if p.status == PendingReview then [ModerateWrite(Approving, p.revisionCount)] else []
    case Reject => if p.status == PendingReview then [ModerateWrite(Rejecting, p.revisionCount)] else []
    case RequestRevision => if p.status == PendingReview then [ModerateWrite(Revising, p.revisionCount)] else []
    case UpdateRoom(_, _) => []
    case UpdateSettings(_) => []
    case SaveCompliance(c) => if Editable(p) then [ComplianceWrite(c)] else []
    case _ => if SaveStep(p, a).1.Ok? then [SaveWrite(SaveStep(p, a).0.wizard)] else []
  }

  function Submitting(p: Property, t: Task): Property
    requires t.SubmitWrite?
  {
    p.(status := PendingReview, policy := Some(t.basics.policy), minHours := t.rooms.minHours, wizard := NO_WIZARD)
  }

  function Replacing(p: Property, s: RoomsAndRules): Property {
    var rooms := Replaced(Counted(s.rooms));
    if rooms.Some? then p.(rooms := rooms.value) else p
  }

  function Moderating(p: Property, t: Task): Property
    requires t.ModerateWrite?
  {
    if t.verdict == Approving then p.(status := Approved)
    else if t.verdict == Rejecting then p.(status := Rejected)
    else if t.round + 1 > REVISION_CAP then p.(status := Escalated)
    else p.(status := NeedsRevision, revisionCount := t.round + 1)
  }

  // Whether a write goes through: the code's always do.
  predicate Passes(g: Guards, p: Property, t: Task) {
    && (t.SubmitWrite? && g.submission ==> p.status == t.from)
    && (t.ModerateWrite? && g.moderation ==> p.status == PendingReview)
    && (t.ModerateWrite? && g.round ==> p.revisionCount == t.round)
    && ((t.SaveWrite? || t.ComplianceWrite?) && g.save ==> Editable(p))
  }

  function Written(p: Property, t: Task): Property {
    match t
    case SubmitWrite(_, _, _) => Submitting(p, t)
    case ReplaceWrite(s) => Replacing(p, s)
    case ModerateWrite(_, _) => Moderating(p, t)
    case SaveWrite(w) => p.(wizard := w)
    case ComplianceWrite(c) => p.(compliance := Some(c))
  }

  function RemoveAt<T>(s: seq<T>, k: nat): seq<T>
    requires k < |s|
  {
    s[..k] + s[k + 1..]
  }

  // Room and settings edits are single statements.
  function Next(g: Guards, w: World, m: Move): World {
    match m
    case Ask(a) =>
      if a.UpdateRoom? || a.UpdateSettings? then w.(p := Step(w.p, a).0) else w.(tasks := w.tasks + Reads(w.p, a))
    case Do(k) =>
      if k >= |w.tasks| then w
      else
        var t, left := w.tasks[k], RemoveAt(w.tasks, k);
        if !Passes(g, w.p, t) then w.(tasks := left)
        else if t.SubmitWrite? then World(Written(w.p, t), left + [ReplaceWrite(t.rooms)], w.reviews + 1)
        else World(Written(w.p, t), left, w.reviews)
  }

  function Run(g: Guards, owner: nat, ms: seq<Move>): World {
    if ms == [] then World(NewDraft(owner), [], 0) else Next(g, Run(g, owner, ms[..|ms| - 1]), ms[|ms| - 1])
  }

  // ---- requests one at a time ----

  function Drained(g: Guards, w: World): World { if w.tasks == [] then w else Next(g, w, Do(0)) }

  lemma DrainOne(g: Guards, p: Property, t: Task, n: nat)
    requires Passes(g, p, t)
    ensures Drained(g, World(p, [t], n))
            == if t.SubmitWrite? then World(Written(p, t), [ReplaceWrite(t.rooms)], n + 1)
              else World(Written(p, t), [], n)
  {
    assert RemoveAt([t], 0) == [];
  }

  lemma SoloSubmit(g: Guards, p: Property, n: nat, a: Act)
    requires a.Submit? || a.Revise?
    ensures var w := Drained(g, Drained(g, Next(g, World(p, [], n), Ask(a)))); w.p == Step(p, a).0 && w.tasks == []
  {
    var tasks := Reads(p, a);
    assert [] + tasks == tasks;
    if tasks != [] {
      DrainOne(g, p, tasks[0], n);
      DrainOne(g, Submitting(p, tasks[0]), ReplaceWrite(tasks[0].rooms), n + 1);
    }
  }

  // What a request reads is what it writes, once.
  lemma SingleTask(p: Property, a: Act)
    requires !a.Submit? && !a.Revise? && !a.UpdateRoom? && !a.UpdateSettings?
    ensures Reads(p, a) == [] ==> Step(p, a).0 == p
    ensures Reads(p, a) != [] ==>
      var t := Reads(p, a)[0]; Reads(p, a) == [t] && !t.SubmitWrite? && Written(p, t) == Step(p, a).0
  {
    if a.Approve? || a.Reject? || a.RequestRevision? {
      assert Step(p, a) == Moderate(p, a);
    } else {
      assert Step(p, a) == SaveStep(p, a);
    }
  }

  lemma TaskPasses(g: Guards, p: Property, a: Act)
    ensures forall t :: t in Reads(p, a) ==> Passes(g, p, t)
  {
  }

  lemma SoloSingle(g: Guards, p: Property, n: nat, a: Act)
    requires !a.Submit? && !a.Revise? && !a.UpdateRoom? && !a.UpdateSettings?
    ensures Drained(g, Next(g, World(p, [], n), Ask(a))) == World(Step(p, a).0, [], n)
  {
    var tasks := Reads(p, a);
    assert [] + tasks == tasks;
    SingleTask(p, a);
    if tasks != [] {
      assert tasks[0] in Reads(p, a);
      TaskPasses(g, p, a);
      DrainOne(g, p, tasks[0], n);
    }
  }

  /** A request whose writes follow its read at once does what the operation does on its own,
      whatever the guards: the service methods are the protocol without interleaving. */
  lemma SoloIsStep(g: Guards, p: Property, n: nat, a: Act)
    ensures var w := Drained(g, Drained(g, Next(g, World(p, [], n), Ask(a)))); w.p == Step(p, a).0 && w.tasks == []
  {
    if a.Submit? || a.Revise? {
      SoloSubmit(g, p, n, a);
    } else if !a.UpdateRoom? && !a.UpdateSettings? {
      SoloSingle(g, p, n, a);
    }
  }

  // ---- what every run keeps ----

  ghost predicate TaskOk(p: Property, t: Task) {
    match t
    case SubmitWrite(from, _, s) => from in {Draft, NeedsRevision} && RoomsInRange(s) && Counted(s.rooms) != []
    case ReplaceWrite(s) => p.status != Draft && RoomsInRange(s) && Counted(s.rooms) != []
    case ModerateWrite(_, round) => p.status != Draft && round <= REVISION_CAP
    case SaveWrite(w) => WizardOk(w)
    case ComplianceWrite(_) => true
  }

  ghost predicate Healthy(w: World) { Sound(w.p) && forall t :: t in w.tasks ==> TaskOk(w.p, t) }

  lemma ReplacingSound(p: Property, s: RoomsAndRules)
    requires Sound(p) && p.status != Draft && RoomsInRange(s)
    ensures Sound(Replacing(p, s))
  {
    var counted := Counted(s.rooms);
    ReplacedExact(counted);
    CountedIn(s.rooms);
    if Replaced(counted).Some? {
      StoredPositive(counted, Replaced(counted).value);
    }
  }

  lemma StoredPositive(counted: seq<WizardRoom>, rooms: map<Category, Room>)
    requires Stores(counted, rooms) && forall r :: r in counted ==> RoomInRange(r)
    ensures RatesPositive(rooms)
  {
    forall k | k in rooms ensures Positive(rooms[k].hourly) && Positive(rooms[k].fullday) {
      assert HasKind(counted, k);
      var r :| r in counted && r.kind == k;
      assert RoomInRange(r);
      if r.hourly.Some? { PaisePositive(r.hourly.value); }
      if r.fullday.Some? { PaisePositive(r.fullday.value); }
    }
  }

  lemma WrittenSound(p: Property, t: Task)
    requires Sound(p) && TaskOk(p, t)
    ensures Sound(Written(p, t)) && (p.status != Draft ==> Written(p, t).status != Draft)
    ensures t.SubmitWrite? ==> TaskOk(Written(p, t), ReplaceWrite(t.rooms))
  {
    if t.ReplaceWrite? {
      ReplacingSound(p, t.rooms);
    }
  }

  lemma ReadsOk(p: Property, a: Act)
    requires Sound(p)
    ensures forall t :: t in Reads(p, a) ==> TaskOk(p, t)
  {
  }

  lemma EditSound(p: Property, a: Act)
    requires Sound(p) && (a.UpdateRoom? || a.UpdateSettings?)
    ensures Sound(Step(p, a).0) && Step(p, a).0.status == p.status
  {
    if a.UpdateRoom? && EditInRange(a.edit) && a.kind in p.rooms {
      EditKeepsRates(p.rooms, a.kind, a.edit);
    }
  }

  lemma DoKeeps(g: Guards, w: World, k: nat)
    requires Healthy(w) && k < |w.tasks|
    ensures Healthy(Next(g, w, Do(k)))
  {
    var t, left := w.tasks[k], RemoveAt(w.tasks, k);
    assert t in w.tasks && forall u :: u in left ==> u in w.tasks;
    WrittenSound(w.p, t);
    forall u | u in left ensures TaskOk(w.p, u) && TaskOk(Written(w.p, t), u) {
      assert TaskOk(w.p, u);
    }
  }

  lemma NextKeeps(g: Guards, w: World, m: Move)
    requires Healthy(w)
    ensures Healthy(Next(g, w, m))
  {
    if m.Do? {
      if m.index < |w.tasks| {
        DoKeeps(g, w, m.index);
      }
    } else if m.act.UpdateRoom? || m.act.UpdateSettings? {
      EditSound(w.p, m.act);
    } else {
      ReadsOk(w.p, m.act);
    }
  }

  lemma {:induction false} RunOk(g: Guards, owner: nat, ms: seq<Move>)
    ensures Healthy(Run(g, owner, ms))
  {
    if ms != [] {
      RunOk(g, owner, ms[..|ms| - 1]);
      NextKeeps(g, Run(g, owner, ms[..|ms| - 1]), ms[|ms| - 1]);
    }
  }

  // ---- bookability ----

  // Rooms still to be replaced by some submission.
  ghost predicate Outstanding(tasks: seq<Task>) { exists t :: t in tasks && t.ReplaceWrite? }

  // Whatever is approved is bookable, and so is whatever has been submitted and settled.
  ghost predicate Good(w: World) {
    && (w.p.status == Approved ==> Bookable(w.p))
    && (w.p.status != Draft && !Outstanding(w.tasks) ==> Bookable(w.p))
  }

  ghost predicate GoodRun(g: Guards, owner: nat, ms: seq<Move>) {
    Good(Run(g, owner, ms)) && (ms != [] ==> GoodRun(g, owner, ms[..|ms| - 1]))
  }

  // The rooms entered have distinct categories and a rate for all the property now sells; or
  // they will be refused, and the rooms already there have.
  ghost predicate CleanFor(p: Property, s: RoomsAndRules)
    requires p.policy.Some?
  {
    if DistinctKinds(Counted(s.rooms)) then forall r :: r in Counted(s.rooms) ==> WizardPriced(p.policy.value, r)
    else AllPriced(p.rooms, p.policy.value)
  }

  // No approval goes through while rooms are still to be replaced, unless those there are
  // priced; and the last replacement, or one on an approved property, is clean.
  ghost predicate SafeMove(g: Guards, w: World, m: Move)
    requires Healthy(w)
  {
    m.Do? && m.index < |w.tasks| && Passes(g, w.p, w.tasks[m.index]) ==>
      var t, left := w.tasks[m.index], RemoveAt(w.tasks, m.index);
      && (t.ModerateWrite? && t.verdict == Approving && Outstanding(left) ==> Bookable(w.p))
      && (t.ReplaceWrite? && (w.p.status == Approved || !Outstanding(left)) ==>
        w.p.policy.Some? && CleanFor(w.p, t.rooms))
  }

  ghost predicate SafeRun(g: Guards, owner: nat, ms: seq<Move>) {
    ms != [] ==>
      && SafeRun(g, owner, ms[..|ms| - 1])
      && Healthy(Run(g, owner, ms[..|ms| - 1])) && SafeMove(g, Run(g, owner, ms[..|ms| - 1]), ms[|ms| - 1])
  }

  lemma PricedWhenEntered(counted: seq<WizardRoom>, rooms: map<Category, Room>, policy: Policy)
    requires Stores(counted, rooms) && counted != []
    ensures AllPriced(rooms, policy) <==> forall r :: r in counted ==> WizardPriced(policy, r)
  {
    assert counted[0] in counted && counted[0].kind in rooms;
    if AllPriced(rooms, policy) {
      forall r | r in counted ensures WizardPriced(policy, r) {
        assert rooms[r.kind] == Materialized(r) && Priced(rooms[r.kind], policy);
      }
    }
    if forall r :: r in counted ==> WizardPriced(policy, r) {
      forall k | k in rooms ensures Priced(rooms[k], policy) {
        assert HasKind(counted, k);
        var r :| r in counted && r.kind == k;
        assert WizardPriced(policy, r);
      }
    }
  }

  // Replacing the rooms leaves a bookable property exactly when it is clean.
  lemma ReplacingExact(p: Property, s: RoomsAndRules)
    requires p.policy.Some? && Counted(s.rooms) != []
    ensures Bookable(Replacing(p, s)) <==> CleanFor(p, s)
  {
    var counted := Counted(s.rooms);
    ReplacedExact(counted);
    if DistinctKinds(counted) {
      PricedWhenEntered(counted, Replaced(counted).value, p.policy.value);
    }
  }

  lemma OutstandingKept(tasks: seq<Task>, k: nat)
    requires k < |tasks|
    ensures Outstanding(tasks) <==> tasks[k].ReplaceWrite? || Outstanding(RemoveAt(tasks, k))
  {
    var left := RemoveAt(tasks, k);
    assert forall t :: t in tasks <==> t == tasks[k] || t in left by {
      assert tasks == tasks[..k] + [tasks[k]] + tasks[k + 1..];
    }
  }

  lemma OutstandingSnoc(tasks: seq<Task>, t: Task)
    ensures Outstanding(tasks + [t]) <==> Outstanding(tasks) || t.ReplaceWrite?
  {
    assert forall u :: u in tasks + [t] <==> u in tasks || u == t;
  }

  lemma AskGood(g: Guards, w: World, a: Act)
    requires Healthy(w) && Good(w)
    ensures Good(Next(g, w, Ask(a)))
  {
    if a.UpdateRoom? {
      if EditInRange(a.edit) && a.kind in w.p.rooms && Bookable(w.p) {
        EditKeepsBookable(w.p, a.kind, a.edit);
      }
    } else if !a.UpdateSettings? {
      assert forall t :: t in Reads(w.p, a) ==> !t.ReplaceWrite?;
      assert Outstanding(w.tasks) <==> Outstanding(w.tasks + Reads(w.p, a)) by {
        assert forall t :: t in w.tasks + Reads(w.p, a) <==> t in w.tasks || t in Reads(w.p, a);
      }
    }
  }

  lemma DoGood(g: Guards, w: World, k: nat)
    requires Healthy(w) && Good(w) && k < |w.tasks| && Passes(g, w.p, w.tasks[k])
    ensures Good(Next(g, w, Do(k))) <==> SafeMove(g, w, Do(k))
  {
    var t, left := w.tasks[k], RemoveAt(w.tasks, k);
    assert t in w.tasks && TaskOk(w.p, t);
    OutstandingKept(w.tasks, k);
    if t.SubmitWrite? {
      OutstandingSnoc(left, ReplaceWrite(t.rooms));
    } else if t.ReplaceWrite? {
      ReplacingExact(w.p, t.rooms);
    }
  }

  /** Exactly: in a run, whatever is approved or has been submitted and settled is bookable at
      every moment if and only if no approval is written while the rooms of a submission are
      still to be replaced (unless those there are priced), and the replacement that settles
      it, or changes an approved property, is clean. */
  lemma {:induction false} GuaranteeExact(g: Guards, owner: nat, ms: seq<Move>)
    ensures GoodRun(g, owner, ms) <==> SafeRun(g, owner, ms)
  {
    if ms != [] {
      var before, m := ms[..|ms| - 1], ms[|ms| - 1];
      GuaranteeExact(g, owner, before);
      RunOk(g, owner, before);
      if Good(Run(g, owner, before)) {
        NextGood(g, Run(g, owner, before), m);
      }
    }
  }

  lemma NextGood(g: Guards, w: World, m: Move)
    requires Healthy(w) && Good(w)
    ensures Good(Next(g, w, m)) <==> SafeMove(g, w, m)
  {
    if m.Ask? {
      AskGood(g, w, m.act);
    } else if m.index < |w.tasks| {
      if Passes(g, w.p, w.tasks[m.index]) {
        DoGood(g, w, m.index);
      } else {
        assert w.tasks[m.index] in w.tasks;
        OutstandingKept(w.tasks, m.index);
      }
    }
  }

  // ---- bookability of what is approved, exactly ----

  ghost predicate ApprovedGood(w: World) { w.p.status == Approved ==> Bookable(w.p) }

  ghost predicate ApprovedAlways(g: Guards, owner: nat, ms: seq<Move>) {
    ApprovedGood(Run(g, owner, ms)) && (ms != [] ==> ApprovedAlways(g, owner, ms[..|ms| - 1]))
  }

  // An approval finds rooms priced for the policy, and rooms replaced on an approved property
  // are clean.
  ghost predicate SafeApproval(g: Guards, w: World, m: Move)
    requires Healthy(w)
  {
    m.Do? && m.index < |w.tasks| && Passes(g, w.p, w.tasks[m.index]) ==>
      var t := w.tasks[m.index];
      && (t.ModerateWrite? && t.verdict == Approving ==> Bookable(w.p))
      && (t.ReplaceWrite? && w.p.status == Approved ==> w.p.policy.Some? && CleanFor(w.p, t.rooms))
  }

  ghost predicate SafeApprovals(g: Guards, owner: nat, ms: seq<Move>) {
    ms != [] ==>
      && SafeApprovals(g, owner, ms[..|ms| - 1])
      && Healthy(Run(g, owner, ms[..|ms| - 1])) && SafeApproval(g, Run(g, owner, ms[..|ms| - 1]), ms[|ms| - 1])
  }

  lemma AskApproved(g: Guards, w: World, a: Act)
    requires Healthy(w) && ApprovedGood(w)
    ensures ApprovedGood(Next(g, w, Ask(a)))
  {
    if a.UpdateRoom? && EditInRange(a.edit) && a.kind in w.p.rooms && Bookable(w.p) {
      EditKeepsBookable(w.p, a.kind, a.edit);
    }
  }

  lemma DoApproved(g: Guards, w: World, k: nat)
    requires Healthy(w) && ApprovedGood(w) && k < |w.tasks| && Passes(g, w.p, w.tasks[k])
    ensures ApprovedGood(Next(g, w, Do(k))) <==> SafeApproval(g, w, Do(k))
  {
    var t := w.tasks[k];
    assert t in w.tasks && TaskOk(w.p, t);
    if t.ReplaceWrite? {
      ReplacingExact(w.p, t.rooms);
    }
  }

  lemma NextApproved(g: Guards, w: World, m: Move)
    requires Healthy(w) && ApprovedGood(w)
    ensures ApprovedGood(Next(g, w, m)) <==> SafeApproval(g, w, m)
  {
    if m.Ask? {
      AskApproved(g, w, m.act);
    } else if m.index < |w.tasks| && Passes(g, w.p, w.tasks[m.index]) {
      DoApproved(g, w, m.index);
    }
  }

  /** Exactly: in a run an approved property is bookable at every moment if and only if every
      approval written finds the property with rooms priced for its policy, and every
      replacement written on an approved property is clean. */
  lemma {:induction false} ApprovalsExact(g: Guards, owner: nat, ms: seq<Move>)
    ensures ApprovedAlways(g, owner, ms) <==> SafeApprovals(g, owner, ms)
  {
    if ms != [] {
      var before := ms[..|ms| - 1];
      ApprovalsExact(g, owner, before);
      RunOk(g, owner, before);
      if ApprovedGood(Run(g, owner, before)) {
        NextApproved(g, Run(g, owner, before), ms[|ms| - 1]);
      }
    }
  }

  // A run that keeps every submission bookable too keeps what is approved so.
  lemma {:induction false} GuaranteeCovers(g: Guards, owner: nat, ms: seq<Move>)
    requires SafeRun(g, owner, ms)
    ensures SafeApprovals(g, owner, ms)
  {
    GuaranteeExact(g, owner, ms);
    GoodApproved(g, owner, ms);
    ApprovalsExact(g, owner, ms);
  }

  lemma {:induction false} GoodApproved(g: Guards, owner: nat, ms: seq<Move>)
    requires GoodRun(g, owner, ms)
    ensures ApprovedAlways(g, owner, ms)
  {
    if ms != [] {
      GoodApproved(g, owner, ms[..|ms| - 1]);
    }
  }

  /** In every run with safe approvals an approved property has a room type, and a booking of
      any of its room types is refused for policy or price only when the policy does not sell
      that kind of booking; otherwise it has a positive rate. */
  lemma {:induction false} ApprovedIsBookable(g: Guards, owner: nat, ms: seq<Move>, kind: Category, wanted: BookingType)
    requires SafeApprovals(g, owner, ms) && Run(g, owner, ms).p.status == Approved
    ensures var p := Run(g, owner, ms).p;
            && p.rooms != map[] && p.policy.Some? && HoursOk(p.minHours)
            && (kind in p.rooms ==>
                 && (RateFor(p, kind, wanted).Ok? <==> Sells(p.policy.value, wanted))
                 && (RateFor(p, kind, wanted).Ok? ==> RateFor(p, kind, wanted).value > 0))
  {
    ApprovalsExact(g, owner, ms);
    RunOk(g, owner, ms);
    var p := Run(g, owner, ms).p;
    assert Bookable(p) && (kind in p.rooms ==> Priced(p.rooms[kind], p.policy.value));
  }
}
