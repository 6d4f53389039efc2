/** Which tests on the onboarding writes buy which guarantee, exactly, and the runs that fail without them. */
module OnboardingGuards {
  import opened Common
  import opened Money
  import opened Properties
  import opened Onboarding
  import opened OnboardingProtocol

  // ---- what the guarantees say ----

  predicate Decided(s: PropertyStatus) { s == Approved || s == Rejected || s == Escalated }

  ghost predicate DecisionsFinal(g: Guards) {
    forall owner: nat, ms: seq<Move>, m: Move {:trigger Next(g, Run(g, owner, ms), m)} ::
      Decided(Run(g, owner, ms).p.status) ==> Next(g, Run(g, owner, ms), m).p.status == Run(g, owner, ms).p.status
  }

  // Nothing a moderator looks at or a guest books under changes once submitted.
  predicate SameFile(p: Property, q: Property) {
    q.wizard == p.wizard && q.compliance == p.compliance && q.policy == p.policy
  }

  ghost predicate FrozenUnderReview(g: Guards) {
    forall owner: nat, ms: seq<Move>, m: Move {:trigger Next(g, Run(g, owner, ms), m)} ::
      !Editable(Run(g, owner, ms).p) ==> SameFile(Run(g, owner, ms).p, Next(g, Run(g, owner, ms), m).p)
  }

  ghost predicate FourReviews(g: Guards) {
    forall owner: nat, ms: seq<Move> {:trigger Run(g, owner, ms)} :: Run(g, owner, ms).reviews <= 4
  }

  // ---- with the guards they hold ----

  lemma FinalStep(g: Guards, w: World, m: Move)
    requires g.submission && g.moderation && Healthy(w) && Decided(w.p.status)
    ensures Next(g, w, m).p.status == w.p.status
  {
    if m.Do? && m.index < |w.tasks| {
      assert w.tasks[m.index] in w.tasks && TaskOk(w.p, w.tasks[m.index]);
    }
  }

  lemma FrozenStep(g: Guards, w: World, m: Move)
    requires g.submission && g.save && Healthy(w) && !Editable(w.p)
    ensures SameFile(w.p, Next(g, w, m).p)
  {
    if m.Do? && m.index < |w.tasks| {
      assert w.tasks[m.index] in w.tasks && TaskOk(w.p, w.tasks[m.index]);
    }
  }

  ghost predicate Rounds(w: World) {
    && w.reviews <= w.p.revisionCount + 1
    && (w.p.status == NeedsRevision ==> w.reviews <= w.p.revisionCount)
    && (w.p.status == Draft ==> w.reviews == 0)
  }

  lemma RoundsStep(g: Guards, w: World, m: Move)
    requires g.submission && g.round && Healthy(w) && Rounds(w)
    ensures Rounds(Next(g, w, m))
  {
    if m.Do? {
      if m.index < |w.tasks| {
        assert w.tasks[m.index] in w.tasks && TaskOk(w.p, w.tasks[m.index]);
      }
    } else {
      assert Next(g, w, m).p.status == w.p.status && Next(g, w, m).p.revisionCount == w.p.revisionCount;
    }
  }

  lemma {:induction false} RunRounds(g: Guards, owner: nat, ms: seq<Move>)
    requires g.submission && g.round
    ensures Rounds(Run(g, owner, ms))
  {
    if ms != [] {
      var before := ms[..|ms| - 1];
      RunRounds(g, owner, before);
      RunOk(g, owner, before);
      RoundsStep(g, Run(g, owner, before), ms[|ms| - 1]);
    }
  }

  // ---- building runs ----

  const GOOD_ROOMS := RoomsAndRules([WizardRoom(Ac, 1, Some(100.0), Some(500.0), None)], Some(1), None, false)

  const TWO_AC_ROOMS := RoomsAndRules(
    [WizardRoom(Ac, 1, Some(100.0), Some(500.0), None), WizardRoom(Ac, 2, Some(100.0), Some(500.0), None)],
    Some(1), None, false)

  const PAPERS := Compliance(false, {FireSafetyCert})

  function Form(policy: Policy): Basics { Basics(policy, Individual, false) }

  ghost predicate Fine(s: RoomsAndRules) {
    && RoomsInRange(s) && Counted(s.rooms) != []
    && forall policy: Policy :: Complete(Form(policy), s, PAPERS)
  }

  lemma CountedOne()
    ensures Counted(GOOD_ROOMS.rooms) == GOOD_ROOMS.rooms
  {
    assert GOOD_ROOMS.rooms[..0] == [];
    assert Counted(GOOD_ROOMS.rooms[..0]) == [];
  }

  lemma CountedTwo()
    ensures Counted(TWO_AC_ROOMS.rooms) == TWO_AC_ROOMS.rooms && !DistinctKinds(TWO_AC_ROOMS.rooms)
  {
    var rooms := TWO_AC_ROOMS.rooms;
    assert rooms[..1] == [rooms[0]] && [rooms[0]][..0] == [];
    assert Counted(rooms[..1]) == [rooms[0]];
    assert rooms[0].kind == rooms[1].kind;
  }

  lemma GoodRoomsFine()
    ensures Fine(GOOD_ROOMS)
  {
    CountedOne();
  }

  lemma TwoAcRoomsFine()
    ensures Fine(TWO_AC_ROOMS)
  {
    CountedTwo();
  }

  function FullWizard(policy: Policy, s: RoomsAndRules): Wizard { Wizard(Some(Form(policy)), true, Some(s), true) }

  lemma FullMaterializes(p: Property, policy: Policy, s: RoomsAndRules)
    requires p.wizard == FullWizard(policy, s) && p.compliance == Some(PAPERS) && Fine(s)
    ensures Materialize(p) == Result.Ok((Form(policy), s))
  {
    ConditionalFieldsExact(Form(policy), s, PAPERS);
  }

  lemma RunSnoc(g: Guards, owner: nat, ms: seq<Move>, m: Move)
    ensures Run(g, owner, ms + [m]) == Next(g, Run(g, owner, ms), m)
  {
    assert (ms + [m])[..|ms|] == ms;
  }

  // A request is read; its tasks join the queue.
  lemma ThenAsk(g: Guards, ms: seq<Move>, w: World, a: Act, tasks: seq<Task>) returns (more: seq<Move>)
    requires Run(g, 0, ms) == w && !a.UpdateRoom? && !a.UpdateSettings? && Reads(w.p, a) == tasks
    ensures Run(g, 0, more) == w.(tasks := w.tasks + tasks)
  {
    more := ms + [Ask(a)];
    RunSnoc(g, 0, ms, Ask(a));
  }

  // The k-th task is written.
  lemma ThenDo(g: Guards, ms: seq<Move>, w: World, k: nat, left: seq<Task>) returns (more: seq<Move>)
    requires Run(g, 0, ms) == w && k < |w.tasks| && Passes(g, w.p, w.tasks[k]) && !w.tasks[k].SubmitWrite?
    requires left == RemoveAt(w.tasks, k)
    ensures Run(g, 0, more) == World(Written(w.p, w.tasks[k]), left, w.reviews)
  {
    more := ms + [Do(k)];
    RunSnoc(g, 0, ms, Do(k));
  }

  // The k-th task, a submission, is written: its rooms join the queue.
  lemma ThenSubmit(g: Guards, ms: seq<Move>, w: World, k: nat, left: seq<Task>) returns (more: seq<Move>)
    requires Run(g, 0, ms) == w && k < |w.tasks| && Passes(g, w.p, w.tasks[k]) && w.tasks[k].SubmitWrite?
    requires left == RemoveAt(w.tasks, k)
    ensures Run(g, 0, more) == World(Written(w.p, w.tasks[k]), left + [ReplaceWrite(w.tasks[k].rooms)], w.reviews + 1)
  {
    more := ms + [Do(k)];
    RunSnoc(g, 0, ms, Do(k));
  }

  lemma DropLast<T>(s: seq<T>, t: T)
    ensures RemoveAt(s + [t], |s|) == s
  {
  }

  // Read and written before anything else happens, whatever else is queued.
  lemma ThenSave(g: Guards, ms: seq<Move>, w: World, a: Act, t: Task) returns (more: seq<Move>)
    requires Run(g, 0, ms) == w && Reads(w.p, a) == [t] && (t.SaveWrite? || t.ComplianceWrite?) && Passes(g, w.p, t)
    requires !a.UpdateRoom? && !a.UpdateSettings?
    ensures Run(g, 0, more) == w.(p := Written(w.p, t))
  {
    more := ThenAsk(g, ms, w, a, [t]);
    DropLast(w.tasks, t);
    more := ThenDo(g, more, w.(tasks := w.tasks + [t]), |w.tasks|, w.tasks);
  }

  // The four wizard steps saved one after the other.
  lemma ThenFill(g: Guards, ms: seq<Move>, w: World, policy: Policy, s: RoomsAndRules) returns (more: seq<Move>)
    requires Run(g, 0, ms) == w && Editable(w.p) && Fine(s) && w.p.wizard == NO_WIZARD
    ensures Run(g, 0, more) == w.(p := w.p.(wizard := FullWizard(policy, s)))
  {
    var w1 := NO_WIZARD.(basics := Some(Form(policy)));
    var w2 := w1.(location := true);
    var w3 := w2.(rooms := Some(s));
    more := ThenSave(g, ms, w, SaveBasics(Form(policy)), SaveWrite(w1));
    more := ThenSave(g, more, w.(p := w.p.(wizard := w1)), SaveLocation, SaveWrite(w2));
    more := ThenSave(g, more, w.(p := w.p.(wizard := w2)), SaveRooms(s), SaveWrite(w3));
    more := ThenSave(g, more, w.(p := w.p.(wizard := w3)), SavePhotos, SaveWrite(FullWizard(policy, s)));
  }

  function Filled(policy: Policy, s: RoomsAndRules): Property {
    NewDraft(0).(wizard := FullWizard(policy, s), compliance := Some(PAPERS))
  }

  lemma FilledRun(g: Guards, policy: Policy, s: RoomsAndRules) returns (ms: seq<Move>)
    requires Fine(s)
    ensures Run(g, 0, ms) == World(Filled(policy, s), [], 0)
  {
    ms := [];
    var w := World(NewDraft(0), [], 0);
    ms := ThenSave(g, ms, w, SaveCompliance(PAPERS), ComplianceWrite(PAPERS));
    ms := ThenFill(g, ms, World(NewDraft(0).(compliance := Some(PAPERS)), [], 0), policy, s);
  }

  function FirstSubmit(policy: Policy, s: RoomsAndRules): Task { SubmitWrite(Draft, Form(policy), s) }

  function Reviewed(policy: Policy, s: RoomsAndRules): Property {
    Submitting(Filled(policy, s), FirstSubmit(policy, s))
  }

  lemma FirstSubmitRead(policy: Policy, s: RoomsAndRules)
    requires Fine(s)
    ensures Reads(Filled(policy, s), Submit) == [FirstSubmit(policy, s)]
  {
    FullMaterializes(Filled(policy, s), policy, s);
  }

  // Submitted: status written, rooms still to be replaced.
  lemma HalfSubmitted(g: Guards, policy: Policy, s: RoomsAndRules) returns (ms: seq<Move>)
    requires Fine(s)
    ensures Run(g, 0, ms) == World(Reviewed(policy, s), [ReplaceWrite(s)], 1)
  {
    ms := FilledRun(g, policy, s);
    FirstSubmitRead(policy, s);
    var t := FirstSubmit(policy, s);
    assert [] + [t] == [t];
    ms := ThenAsk(g, ms, World(Filled(policy, s), [], 0), Submit, [t]);
    assert RemoveAt([t], 0) == [] && [] + [ReplaceWrite(s)] == [ReplaceWrite(s)];
    ms := ThenSubmit(g, ms, World(Filled(policy, s), [t], 0), 0, []);
  }

  // ---- the failing runs of the code, and of any guards ----

  lemma AskVerdict(g: Guards, ms: seq<Move>, w: World, a: Act) returns (more: seq<Move>)
    requires Run(g, 0, ms) == w && w.p.status == PendingReview && (a.Approve? || a.Reject? || a.RequestRevision?)
    ensures Run(g, 0, more) == w.(tasks := w.tasks + [ModerateWrite(VerdictOf(a), w.p.revisionCount)])
  {
    more := ThenAsk(g, ms, w, a, [ModerateWrite(VerdictOf(a), w.p.revisionCount)]);
  }

  // An approval read and written with nothing in between, whatever else is queued.
  lemma ThenApprove(g: Guards, ms: seq<Move>, w: World) returns (more: seq<Move>)
    requires Run(g, 0, ms) == w && w.p.status == PendingReview
    ensures Run(g, 0, more) == w.(p := w.p.(status := Approved))
  {
    var a := ModerateWrite(Approving, w.p.revisionCount);
    more := AskVerdict(g, ms, w, Approve);
    DropLast(w.tasks, a);
    more := ThenDo(g, more, w.(tasks := w.tasks + [a]), |w.tasks|, w.tasks);
  }

  /** An approval written between the two writes of a submission as clean as can be leaves an
      approved property with no room, whatever tests the writes make. */
  lemma ApprovedInTheGap(g: Guards) returns (ms: seq<Move>)
    ensures Run(g, 0, ms).p.status == Approved && Run(g, 0, ms).p.rooms == map[]
    ensures DistinctKinds(Counted(GOOD_ROOMS.rooms))
  {
    GoodRoomsFine();
    CountedOne();
    ms := HalfSubmitted(g, Both, GOOD_ROOMS);
    ms := ThenApprove(g, ms, World(Reviewed(Both, GOOD_ROOMS), [ReplaceWrite(GOOD_ROOMS)], 1));
  }

  lemma TwoAcRefused(p: Property)
    ensures Replacing(p, TWO_AC_ROOMS) == p
  {
    CountedTwo();
    ReplacedExact(TWO_AC_ROOMS.rooms);
  }

  /** Two counted rooms of one category leave an approved property with no room, even when
      nothing interleaves. */
  lemma ApprovedWithoutRooms(g: Guards) returns (ms: seq<Move>)
    ensures Run(g, 0, ms).p.status == Approved && Run(g, 0, ms).p.rooms == map[] && Run(g, 0, ms).tasks == []
  {
    TwoAcRoomsFine();
    ms := HalfSubmitted(g, Both, TWO_AC_ROOMS);
    var p, r := Reviewed(Both, TWO_AC_ROOMS), ReplaceWrite(TWO_AC_ROOMS);
    TwoAcRefused(p);
    assert RemoveAt([r], 0) == [];
    ms := ThenDo(g, ms, World(p, [r], 1), 0, []);
    ms := ThenApprove(g, ms, World(p, [], 1));
  }

  // Two moderators read the same review: the second overturns the first.
  lemma ApproveThenReject(g: Guards, ms: seq<Move>, w: World) returns (more: seq<Move>)
    requires !g.moderation && w.p.status == PendingReview && Run(g, 0, ms) == w
    ensures var v := Run(g, 0, more); v.p.status == Approved && Next(g, v, Do(|w.tasks|)).p.status == Rejected
  {
    more := AskVerdict(g, ms, w, Reject);
    more := ThenApprove(g, more, w.(tasks := w.tasks + [ModerateWrite(Rejecting, w.p.revisionCount)]));
  }

  lemma DecisionOverturned(g: Guards, s: RoomsAndRules) returns (ms: seq<Move>, k: nat)
    requires !g.moderation && Fine(s)
    ensures Run(g, 0, ms).p.status == Approved && Next(g, Run(g, 0, ms), Do(k)).p.status == Rejected
  {
    k := 1;
    ms := HalfSubmitted(g, Both, s);
    ms := ApproveThenReject(g, ms, World(Reviewed(Both, s), [ReplaceWrite(s)], 1));
  }

  lemma AskSubmit(g: Guards, ms: seq<Move>, policy: Policy, s: RoomsAndRules, tasks: seq<Task>)
    returns (more: seq<Move>)
    requires Fine(s) && Run(g, 0, ms) == World(Filled(policy, s), tasks, 0)
    ensures Run(g, 0, more) == World(Filled(policy, s), tasks + [FirstSubmit(policy, s)], 0)
  {
    FirstSubmitRead(policy, s);
    more := ThenAsk(g, ms, World(Filled(policy, s), tasks, 0), Submit, [FirstSubmit(policy, s)]);
  }

  lemma WriteSubmit(g: Guards, ms: seq<Move>, f: Property, policy: Policy, s: RoomsAndRules, tasks: seq<Task>, k: nat,
          left: seq<Task>)
    returns (more: seq<Move>)
    requires Run(g, 0, ms) == World(f, tasks, 0) && k < |tasks| && tasks[k] == FirstSubmit(policy, s)
    requires (g.submission ==> f.status == Draft) && left == RemoveAt(tasks, k)
    ensures Run(g, 0, more) == World(Submitting(f, FirstSubmit(policy, s)), left + [ReplaceWrite(s)], 1)
  {
    more := ThenSubmit(g, ms, World(f, tasks, 0), k, left);
  }

  // The same task queued n times.
  function Copies(t: Task, n: nat): seq<Task> { if n == 0 then [] else Copies(t, n - 1) + [t] }

  lemma {:induction false} CopiesAre(t: Task, n: nat)
    ensures |Copies(t, n)| == n && forall i :: 0 <= i < n ==> Copies(t, n)[i] == t
  {
    if n > 0 {
      CopiesAre(t, n - 1);
    }
  }

  lemma CopiesTail(t: Task, n: nat, rest: seq<Task>, r: Task)
    requires n > 0
    ensures |Copies(t, n) + rest| > 0 && (Copies(t, n) + rest)[0] == t
    ensures RemoveAt(Copies(t, n) + rest, 0) == Copies(t, n - 1) + rest
    ensures Copies(t, n - 1) + rest + [r] == Copies(t, n - 1) + (rest + [r])
  {
    CopiesAre(t, n);
    CopiesAre(t, n - 1);
  }

  lemma CopiesAdded(tasks: seq<Task>, t: Task, n: nat)
    ensures n == 0 ==> tasks + Copies(t, n) == tasks
    ensures n > 0 ==> tasks + Copies(t, n - 1) + [t] == tasks + Copies(t, n)
  {
  }

  // The same request read n times over.
  lemma {:induction false} ThenAskMany(g: Guards, ms: seq<Move>, w: World, a: Act, t: Task, n: nat)
    returns (more: seq<Move>)
    requires Run(g, 0, ms) == w && !a.UpdateRoom? && !a.UpdateSettings? && Reads(w.p, a) == [t]
    ensures Run(g, 0, more) == w.(tasks := w.tasks + Copies(t, n))
  {
    more := ms;
    CopiesAdded(w.tasks, t, n);
    if n > 0 {
      more := ThenAskMany(g, ms, w, a, t, n - 1);
      more := ThenAsk(g, more, w.(tasks := w.tasks + Copies(t, n - 1)), a, [t]);
    }
  }

  // The same filled-in draft submitted n times from one reading.
  lemma ManySubmits(g: Guards, s: RoomsAndRules, n: nat) returns (ms: seq<Move>)
    requires Fine(s)
    ensures Run(g, 0, ms) == World(Filled(Both, s), Copies(FirstSubmit(Both, s), n), 0)
  {
    ms := FilledRun(g, Both, s);
    FirstSubmitRead(Both, s);
    ms := ThenAskMany(g, ms, World(Filled(Both, s), [], 0), Submit, FirstSubmit(Both, s), n);
    assert [] + Copies(FirstSubmit(Both, s), n) == Copies(FirstSubmit(Both, s), n);
  }

  lemma TwoSubmits(g: Guards, s: RoomsAndRules) returns (ms: seq<Move>)
    requires !g.submission && Fine(s)
    ensures Run(g, 0, ms) == World(Reviewed(Both, s), [FirstSubmit(Both, s), ReplaceWrite(s)], 1)
  {
    var t, r := FirstSubmit(Both, s), ReplaceWrite(s);
    ms := ManySubmits(g, s, 2);
    CopiesAre(t, 2);
    assert Copies(t, 2) == [t, t] && RemoveAt([t, t], 0) == [t] && [t] + [r] == [t, r];
    ms := WriteSubmit(g, ms, Filled(Both, s), Both, s, [t, t], 0, [t]);
  }

  // Submitted twice from one reading: the second write takes the approval back.
  lemma ApprovalTakenBack(g: Guards, s: RoomsAndRules) returns (ms: seq<Move>)
    requires !g.submission && Fine(s)
    ensures Run(g, 0, ms).p.status == Approved && Next(g, Run(g, 0, ms), Do(0)).p.status == PendingReview
  {
    ms := TwoSubmits(g, s);
    ms := ThenApprove(g, ms, World(Reviewed(Both, s), [FirstSubmit(Both, s), ReplaceWrite(s)], 1));
  }

  lemma SavesRead(f: Property, basics: Basics)
    requires Editable(f)
    ensures Reads(f, SavePhotos) == [SaveWrite(f.wizard.(photos := true))]
    ensures Reads(f, SaveBasics(basics)) == [SaveWrite(f.wizard.(basics := Some(basics)))]
  {
  }

  // A step saved late brings the wizard back under review.
  lemma LateSave(g: Guards, s: RoomsAndRules) returns (ms: seq<Move>)
    requires !g.save && Fine(s)
    ensures !Editable(Run(g, 0, ms).p) && Run(g, 0, ms).p.wizard == NO_WIZARD
    ensures Next(g, Run(g, 0, ms), Do(0)).p.wizard != NO_WIZARD
  {
    var f, t, v := Filled(Both, s), FirstSubmit(Both, s), SaveWrite(FullWizard(Both, s));
    ms := SaveRead(g, s);
    ms := AskSubmit(g, ms, Both, s, [v]);
    assert [v] + [t] == [v, t] && RemoveAt([v, t], 1) == [v] && [v] + [ReplaceWrite(s)] == [v, ReplaceWrite(s)];
    ms := WriteSubmit(g, ms, f, Both, s, [v, t], 1, [v]);
  }

  lemma SaveRead(g: Guards, s: RoomsAndRules) returns (ms: seq<Move>)
    requires Fine(s)
    ensures Run(g, 0, ms) == World(Filled(Both, s), [SaveWrite(FullWizard(Both, s))], 0)
  {
    var f, v := Filled(Both, s), SaveWrite(FullWizard(Both, s));
    ms := FilledRun(g, Both, s);
    SavesRead(f, Form(Both));
    assert [] + [v] == [v];
    ms := ThenAsk(g, ms, World(f, [], 0), SavePhotos, [v]);
  }

  // Read under one policy, then the policy is changed in the wizard.
  lemma PolicyChanged(g: Guards, s: RoomsAndRules) returns (ms: seq<Move>)
    requires Fine(s)
    ensures Run(g, 0, ms) == World(Filled(Both, s), [FirstSubmit(HourlyOnly, s)], 0)
  {
    var f, t := Filled(HourlyOnly, s), FirstSubmit(HourlyOnly, s);
    ms := FilledRun(g, HourlyOnly, s);
    ms := AskSubmit(g, ms, HourlyOnly, s, []);
    assert [] + [t] == [t];
    SavesRead(f, Form(Both));
    ms := ThenSave(g, ms, World(f, [t], 0), SaveBasics(Form(Both)), SaveWrite(Filled(Both, s).wizard));
  }

  // A second submission, read under another policy, changes the policy under review.
  lemma LateSubmission(g: Guards, s: RoomsAndRules) returns (ms: seq<Move>)
    requires !g.submission && Fine(s)
    ensures !Editable(Run(g, 0, ms).p) && Run(g, 0, ms).p.policy == Some(HourlyOnly)
    ensures Next(g, Run(g, 0, ms), Do(0)).p.policy == Some(Both)
  {
    var h, t, u := Filled(Both, s), FirstSubmit(HourlyOnly, s), FirstSubmit(Both, s);
    ms := PolicyChanged(g, s);
    ms := AskSubmit(g, ms, Both, s, [t]);
    assert [t] + [u] == [t, u] && RemoveAt([t, u], 0) == [u] && [u] + [ReplaceWrite(s)] == [u, ReplaceWrite(s)];
    ms := WriteSubmit(g, ms, h, HourlyOnly, s, [t, u], 0, [u]);
  }

  // Each remaining submission is written in turn, and counted.
  lemma {:induction false} SpendSubmits(g: Guards, ms: seq<Move>, w: World, t: Task, n: nat, rest: seq<Task>)
    returns (more: seq<Move>)
    requires !g.submission && t.SubmitWrite? && Run(g, 0, ms) == w && w.tasks == Copies(t, n) + rest
    ensures Run(g, 0, more).reviews == w.reviews + n
    decreases n
  {
    more := ms;
    if n > 0 {
      var r := ReplaceWrite(t.rooms);
      CopiesTail(t, n, rest, r);
      more := ThenSubmit(g, ms, w, 0, Copies(t, n - 1) + rest);
      var v := World(Written(w.p, t), Copies(t, n - 1) + (rest + [r]), w.reviews + 1);
      more := SpendSubmits(g, more, v, t, n - 1, rest + [r]);
    }
  }

  lemma FiveSubmits(g: Guards, s: RoomsAndRules) returns (ms: seq<Move>)
    requires !g.submission && Fine(s)
    ensures Run(g, 0, ms).reviews == 5
  {
    var t := FirstSubmit(Both, s);
    ms := ManySubmits(g, s, 5);
    assert Copies(t, 5) + [] == Copies(t, 5);
    ms := SpendSubmits(g, ms, World(Filled(Both, s), Copies(t, 5), 0), t, 5, []);
  }

  // ---- one revision number given out again and again ----

  const ASKED := ModerateWrite(Revising, 0)

  function Again(s: RoomsAndRules): Task { SubmitWrite(NeedsRevision, Form(Both), s) }

  // i requests for a revision, then j resubmissions, then what is left over.
  function Queue(s: RoomsAndRules, i: nat, j: nat, rest: seq<Task>): seq<Task> {
    Copies(ASKED, i) + Copies(Again(s), j) + rest
  }

  lemma QueueSteps(s: RoomsAndRules, n: nat, rest: seq<Task>)
    requires n > 0
    ensures |Queue(s, n, n, rest)| >= 2 * n && Queue(s, n, n, rest)[0] == ASKED
    ensures RemoveAt(Queue(s, n, n, rest), 0) == Queue(s, n - 1, n, rest)
    ensures |Queue(s, n - 1, n, rest)| >= n && Queue(s, n - 1, n, rest)[n - 1] == Again(s)
    ensures RemoveAt(Queue(s, n - 1, n, rest), n - 1) == Queue(s, n - 1, n - 1, rest)
    ensures Queue(s, n - 1, n - 1, rest) + [ReplaceWrite(s)] == Queue(s, n - 1, n - 1, rest + [ReplaceWrite(s)])
  {
    CopiesAre(ASKED, n);
    CopiesAre(ASKED, n - 1);
    CopiesAre(Again(s), n);
    CopiesAre(Again(s), n - 1);
  }

  // Sent back once more, under the number already given, and submitted once more.
  lemma SendBackOnce(g: Guards, ms: seq<Move>, w: World, s: RoomsAndRules, n: nat, rest: seq<Task>)
    returns (more: seq<Move>, v: World)
    requires !g.round && w.p.status == PendingReview && n > 0 && Run(g, 0, ms) == w && w.tasks == Queue(s, n, n, rest)
    ensures Run(g, 0, more) == v && v.p.status == PendingReview && v.reviews == w.reviews + 1
    ensures v.tasks == Queue(s, n - 1, n - 1, rest + [ReplaceWrite(s)])
  {
    QueueSteps(s, n, rest);
    more := ThenDo(g, ms, w, 0, Queue(s, n - 1, n, rest));
    var sent := World(Written(w.p, ASKED), Queue(s, n - 1, n, rest), w.reviews);
    more := ThenSubmit(g, more, sent, n - 1, Queue(s, n - 1, n - 1, rest));
    v := World(Written(sent.p, Again(s)), Queue(s, n - 1, n - 1, rest + [ReplaceWrite(s)]), w.reviews + 1);
  }

  lemma {:induction false} SendBackAgain(g: Guards, ms: seq<Move>, w: World, s: RoomsAndRules, n: nat, rest: seq<Task>)
    returns (more: seq<Move>)
    requires !g.round && w.p.status == PendingReview && Run(g, 0, ms) == w && w.tasks == Queue(s, n, n, rest)
    ensures Run(g, 0, more).reviews == w.reviews + n
    decreases n
  {
    more := ms;
    if n > 0 {
      var v: World;
      more, v := SendBackOnce(g, ms, w, s, n, rest);
      more := SendBackAgain(g, more, v, s, n - 1, rest + [ReplaceWrite(s)]);
    }
  }

  lemma RevisionRead(p: Property, s: RoomsAndRules)
    requires p.status == NeedsRevision && Materialize(p) == Result.Ok((Form(Both), s))
    ensures Reads(p, Revise) == [Again(s)]
  {
    assert SubmitTask(p) == [Again(s)];
  }

  // Submitted, and four moderators have asked for a first revision.
  lemma FourAsked(g: Guards, s: RoomsAndRules) returns (ms: seq<Move>, p: Property)
    requires Fine(s)
    ensures Run(g, 0, ms) == World(p, Copies(ASKED, 4), 1)
    ensures p.status == PendingReview && p.revisionCount == 0 && p.wizard == NO_WIZARD && p.compliance == Some(PAPERS)
  {
    var r := ReplaceWrite(s);
    ms := HalfSubmitted(g, Both, s);
    assert RemoveAt([r], 0) == [];
    ms := ThenDo(g, ms, World(Reviewed(Both, s), [r], 1), 0, []);
    p := Replacing(Reviewed(Both, s), s);
    ms := ThenAskMany(g, ms, World(p, [], 1), RequestRevision, ASKED, 4);
    assert [] + Copies(ASKED, 4) == Copies(ASKED, 4);
  }

  // The first of the four requests is written.
  lemma OneSentBack(g: Guards, s: RoomsAndRules) returns (ms: seq<Move>, back: Property)
    requires !g.round && Fine(s)
    ensures Run(g, 0, ms) == World(back, Copies(ASKED, 3), 1)
    ensures back.status == NeedsRevision && back.wizard == NO_WIZARD && back.compliance == Some(PAPERS)
  {
    var p: Property;
    ms, p := FourAsked(g, s);
    CopiesTail(ASKED, 4, [], ASKED);
    assert Copies(ASKED, 4) + [] == Copies(ASKED, 4) && Copies(ASKED, 3) + [] == Copies(ASKED, 3);
    ms := ThenDo(g, ms, World(p, Copies(ASKED, 4), 1), 0, Copies(ASKED, 3));
    back := Written(p, ASKED);
  }

  // The owner fills the wizard in again, and four resubmissions are read.
  lemma SentBack(g: Guards, s: RoomsAndRules) returns (ms: seq<Move>, full: Property)
    requires !g.round && Fine(s)
    ensures Run(g, 0, ms) == World(full, Queue(s, 3, 4, []), 1) && full.status == NeedsRevision
  {
    var back: Property;
    var three := Copies(ASKED, 3);
    ms, back := OneSentBack(g, s);
    ms := ThenFill(g, ms, World(back, three, 1), Both, s);
    full := back.(wizard := FullWizard(Both, s));
    FullMaterializes(full, Both, s);
    RevisionRead(full, s);
    ms := ThenAskMany(g, ms, World(full, three, 1), Revise, Again(s), 4);
    assert three + Copies(Again(s), 4) == Queue(s, 3, 4, []);
  }

  lemma FiveReviews(g: Guards, s: RoomsAndRules) returns (ms: seq<Move>)
    requires !g.round && Fine(s)
    ensures Run(g, 0, ms).reviews == 5
  {
    var full: Property;
    ms, full := SentBack(g, s);
    QueueSteps(s, 4, []);
    ms := ThenSubmit(g, ms, World(full, Queue(s, 3, 4, []), 1), 3, Queue(s, 3, 3, []));
    ms := SendBackAgain(g, ms, World(Written(full, Again(s)), Queue(s, 3, 3, [ReplaceWrite(s)]), 2), s, 3,
      [ReplaceWrite(s)]);
  }

  // ---- main results ----

  /** Approved, rejected and escalated are final in every run if and only if moderation writes
      test that the review is still open and submission writes test the status they read.
      The code's writes test neither. */
  lemma {:induction false} DecidedForGood(g: Guards)
    ensures DecisionsFinal(g) <==> g.submission && g.moderation
  {
    GoodRoomsFine();
    if !g.moderation {
      var ms, k := DecisionOverturned(g, GOOD_ROOMS);
    } else if !g.submission {
      var ms := ApprovalTakenBack(g, GOOD_ROOMS);
    } else {
      forall owner: nat, ms: seq<Move>, m: Move {:trigger Next(g, Run(g, owner, ms), m)}
        | Decided(Run(g, owner, ms).p.status)
        ensures Next(g, Run(g, owner, ms), m).p.status == Run(g, owner, ms).p.status
      {
        RunOk(g, owner, ms);
        FinalStep(g, Run(g, owner, ms), m);
      }
    }
  }

  /** While a property is under review or approved its wizard, papers and policy stay as they
      are, in every run, if and only if saved steps test that it is still editable and
      submission writes test the status they read. The code's writes test neither. */
  lemma {:induction false} FrozenExact(g: Guards)
    ensures FrozenUnderReview(g) <==> g.submission && g.save
  {
    GoodRoomsFine();
    if !g.save {
      var ms := LateSave(g, GOOD_ROOMS);
      assert !SameFile(Run(g, 0, ms).p, Next(g, Run(g, 0, ms), Do(0)).p);
    } else if !g.submission {
      var ms := LateSubmission(g, GOOD_ROOMS);
      assert !SameFile(Run(g, 0, ms).p, Next(g, Run(g, 0, ms), Do(0)).p);
    } else {
      forall owner: nat, ms: seq<Move>, m: Move {:trigger Next(g, Run(g, owner, ms), m)}
        | !Editable(Run(g, owner, ms).p)
        ensures SameFile(Run(g, owner, ms).p, Next(g, Run(g, owner, ms), m).p)
      {
        RunOk(g, owner, ms);
        FrozenStep(g, Run(g, owner, ms), m);
      }
    }
  }

  /** A property is put up for review at most four times, in every run, if and only if
      submission writes test the status they read and a request for revision tests the
      revision count it read. The code's writes test neither. */
  lemma {:induction false} ReviewRounds(g: Guards)
    ensures FourReviews(g) <==> g.submission && g.round
  {
    GoodRoomsFine();
    if !g.submission {
      var ms := FiveSubmits(g, GOOD_ROOMS);
    } else if !g.round {
      var ms := FiveReviews(g, GOOD_ROOMS);
    } else {
      forall owner: nat, ms: seq<Move> {:trigger Run(g, owner, ms)}
        ensures Run(g, owner, ms).reviews <= 4 {
        RunRounds(g, owner, ms);
        RunOk(g, owner, ms);
      }
    }
  }

  // The code tests nothing when it writes, and keeps none of the three.
  lemma CodeKeepsNone()
    ensures !DecisionsFinal(CODE_GUARDS) && !FrozenUnderReview(CODE_GUARDS) && !FourReviews(CODE_GUARDS)
  {
    DecidedForGood(CODE_GUARDS);
    FrozenExact(CODE_GUARDS);
    ReviewRounds(CODE_GUARDS);
  }
}
