/**
 The anomaly sweep: which properties, guests and bookings each rule reports, and the
 table of anomalies the sweep fills without repeating an unresolved one.
 */
module Anomalies {
  import opened Common
  import opened Booking
  import opened DisputeRules

  datatype Rule =
    | HighCancellation | PaymentFailures | Overbooking | Velocity | NoShowCluster
    | LateNight | RefundAbuse | ManualFlag | GuestFavour

  datatype AnomalyStatus = Detected | Investigating | ResolvedAction | ResolvedFalsePositive | EscalatedAnomaly

  const UNRESOLVED: set<AnomalyStatus> := {Detected, Investigating}

  // The entity kind (property, guest or booking) is fixed by the rule.
  datatype Anomaly = Anomaly(rule: Rule, entity: nat, status: AnomalyStatus)

  // What the rules look at: bookings, those whose payment failed, those flagged, disputes.
  datatype Snapshot = Snapshot(rows: Table, failed: set<nat>, flagged: set<nat>, disputes: map<nat, Dispute>)

  // ---- the rules ----

  function OfProperty(s: Snapshot, p: nat, since: int): set<nat> {
    set id | id in s.rows && s.rows[id].propertyId == p && s.rows[id].createdAt >= since
  }

  function OfGuest(s: Snapshot, g: nat, since: int): set<nat> {
    set id | id in s.rows && s.rows[id].guestId == g && s.rows[id].createdAt >= since
  }

  function CalledOff(s: Snapshot, p: nat, since: int): set<nat> {
    set id | id in OfProperty(s, p, since) && s.rows[id].status in {Cancelled, Voided}
  }

  function GivenBack(s: Snapshot, g: nat, since: int): set<nat> {
    set id | id in OfGuest(s, g, since) && RefundedSoFar(s.rows[id]) > 0
  }

  function NoShows(s: Snapshot, p: nat, since: int): set<nat> {
    set id | id in s.rows && s.rows[id].propertyId == p && s.rows[id].status == NoShow
             && s.rows[id].noShowAt.Some? && s.rows[id].noShowAt.value >= since
  }

  predicate AtNight(t: int) { var hour := t % DAY / HOUR; hour >= 23 || hour < 5 }

  function BookedAtNight(s: Snapshot, p: nat, since: int): set<nat> {
    set id | id in OfProperty(s, p, since) && AtNight(s.rows[id].createdAt)
  }

  function FavouringGuest(s: Snapshot, p: nat, since: int): set<nat> {
    set k | k in s.disputes && s.disputes[k].bookingId in s.rows && s.rows[s.disputes[k].bookingId].propertyId == p
            && s.disputes[k].status in {ResolvedGuest, ResolvedPartial, ResolvedWalletCredit, ClosedNoResponse}
            && s.disputes[k].resolvedAt.Some? && s.disputes[k].resolvedAt.value >= since
  }

  predicate Holds(b: Row) { b.status == Confirmed || b.status == CheckedIn }

  // Two bookings holding the same room type at the same time, the lower id first.
  predicate Pair(rows: Table, a: nat, b: nat) {
    && a in rows && b in rows && a < b && rows[a].roomTypeId == rows[b].roomTypeId
    && Holds(rows[a]) && Holds(rows[b]) && Overlaps(rows[a], rows[b].checkInAt, rows[b].checkOutAt)
  }

  predicate Hit(r: Rule, s: Snapshot, now: int, e: nat) {
    match r
    case HighCancellation =>
      var all, off := OfProperty(s, e, now - 7 * DAY), CalledOff(s, e, now - 7 * DAY);
      |all| >= 5 && 10 * |off| > 3 * |all|
    case PaymentFailures => |OfProperty(s, e, now - HOUR) * s.failed| > 5
    case Overbooking => exists b :: b in s.rows && Pair(s.rows, e, b)
    case Velocity => |OfGuest(s, e, now - DAY)| > 5
    case NoShowCluster => |NoShows(s, e, now - DAY)| > 3
    case LateNight => |BookedAtNight(s, e, now - 6 * HOUR)| > 10
    case RefundAbuse =>
      var all, back := OfGuest(s, e, now - 90 * DAY), GivenBack(s, e, now - 90 * DAY);
      |all| >= 5 && 10 * |back| > 4 * |all|
    case ManualFlag => e in s.rows && e in s.flagged
    case GuestFavour => |FavouringGuest(s, e, now - 30 * DAY)| > 5
  }

  /** A property is reported when of at least five bookings made within seven days more than
      three in ten were cancelled or voided, and when more than five payments failed for bookings
      made within an hour. */
  lemma BookingRateRules(s: Snapshot, now: int, p: nat)
    ensures Hit(HighCancellation, s, now, p) <==>
            var made := set id | id in s.rows && s.rows[id].propertyId == p &&
              now - 604_800_000 <= s.rows[id].createdAt;
            var off := set id | id in made && s.rows[id].status in {Cancelled, Voided};
            |made| >= 5 && |off| as real > 0.3 * |made| as real
    ensures Hit(PaymentFailures, s, now, p) <==>
            |set id | id in s.rows && s.rows[id].propertyId == p && now - 3_600_000 <= s.rows[id].createdAt
                      && id in s.failed| > 5
  {
    var made := set id | id in s.rows && s.rows[id].propertyId == p && now - 604_800_000 <= s.rows[id].createdAt;
    assert OfProperty(s, p, now - 7 * DAY) == made;
    assert CalledOff(s, p, now - 7 * DAY) == set id | id in made && s.rows[id].status in {Cancelled, Voided};
    assert OfProperty(s, p, now - HOUR) * s.failed
        == set id | id in s.rows && s.rows[id].propertyId == p && now - 3_600_000 <= s.rows[id].createdAt
                    && id in s.failed;
  }

  /** It is reported when more than three guests were marked no-shows within a day, and when more
      than five disputes were settled for the guest within thirty days. */
  lemma ComplaintRules(s: Snapshot, now: int, p: nat)
    ensures Hit(NoShowCluster, s, now, p) <==>
            |set id | id in s.rows && s.rows[id].propertyId == p && s.rows[id].status == NoShow
                      && s.rows[id].noShowAt.Some? && now - 86_400_000 <= s.rows[id].noShowAt.value| > 3
    ensures Hit(GuestFavour, s, now, p) <==>
            |set k | k in s.disputes && s.disputes[k].bookingId in s.rows
                     && s.rows[s.disputes[k].bookingId].propertyId == p
                     && s.disputes[k].status in {ResolvedGuest, ResolvedPartial, ResolvedWalletCredit, ClosedNoResponse}
                     && s.disputes[k].resolvedAt.Some? && now - 2_592_000_000 <= s.disputes[k].resolvedAt.value| > 5
  {
    assert NoShows(s, p, now - DAY)
        == set id | id in s.rows && s.rows[id].propertyId == p && s.rows[id].status == NoShow
                    && s.rows[id].noShowAt.Some? && now - 86_400_000 <= s.rows[id].noShowAt.value;
    assert FavouringGuest(s, p, now - 30 * DAY)
        == set k | k in s.disputes && s.disputes[k].bookingId in s.rows
                   && s.rows[s.disputes[k].bookingId].propertyId == p
                   && s.disputes[k].status in {ResolvedGuest, ResolvedPartial, ResolvedWalletCredit, ClosedNoResponse}
                   && s.disputes[k].resolvedAt.Some? && now - 2_592_000_000 <= s.disputes[k].resolvedAt.value;
  }

  lemma NightHours(t: int)
    ensures AtNight(t) <==> !(18_000_000 <= t % 86_400_000 < 82_800_000)
  {
  }

  /** It is also reported when more than ten bookings were made within six hours between 23:00
      and 05:00. */
  lemma LateNightRule(s: Snapshot, now: int, p: nat)
    ensures Hit(LateNight, s, now, p) <==>
            |set id | id in s.rows && s.rows[id].propertyId == p && now - 21_600_000 <= s.rows[id].createdAt
                      && !(18_000_000 <= s.rows[id].createdAt % 86_400_000 < 82_800_000)| > 10
  {
    forall t: int ensures AtNight(t) <==> !(18_000_000 <= t % 86_400_000 < 82_800_000) {
      NightHours(t);
    }
    assert BookedAtNight(s, p, now - 6 * HOUR)
        == set id | id in s.rows && s.rows[id].propertyId == p && now - 21_600_000 <= s.rows[id].createdAt
                    && !(18_000_000 <= s.rows[id].createdAt % 86_400_000 < 82_800_000);
  }

  /** A guest is reported for more than five bookings made within a day, and when of at least five
      made within ninety days more than four in ten have given money back. */
  lemma GuestRules(s: Snapshot, now: int, g: nat)
    ensures Hit(Velocity, s, now, g) <==>
            |set id | id in s.rows && s.rows[id].guestId == g && now - 86_400_000 <= s.rows[id].createdAt| > 5
    ensures Hit(RefundAbuse, s, now, g) <==>
            var made := set id | id in s.rows && s.rows[id].guestId == g && now - 7_776_000_000 <= s.rows[id].createdAt;
            var back := set id | id in made && s.rows[id].refund.Some? && s.rows[id].refund.value > 0;
            |made| >= 5 && |back| as real > 0.4 * |made| as real
  {
    var made := set id | id in s.rows && s.rows[id].guestId == g && now - 7_776_000_000 <= s.rows[id].createdAt;
    assert OfGuest(s, g, now - 90 * DAY) == made;
    assert GivenBack(s, g, now - 90 * DAY)
        == set id | id in made && s.rows[id].refund.Some? && s.rows[id].refund.value > 0;
    assert OfGuest(s, g, now - DAY)
        == set id | id in s.rows && s.rows[id].guestId == g && now - 86_400_000 <= s.rows[id].createdAt;
  }

  /** A booking is reported when flagged by hand, and when a later one holds its room type, confirmed
      or checked in like itself, at an instant of its stay. */
  lemma BookingRules(s: Snapshot, now: int, e: nat)
    ensures Hit(ManualFlag, s, now, e) <==> e in s.rows && e in s.flagged
    ensures Hit(Overbooking, s, now, e) <==>
            e in s.rows && s.rows[e].status in {Confirmed, CheckedIn} && exists b ::
              && b in s.rows && e < b && s.rows[b].roomTypeId == s.rows[e].roomTypeId
              && s.rows[b].status in {Confirmed, CheckedIn}
              && s.rows[e].checkInAt < s.rows[b].checkOutAt && s.rows[b].checkInAt < s.rows[e].checkOutAt
  {
    forall b | b in s.rows
      ensures Pair(s.rows, e, b) <==>
              && e in s.rows && e < b && s.rows[b].roomTypeId == s.rows[e].roomTypeId
              && s.rows[e].status in {Confirmed, CheckedIn} && s.rows[b].status in {Confirmed, CheckedIn}
              && s.rows[e].checkInAt < s.rows[b].checkOutAt && s.rows[b].checkInAt < s.rows[e].checkOutAt
    {
    }
  }

  // Every id a rule could report.
  function Entities(s: Snapshot): set<nat> {
    (set id | id in s.rows :: s.rows[id].propertyId) + (set id | id in s.rows :: s.rows[id].guestId) + s.rows.Keys
  }

  lemma HitIsEntity(r: Rule, s: Snapshot, now: int, e: nat)
    requires Hit(r, s, now, e)
    ensures e in Entities(s)
  {
    if r == HighCancellation {
      var id :| id in OfProperty(s, e, now - 7 * DAY);
    } else if r == PaymentFailures {
      var id :| id in OfProperty(s, e, now - HOUR) * s.failed;
    } else if r == LateNight {
      var id :| id in BookedAtNight(s, e, now - 6 * HOUR);
    } else if r == Velocity {
      var id :| id in OfGuest(s, e, now - DAY);
    } else if r == RefundAbuse {
      var id :| id in OfGuest(s, e, now - 90 * DAY);
    } else if r == NoShowCluster {
      var id :| id in NoShows(s, e, now - DAY);
    } else if r == GuestFavour {
      var k :| k in FavouringGuest(s, e, now - 30 * DAY);
    }
  }

  // ---- the anomaly table ----

  predicate Open(a: Anomaly, r: Rule, e: nat) { a.rule == r && a.entity == e && a.status in UNRESOLVED }

  predicate IsDuplicate(t: seq<Anomaly>, r: Rule, e: nat) { exists a :: a in t && Open(a, r, e) }

  ghost predicate AtMostOne(t: seq<Anomaly>) {
    forall i, j :: 0 <= i < j < |t| && t[i].status in {Detected, Investigating}
                   && t[j].status in {Detected, Investigating} ==>
      t[i].rule != t[j].rule || t[i].entity != t[j].entity
  }

  type Candidate = (Rule, nat)

  function Report(t: seq<Anomaly>, c: Candidate): seq<Anomaly> {
    if IsDuplicate(t, c.0, c.1) then t else t + [Anomaly(c.0, c.1, Detected)]
  }

  function Sweep(t: seq<Anomaly>, cs: seq<Candidate>): seq<Anomaly> {
    if cs == [] then t else Report(Sweep(t, cs[..|cs| - 1]), cs[|cs| - 1])
  }

  // What the rules' queries return at one instant: each hit, in any order, perhaps repeated.
  ghost predicate IsCandidates(cs: seq<Candidate>, s: Snapshot, now: int) {
    forall r, e: nat :: (r, e) in cs <==> Hit(r, s, now, e)
  }

  lemma ReportSnoc(t: seq<Anomaly>, c: Candidate)
    ensures t <= Report(t, c) && |Report(t, c)| <= |t| + 1
    ensures forall r, e: nat :: IsDuplicate(Report(t, c), r, e) <==> IsDuplicate(t, r, e) || (r, e) == c
    ensures AtMostOne(t) ==> AtMostOne(Report(t, c))
  {
    var u := Report(t, c);
    forall r, e: nat ensures IsDuplicate(u, r, e) <==> IsDuplicate(t, r, e) || (r, e) == c {
      if IsDuplicate(t, r, e) {
        var a :| a in t && Open(a, r, e);
        assert a in u;
      } else if (r, e) == c {
        assert Open(u[|t|], r, e) && u[|t|] in u;
      }
    }
    if AtMostOne(t) && u != t {
      forall i | 0 <= i < |t| && t[i].status in UNRESOLVED ensures t[i].rule != c.0 || t[i].entity != c.1 {
        assert t[i] in t && !Open(t[i], c.0, c.1);
      }
    }
  }

  lemma {:induction false} SweepKeeps(t: seq<Anomaly>, cs: seq<Candidate>)
    ensures t <= Sweep(t, cs)
    ensures forall r, e: nat :: IsDuplicate(Sweep(t, cs), r, e) <==> IsDuplicate(t, r, e) || (r, e) in cs
    ensures AtMostOne(t) ==> AtMostOne(Sweep(t, cs))
  {
    if cs != [] {
      var n := |cs| - 1;
      SweepKeeps(t, cs[..n]);
      ReportSnoc(Sweep(t, cs[..n]), cs[n]);
      assert cs == cs[..n] + [cs[n]];
    }
  }

  /** Every row a sweep adds is a reported hit, as detected. */
  lemma {:induction false} SweepDetects(t: seq<Anomaly>, cs: seq<Candidate>, i: nat)
    requires |t| <= i < |Sweep(t, cs)|
    ensures var a := Sweep(t, cs)[i]; a.status == Detected && (a.rule, a.entity) in cs
  {
    var n := |cs| - 1;
    assert cs == cs[..n] + [cs[n]];
    SweepKeeps(t, cs[..n]);
    if i < |Sweep(t, cs[..n])| {
      SweepDetects(t, cs[..n], i);
    }
  }

  // The candidates nobody is already looking at.
  function NewCandidates(t: seq<Anomaly>, cs: seq<Candidate>): set<Candidate> {
    set c | c in cs && !IsDuplicate(t, c.0, c.1)
  }

  /** A sweep adds exactly one row per reported rule and entity without an unresolved one. */
  lemma {:induction false} SweepCount(t: seq<Anomaly>, cs: seq<Candidate>)
    ensures |Sweep(t, cs)| == |t| + |NewCandidates(t, cs)|
  {
    if cs == [] {
      assert NewCandidates(t, cs) == {};
    } else {
      var n, c := |cs| - 1, cs[|cs| - 1];
      SweepCount(t, cs[..n]);
      SweepKeeps(t, cs[..n]);
      assert cs == cs[..n] + [c];
      if IsDuplicate(t, c.0, c.1) || c in cs[..n] {
        assert IsDuplicate(Sweep(t, cs[..n]), c.0, c.1);
        assert NewCandidates(t, cs) == NewCandidates(t, cs[..n]);
      } else {
        assert !IsDuplicate(Sweep(t, cs[..n]), c.0, c.1);
        assert NewCandidates(t, cs) == NewCandidates(t, cs[..n]) + {c};
      }
    }
  }

  lemma {:induction false} NothingNew(t: seq<Anomaly>, cs: seq<Candidate>)
    requires forall c :: c in cs ==> IsDuplicate(t, c.0, c.1)
    ensures Sweep(t, cs) == t
  {
    if cs != [] {
      assert cs[|cs| - 1] in cs;
      NothingNew(t, cs[..|cs| - 1]);
    }
  }

  /** Idempotence: right after a sweep, a second one over the same bookings and disputes
      at the same instant changes nothing, in whatever order the queries return. */
  lemma {:induction false} SweepTwice(t: seq<Anomaly>, cs: seq<Candidate>, again: seq<Candidate>, s: Snapshot, now: int)
    requires IsCandidates(cs, s, now) && IsCandidates(again, s, now)
    ensures Sweep(Sweep(t, cs), again) == Sweep(t, cs)
  {
    SweepKeeps(t, cs);
    forall c | c in again ensures IsDuplicate(Sweep(t, cs), c.0, c.1) {
      assert (c.0, c.1) in again && Hit(c.0, s, now, c.1);
      assert (c.0, c.1) in cs;
    }
    NothingNew(Sweep(t, cs), again);
  }

  // ---- moderation ----

  function SetIf(t: seq<Anomaly>, id: nat, from: set<AnomalyStatus>, to: AnomalyStatus): seq<Anomaly> {
    if id < |t| && t[id].status in from then t[id := t[id].(status := to)] else t
  }

  function OpenDetail(t: seq<Anomaly>, id: nat): seq<Anomaly> { SetIf(t, id, {Detected}, Investigating) }

  datatype Change = Change(status: AnomalyStatus, hasType: bool, hasNotes: bool)

  function UpdateStatus(t: seq<Anomaly>, id: nat, c: Change): Result<seq<Anomaly>> {
    if c.status == Detected then Err(BadRequest)
    else if id >= |t| then Err(NotFound)
    else if c.status == ResolvedAction && !(c.hasType && c.hasNotes) then Err(BadRequest)
    else if c.status in {ResolvedFalsePositive, EscalatedAnomaly} && !c.hasNotes then Err(BadRequest)
    else
      var from := if c.status == Investigating then {Detected} else {Detected, Investigating};
      if t[id].status in from then Ok(SetIf(t, id, from, c.status)) else Err(Conflict)
  }

  datatype Step = Detection(candidates: seq<Candidate>) | Detail(id: nat) | Update(id: nat, change: Change)

  function Next(t: seq<Anomaly>, s: Step): seq<Anomaly> {
    match s
    case Detection(cs) => Sweep(t, cs)
    case Detail(id) => OpenDetail(t, id)
    case Update(id, c) => var r := UpdateStatus(t, id, c); if r.Ok? then r.value else t
  }

  function Run(steps: seq<Step>): seq<Anomaly> {
    if steps == [] then [] else Next(Run(steps[..|steps| - 1]), steps[|steps| - 1])
  }

  // A resolved anomaly is final and rows are never reused.
  ghost predicate Continues(t: seq<Anomaly>, u: seq<Anomaly>) {
    && |t| <= |u|
    && forall i :: 0 <= i < |t| ==>
         && u[i].rule == t[i].rule && u[i].entity == t[i].entity
         && (t[i].status in {ResolvedAction, ResolvedFalsePositive, EscalatedAnomaly} ==> u[i] == t[i])
  }

  lemma NextKeeps(t: seq<Anomaly>, s: Step)
    requires AtMostOne(t)
    ensures AtMostOne(Next(t, s)) && Continues(t, Next(t, s))
  {
    if s.Detection? {
      SweepKeeps(t, s.candidates);
    }
  }

  /** At most one unresolved anomaly per rule and entity after every sequence of sweeps,
      detail views and status changes; resolved ones stay resolved. */
  lemma {:induction false} OneUnresolvedEach(steps: seq<Step>, n: nat)
    requires n <= |steps|
    ensures AtMostOne(Run(steps)) && Continues(Run(steps[..n]), Run(steps))
    decreases |steps|
  {
    if steps == [] {
    } else if n == |steps| {
      assert steps[..n] == steps;
      OneUnresolvedEach(steps[..n - 1], n - 1);
      NextKeeps(Run(steps[..n - 1]), steps[n - 1]);
    } else {
      var before := steps[..|steps| - 1];
      assert before[..n] == steps[..n];
      OneUnresolvedEach(before, n);
      NextKeeps(Run(before), steps[|steps| - 1]);
    }
  }

  // ---- the service ----

  class AnomaliesService {
    var table: seq<Anomaly>

    constructor ()
      ensures table == []
    {
      table := [];
    }

    // A rule's candidate query; the rows come back in no particular order.
    method Candidates(r: Rule, s: Snapshot, now: int) returns (found: seq<nat>)
      ensures forall e :: e in found <==> Hit(r, s, now, e)
    {
      found := [];
      var left := Entities(s);
      while left != {}
        invariant left <= Entities(s)
        invariant forall e :: e in found <==> e in Entities(s) && e !in left && Hit(r, s, now, e)
        decreases |left|
      {
        var e :| e in left;
        left := left - {e};
        if Hit(r, s, now, e) {
          found := found + [e];
        }
      }
      forall e | Hit(r, s, now, e) ensures e in found {
        HitIsEntity(r, s, now, e);
      }
    }

    // One rule's loop, returning how many rows it created.
    method Detect(r: Rule, s: Snapshot, now: int) returns (created: nat, ghost cs: seq<Candidate>)
      modifies this
      ensures table == Sweep(old(table), cs) && created == |table| - |old(table)|
      ensures forall q, e: nat :: (q, e) in cs <==> q == r && Hit(r, s, now, e)
    {
      var candidates := Candidates(r, s, now);
      created, cs := 0, [];
      for i := 0 to |candidates|
        invariant table == Sweep(old(table), cs) && |table| == |old(table)| + created
        invariant forall q, e: nat :: (q, e) in cs <==> q == r && e in candidates[..i]
      {
        var e := candidates[i];
        assert candidates[..i + 1] == candidates[..i] + [e];
        assert (cs + [(r, e)])[..|cs|] == cs;
        cs := cs + [(r, e)];
        if IsDuplicate(table, r, e) { continue; }
        table := table + [Anomaly(r, e, Detected)];
        created := created + 1;
      }
      assert candidates[..|candidates|] == candidates;
    }

    /** All nine rules in turn: the number returned is the number of rows created. */
    method RunDetection(s: Snapshot, now: int) returns (created: nat, ghost cs: seq<Candidate>)
      modifies this
      ensures IsCandidates(cs, s, now)
      ensures table == Sweep(old(table), cs)
      ensures created == |table| - |old(table)| == |NewCandidates(old(table), cs)|
    {
      var n: nat;
      ghost var more: seq<Candidate>;
      created, cs := Detect(HighCancellation, s, now);
      n, more := Detect(PaymentFailures, s, now);
      SweepConcat(old(table), cs, more);
      created, cs := created + n, cs + more;
      n, more := Detect(Overbooking, s, now);
      SweepConcat(old(table), cs, more);
      created, cs := created + n, cs + more;
      n, more := Detect(Velocity, s, now);
      SweepConcat(old(table), cs, more);
      created, cs := created + n, cs + more;
      n, more := Detect(NoShowCluster, s, now);
      SweepConcat(old(table), cs, more);
      created, cs := created + n, cs + more;
      n, more := Detect(LateNight, s, now);
      SweepConcat(old(table), cs, more);
      created, cs := created + n, cs + more;
      n, more := Detect(RefundAbuse, s, now);
      SweepConcat(old(table), cs, more);
      created, cs := created + n, cs + more;
      n, more := Detect(ManualFlag, s, now);
      SweepConcat(old(table), cs, more);
      created, cs := created + n, cs + more;
      n, more := Detect(GuestFavour, s, now);
      SweepConcat(old(table), cs, more);
      created, cs := created + n, cs + more;
      SweepCount(old(table), cs);
    }

    method GetDetail(id: nat) returns (r: Result<Anomaly>)
      modifies this
      ensures table == OpenDetail(old(table), id)
      ensures table == if id < |old(table)| && old(table)[id].status == Detected
                       then old(table)[id := old(table)[id].(status := Investigating)] else old(table)
      ensures r == if id < |table| then Ok(table[id]) else Err(NotFound)
    {
      if id >= |table| { return Err(NotFound); }
      if table[id].status == Detected {
        table := table[id := table[id].(status := Investigating)];
      }
      return Ok(table[id]);
    }

    method ChangeStatus(id: nat, c: Change) returns (r: Result<Anomaly>)
      modifies this
      ensures match UpdateStatus(old(table), id, c)
              case Ok(t) => table == t && id < |table| && r == Ok(table[id])
              case Err(e) => table == old(table) && r == Err(e)
      ensures r.Ok? <==>
        && id < |old(table)| && c.status != Detected
        && (c.status == ResolvedAction ==> c.hasType && c.hasNotes)
        && (c.status in {ResolvedFalsePositive, EscalatedAnomaly} ==> c.hasNotes)
        && old(table)[id].status in (if c.status == Investigating then {Detected} else {Detected, Investigating})
      ensures table == if r.Ok? then old(table)[id := old(table)[id].(status := c.status)] else old(table)
    {
      if c.status == Detected { return Err(BadRequest); }
      if id >= |table| { return Err(NotFound); }
      if c.status == ResolvedAction && (!c.hasType || !c.hasNotes) { return Err(BadRequest); }
      if (c.status == ResolvedFalsePositive || c.status == EscalatedAnomaly) && !c.hasNotes { return Err(BadRequest); }
      var from := if c.status == Investigating then {Detected} else {Detected, Investigating};
      if table[id].status !in from { return Err(Conflict); }
      table := table[id := table[id].(status := c.status)];
      return Ok(table[id]);
    }
  }

  lemma {:induction false} SweepConcat(t: seq<Anomaly>, a: seq<Candidate>, b: seq<Candidate>)
    ensures Sweep(Sweep(t, a), b) == Sweep(t, a + b)
  {
    if b == [] {
      assert a + b == a;
    } else {
      var n := |b| - 1;
      assert (a + b)[..|a + b| - 1] == a + b[..n];
      SweepConcat(t, a, b[..n]);
    }
  }
}
