/**
 Sweeps that overlap. A sweep looks for an unresolved anomaly and inserts one later, and
 nothing keeps a second sweep, or a status change, from coming in between.
 */
module AnomalyRaces {
  import opened Common
  import opened Anomalies

  // `pending`: the hits some sweep has found unreported and is about to insert.
  datatype World = World(table: seq<Anomaly>, pending: seq<Candidate>)

  datatype Step = Look(hit: Candidate) | Insert(index: nat) | View(id: nat) | Moderate(id: nat, change: Change)

  // `unique`: the table has a unique key on rule and entity over unresolved rows. The code's has none.
  function Advance(unique: bool, w: World, s: Step): World {
    match s
    case Look(c) => if IsDuplicate(w.table, c.0, c.1) then w else w.(pending := w.pending + [c])
    case Insert(k) =>
      if k >= |w.pending| then w
      else
        var c, left := w.pending[k], w.pending[..k] + w.pending[k + 1..];
        if unique && IsDuplicate(w.table, c.0, c.1) then w.(pending := left)
        else World(w.table + [Anomaly(c.0, c.1, Detected)], left)
    case View(id) => w.(table := OpenDetail(w.table, id))
    case Moderate(id, change) => w.(table := Next(w.table, Update(id, change)))
  }

  function History(unique: bool, steps: seq<Step>): World {
    if steps == [] then World([], []) else Advance(unique, History(unique, steps[..|steps| - 1]), steps[|steps| - 1])
  }

  /** A look followed by its insert at once is what a sweep does with one hit. */
  lemma SoloReport(unique: bool, t: seq<Anomaly>, c: Candidate)
    ensures Advance(unique, Advance(unique, World(t, []), Look(c)), Insert(0)) == World(Report(t, c), [])
  {
    assert [] + [c] == [c] && [c][..0] + [c][1..] == [];
  }

  lemma InsertKeeps(w: World, k: nat)
    requires AtMostOne(w.table)
    ensures AtMostOne(Advance(true, w, Insert(k)).table)
  {
    if k < |w.pending| {
      ReportSnoc(w.table, w.pending[k]);
    }
  }

  lemma {:induction false} UniqueHolds(steps: seq<Step>)
    ensures AtMostOne(History(true, steps).table)
  {
    if steps != [] {
      var w, s := History(true, steps[..|steps| - 1]), steps[|steps| - 1];
      UniqueHolds(steps[..|steps| - 1]);
      if s.Insert? {
        InsertKeeps(w, s.index);
      } else if s.View? {
        NextKeeps(w.table, Detail(s.id));
      } else if s.Moderate? {
        NextKeeps(w.table, Update(s.id, s.change));
      }
    }
  }

  lemma HistorySnoc(unique: bool, steps: seq<Step>, s: Step)
    ensures History(unique, steps + [s]) == Advance(unique, History(unique, steps), s)
  {
    assert (steps + [s])[..|steps|] == steps;
  }

  /** Two sweeps both look before either inserts, and report one hit twice. */
  lemma ReportedTwice(c: Candidate) returns (steps: seq<Step>)
    ensures History(false, steps).table == [Anomaly(c.0, c.1, Detected), Anomaly(c.0, c.1, Detected)]
  {
    HistorySnoc(false, [], Look(c));
    HistorySnoc(false, [] + [Look(c)], Look(c));
    assert [] + [c] == [c] && [c] + [c] == [c, c] && [c, c][..0] + [c, c][1..] == [c] && [c][..0] + [c][1..] == [];
    steps := [] + [Look(c)] + [Look(c)];
    HistorySnoc(false, steps, Insert(0));
    HistorySnoc(false, steps + [Insert(0)], Insert(0));
    steps := steps + [Insert(0)] + [Insert(0)];
  }

  /** At most one unresolved anomaly per rule and entity, in every history of overlapping
      sweeps, views and status changes, if and only if a unique key guards the insert. */
  lemma {:induction false} OneUnresolvedExact(unique: bool)
    ensures (forall steps: seq<Step> {:trigger History(unique, steps)} :: AtMostOne(History(unique, steps).table))
            <==> unique
  {
    if unique {
      forall steps: seq<Step> {:trigger History(unique, steps)} ensures AtMostOne(History(unique, steps).table) {
        UniqueHolds(steps);
      }
    } else {
      var steps := ReportedTwice((ManualFlag, 0));
      var t := History(unique, steps).table;
      assert t[0].status == Detected == t[1].status && 0 < 1 < |t|;
    }
  }

  lemma {:induction false} Grows(unique: bool, steps: seq<Step>, n: nat)
    requires n <= |steps|
    ensures Continues(History(unique, steps[..n]).table, History(unique, steps).table)
    decreases |steps|
  {
    if n == |steps| {
      assert steps[..n] == steps;
    } else {
      var before := steps[..|steps| - 1];
      assert before[..n] == steps[..n];
      Grows(unique, before, n);
    }
  }

  /** Whatever overlaps, and with or without the key, a resolved anomaly stays as it was resolved. */
  lemma {:induction false} ResolvedForGood(unique: bool, steps: seq<Step>, n: nat, id: nat)
    requires n <= |steps| && id < |History(unique, steps[..n]).table|
    requires History(unique, steps[..n]).table[id].status in {ResolvedAction, ResolvedFalsePositive, EscalatedAnomaly}
    ensures var t := History(unique, steps).table; id < |t| && t[id] == History(unique, steps[..n]).table[id]
  {
    Grows(unique, steps, n);
  }
}
