/** Payout batches: grouping completed bookings by property, creating the batch rows, holding and releasing items. */
module Payouts {
  import opened Common
  import opened Money
  import opened Booking
  import opened Ledger

  // ---- grouping ----

  datatype DueRow = DueRow(bookingId: nat, propertyId: nat, ownerId: nat, base: int, fee: int, refund: int)

  datatype Line = Line(bookingId: nat, gross: int, tds: int)

  datatype Draft = Draft(propertyId: nat, ownerId: nat, lines: seq<Line>)

  function Gross(r: DueRow): int { OwnerGross(r.base, r.fee, r.refund) }

  function LineOf(r: DueRow, tdsPct: int): Line { Line(r.bookingId, Gross(r), TdsPaise(Gross(r), tdsPct)) }

  function LineGross(l: Line): int { l.gross }
  function LineTds(l: Line): int { l.tds }
  function LineNet(l: Line): int { l.gross - l.tds }

  function IndexOf(g: seq<Draft>, propertyId: nat): (i: nat)
    ensures i <= |g|
    ensures i < |g| ==> g[i].propertyId == propertyId
    ensures i == |g| ==> forall j :: 0 <= j < |g| ==> g[j].propertyId != propertyId
  {
    if g == [] then 0
    else if g[0].propertyId == propertyId then 0
    else 1 + IndexOf(g[1..], propertyId)
  }

  function AddRow(g: seq<Draft>, r: DueRow, tdsPct: int): seq<Draft> {
    var i, line := IndexOf(g, r.propertyId), LineOf(r, tdsPct);
    if Gross(r) <= 0 then g
    else if i == |g| then g + [Draft(r.propertyId, r.ownerId, [line])]
    else g[i := g[i].(lines := g[i].lines + [line])]
  }

  // The items of a batch, in order of each property's first paying row.
  function Group(rows: seq<DueRow>, tdsPct: int): seq<Draft> {
    if rows == [] then [] else AddRow(Group(rows[..|rows| - 1], tdsPct), rows[|rows| - 1], tdsPct)
  }

  // The lines one property should get: its rows with a positive gross, in order.
  function LinesFor(rows: seq<DueRow>, propertyId: nat, tdsPct: int): seq<Line> {
    if rows == [] then []
    else
      var r, before := rows[|rows| - 1], LinesFor(rows[..|rows| - 1], propertyId, tdsPct);
      if r.propertyId == propertyId && Gross(r) > 0 then before + [LineOf(r, tdsPct)] else before
  }

  ghost predicate DistinctProperties(g: seq<Draft>) {
    forall i, j :: 0 <= i < j < |g| ==> g[i].propertyId != g[j].propertyId
  }

  /** Grouping partitions exactly the rows with a positive gross: one item per property,
      holding that property's rows, and no other item. */
  lemma {:induction false} GroupPartitions(rows: seq<DueRow>, tdsPct: int)
    ensures var g := Group(rows, tdsPct);
            && DistinctProperties(g)
            && (forall i :: 0 <= i < |g| ==> g[i].lines != [] && g[i].lines == LinesFor(rows, g[i].propertyId, tdsPct))
            && (forall p :: LinesFor(rows, p, tdsPct) != [] ==> IndexOf(g, p) < |g|)
  {
    if rows != [] {
      var n := |rows| - 1;
      GroupPartitions(rows[..n], tdsPct);
      var g, h := Group(rows[..n], tdsPct), Group(rows, tdsPct);
      forall p | LinesFor(rows, p, tdsPct) != [] ensures IndexOf(h, p) < |h| {
        if p == rows[n].propertyId && Gross(rows[n]) > 0 {
          var i := IndexOf(g, p);
          assert h[i].propertyId == p;
        } else {
          var i := IndexOf(g, p);
          assert i < |g| && h[i].propertyId == p;
        }
      }
      var k := IndexOf(g, rows[n].propertyId);
      if Gross(rows[n]) > 0 && k == |g| {
        assert LinesFor(rows[..n], rows[n].propertyId, tdsPct) == [];
      }
    }
  }

  function RowLineSum(rows: seq<DueRow>, tdsPct: int, f: Line -> int): int {
    if rows == [] then 0
    else
      RowLineSum(rows[..|rows| - 1], tdsPct, f)
      + (if Gross(rows[|rows| - 1]) > 0 then f(LineOf(rows[|rows| - 1], tdsPct)) else 0)
  }

  function DraftSum(d: Draft, f: Line -> int): int { SumOf(d.lines, f) }

  function Totals(f: Line -> int): Draft -> int { (d: Draft) => DraftSum(d, f) }

  lemma AddRowSum(g: seq<Draft>, r: DueRow, tdsPct: int, f: Line -> int)
    ensures SumOf(AddRow(g, r, tdsPct), Totals(f))
            == SumOf(g, Totals(f)) + (if Gross(r) > 0 then f(LineOf(r, tdsPct)) else 0)
  {
    var i, line := IndexOf(g, r.propertyId), LineOf(r, tdsPct);
    if Gross(r) > 0 {
      if i == |g| {
        assert SumOf([line], f) == f(line);
        SumSnoc(g, Draft(r.propertyId, r.ownerId, [line]), Totals(f));
      } else {
        SumSnoc(g[i].lines, line, f);
        SumUpdate(g, i, g[i].(lines := g[i].lines + [line]), Totals(f));
      }
    }
  }

  /** Nothing is lost or counted twice: any amount summed over the items' lines is
      that amount summed over the paying rows. */
  lemma {:induction false} GroupConserves(rows: seq<DueRow>, tdsPct: int, f: Line -> int)
    ensures SumOf(Group(rows, tdsPct), Totals(f)) == RowLineSum(rows, tdsPct, f)
  {
    if rows != [] {
      GroupConserves(rows[..|rows| - 1], tdsPct, f);
      AddRowSum(Group(rows[..|rows| - 1], tdsPct), rows[|rows| - 1], tdsPct, f);
    }
  }

  ghost predicate LineOk(l: Line) { 0 < l.gross && 0 <= l.tds <= l.gross }

  lemma {:induction false} LinesBound(lines: seq<Line>)
    requires forall l :: l in lines ==> LineOk(l)
    ensures 0 <= SumOf(lines, LineTds) <= SumOf(lines, LineGross)
    ensures SumOf(lines, LineNet) == SumOf(lines, LineGross) - SumOf(lines, LineTds)
    ensures lines != [] ==> 0 < SumOf(lines, LineGross)
  {
    if lines != [] {
      var n := |lines| - 1;
      assert lines[n] in lines && forall l :: l in lines[..n] ==> l in lines;
      LinesBound(lines[..n]);
    }
  }

  lemma {:induction false} LinesForOk(rows: seq<DueRow>, p: nat, tdsPct: int)
    requires IsPct(tdsPct)
    ensures forall l :: l in LinesFor(rows, p, tdsPct) ==> LineOk(l)
    ensures forall l :: l in LinesFor(rows, p, tdsPct) ==>
      exists r :: r in rows && r.propertyId == p && Gross(r) > 0 && l == LineOf(r, tdsPct)
  {
    if rows != [] {
      var n := |rows| - 1;
      LinesForOk(rows[..n], p, tdsPct);
      if Gross(rows[n]) > 0 {
        PartBounds(Gross(rows[n]), tdsPct);
      }
      assert rows[n] in rows && forall r :: r in rows[..n] ==> r in rows;
    }
  }

  /** At item level net = gross - TDS and 0 <= TDS <= gross, with a positive gross. */
  lemma DraftBounds(rows: seq<DueRow>, tdsPct: int, i: nat)
    requires IsPct(tdsPct) && i < |Group(rows, tdsPct)|
    ensures var d := Group(rows, tdsPct)[i];
            var gross, tds := DraftSum(d, LineGross), DraftSum(d, LineTds);
            0 <= tds <= gross && 0 < gross && DraftSum(d, LineNet) == gross - tds
  {
    GroupPartitions(rows, tdsPct);
    LinesForOk(rows, Group(rows, tdsPct)[i].propertyId, tdsPct);
    LinesBound(Group(rows, tdsPct)[i].lines);
  }

  lemma {:induction false} RowLineBounds(rows: seq<DueRow>, tdsPct: int)
    requires IsPct(tdsPct)
    ensures 0 <= RowLineSum(rows, tdsPct, LineTds) <= RowLineSum(rows, tdsPct, LineGross)
    ensures RowLineSum(rows, tdsPct, LineNet) == RowLineSum(rows, tdsPct, LineGross) - RowLineSum(rows, tdsPct, LineTds)
    ensures RowLineSum(rows, tdsPct, LineGross) == SumOf(rows, Gross)
  {
    if rows != [] {
      RowLineBounds(rows[..|rows| - 1], tdsPct);
      PartBounds(Gross(rows[|rows| - 1]), tdsPct);
    }
  }

  // `order` lists the keys of `entries` in insertion order, and together they are the drafts g.
  ghost predicate Represents(order: seq<nat>, entries: map<nat, Draft>, g: seq<Draft>) {
    && |order| == |g|
    && (forall p :: p in entries ==> p in order)
    && (forall j :: 0 <= j < |order| ==>
          order[j] in entries && order[j] == g[j].propertyId && entries[order[j]] == g[j])
  }

  lemma PresentIndex(order: seq<nat>, entries: map<nat, Draft>, g: seq<Draft>, p: nat)
    requires Represents(order, entries, g)
    ensures p in entries <==> IndexOf(g, p) < |g|
  {
    if p in entries {
      var j :| 0 <= j < |order| && order[j] == p;
      assert g[j].propertyId == p;
    }
  }

  lemma AppendRepresents(order: seq<nat>, entries: map<nat, Draft>, g: seq<Draft>, d: Draft)
    requires Represents(order, entries, g) && d.propertyId !in entries
    ensures Represents(order + [d.propertyId], entries[d.propertyId := d], g + [d])
  {
  }

  lemma UpdateRepresents(order: seq<nat>, entries: map<nat, Draft>, g: seq<Draft>, i: nat, d: Draft)
    requires Represents(order, entries, g) && DistinctProperties(g) && i < |g| && g[i].propertyId == d.propertyId
    ensures Represents(order, entries[d.propertyId := d], g[i := d])
  {
  }

  // The service's one pass over the rows; its Map iterates in insertion order.
  method GroupByProperty(rows: seq<DueRow>, tdsPct: int) returns (items: seq<Draft>)
    ensures items == Group(rows, tdsPct)
  {
    var order: seq<nat>, propertyMap: map<nat, Draft> := [], map[];
    for i := 0 to |rows|
      invariant Represents(order, propertyMap, Group(rows[..i], tdsPct))
      invariant DistinctProperties(Group(rows[..i], tdsPct))
    {
      var row := rows[i];
      assert rows[..i + 1][..i] == rows[..i];
      GroupPartitions(rows[..i + 1], tdsPct);
      var ownerGross := Gross(row);
      if ownerGross <= 0 { continue; }
      var line := Line(row.bookingId, ownerGross, TdsPaise(ownerGross, tdsPct));
      ghost var g := Group(rows[..i], tdsPct);
      PresentIndex(order, propertyMap, g, row.propertyId);
      assert Group(rows[..i + 1], tdsPct) == AddRow(g, row, tdsPct);
      if row.propertyId !in propertyMap {
        AppendRepresents(order, propertyMap, g, Draft(row.propertyId, row.ownerId, [line]));
        order := order + [row.propertyId];
        propertyMap := propertyMap[row.propertyId := Draft(row.propertyId, row.ownerId, [line])];
      } else {
        var entry := propertyMap[row.propertyId];
        UpdateRepresents(order, propertyMap, g, IndexOf(g, row.propertyId), entry.(lines := entry.lines + [line]));
        propertyMap := propertyMap[row.propertyId := entry.(lines := entry.lines + [line])];
      }
    }
    assert rows[..|rows|] == rows;
    items := seq(|order|, j requires 0 <= j < |order| && order[j] in propertyMap => propertyMap[order[j]]);
  }

  /** The service's batch totals are those of the paying rows, and the sums of what the items hold. */
  lemma TotalsAgree(rows: seq<DueRow>, tdsPct: int)
    requires IsPct(tdsPct)
    ensures var items := Group(rows, tdsPct);
            var gross, tds := SumOf(items, Totals(LineGross)), SumOf(items, Totals(LineTds));
            && gross == SumOf(rows, Gross) && 0 <= tds <= gross
            && SumOf(items, Totals(LineNet)) == gross - tds
  {
    GroupConserves(rows, tdsPct, LineGross);
    GroupConserves(rows, tdsPct, LineTds);
    GroupConserves(rows, tdsPct, LineNet);
    RowLineBounds(rows, tdsPct);
  }
}
