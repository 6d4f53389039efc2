/** What a batch pays for each booking: the share of the base its owner has left, once. */
module PayoutShares {
  import opened Common
  import opened Money
  import opened Booking
  import opened Ledger
  import opened Payouts
  import opened PayoutBatches
  import opened PayoutInvariants

  // What the owner of a booking has left: the base less the commission and what was refunded.
  function Share(b: Row): int { b.base - b.fee - (if b.refund.Some? then b.refund.value else 0) }

  // Completed, checked out within the cycle, and on no batch yet.
  ghost predicate Payable(rows: Table, links: seq<Link>, startAt: int, endAt: int, id: nat) {
    && id in rows && rows[id].status == Completed && startAt <= rows[id].checkOutAt <= endAt
    && forall l :: l in links ==> l.bookingId != id
  }

  // The link pays the booking its share, less the withholding, to half a paisa: of the base every
  // paisa is commission, refund, withholding or the owner's.
  ghost predicate PaysShare(b: Row, l: Link, tdsPct: int) {
    && l.item.propertyId == b.propertyId && l.gross == Share(b) > 0
    && -5_000 <= 10_000 * l.tds - tdsPct * l.gross <= 5_000 && 0 <= l.tds <= l.gross
    && b.base == b.fee + RefundedSoFar(b) + l.tds + (l.gross - l.tds)
  }

  // ---- the lines of the drafts ----

  lemma {:induction false} LinesForHas(due: seq<DueRow>, r: DueRow, tdsPct: int)
    requires r in due && Gross(r) > 0
    ensures LineOf(r, tdsPct) in LinesFor(due, r.propertyId, tdsPct)
  {
    var n := |due| - 1;
    assert due == due[..n] + [due[n]];
    if r != due[n] {
      LinesForHas(due[..n], r, tdsPct);
    }
  }

  // Every paying row is a line of the draft of its property, and every line is such a row.
  lemma GroupLines(due: seq<DueRow>, tdsPct: int, r: DueRow) returns (d: Draft)
    requires r in due && Gross(r) > 0
    ensures d in Group(due, tdsPct) && d.propertyId == r.propertyId && LineOf(r, tdsPct) in d.lines
  {
    GroupPartitions(due, tdsPct);
    LinesForHas(due, r, tdsPct);
    d := Group(due, tdsPct)[IndexOf(Group(due, tdsPct), r.propertyId)];
  }

  lemma GroupRow(due: seq<DueRow>, tdsPct: int, d: Draft, l: Line) returns (r: DueRow)
    requires IsPct(tdsPct) && d in Group(due, tdsPct) && l in d.lines
    ensures r in due && r.propertyId == d.propertyId && Gross(r) > 0 && l == LineOf(r, tdsPct)
  {
    GroupPartitions(due, tdsPct);
    LinesForOk(due, d.propertyId, tdsPct);
    r :| r in due && r.propertyId == d.propertyId && Gross(r) > 0 && l == LineOf(r, tdsPct);
  }

  // ---- the links a batch adds ----

  function LinksFor(batchId: nat, drafts: seq<Draft>): seq<Link> {
    if drafts == [] then []
    else
      var d := drafts[|drafts| - 1];
      LinksFor(batchId, drafts[..|drafts| - 1]) + AsLinks(ItemKey(batchId, d.propertyId), d.lines)
  }

  ghost predicate OfDraft(batchId: nat, d: Draft, k: Link) {
    exists l :: l in d.lines && k == Link(ItemKey(batchId, d.propertyId), l.bookingId, l.gross, l.tds)
  }

  lemma AsLinksOf(batchId: nat, d: Draft, k: Link)
    ensures k in AsLinks(ItemKey(batchId, d.propertyId), d.lines) <==> OfDraft(batchId, d, k)
  {
    var links := AsLinks(ItemKey(batchId, d.propertyId), d.lines);
    if k in links {
      var i :| 0 <= i < |links| && links[i] == k;
      assert d.lines[i] in d.lines;
    }
    if OfDraft(batchId, d, k) {
      var l :| l in d.lines && k == Link(ItemKey(batchId, d.propertyId), l.bookingId, l.gross, l.tds);
      var i :| 0 <= i < |d.lines| && d.lines[i] == l;
      assert links[i] == k;
    }
  }

  lemma {:induction false} LinksForOf(batchId: nat, drafts: seq<Draft>, k: Link)
    ensures k in LinksFor(batchId, drafts) <==> exists d :: d in drafts && OfDraft(batchId, d, k)
  {
    if drafts != [] {
      var n := |drafts| - 1;
      assert drafts == drafts[..n] + [drafts[n]];
      LinksForOf(batchId, drafts[..n], k);
      AsLinksOf(batchId, drafts[n], k);
    }
  }

  ghost predicate Fits(due: seq<DueRow>, drafts: seq<Draft>) {
    DistinctDue(due) && DistinctProperties(drafts) && forall d :: d in drafts ==> DraftOk(due, d)
  }

  ghost predicate NewTo(due: seq<DueRow>, drafts: seq<Draft>, d: Draft) {
    Fits(due, drafts) && DraftOk(due, d) && forall e :: e in drafts ==> e.propertyId != d.propertyId
  }

  lemma FitsLast(due: seq<DueRow>, drafts: seq<Draft>)
    requires Fits(due, drafts) && drafts != []
    ensures NewTo(due, drafts[..|drafts| - 1], drafts[|drafts| - 1])
  {
  }

  // A booking of one property's draft is in no link of the other properties' drafts.
  lemma ApartFrom(due: seq<DueRow>, batchId: nat, drafts: seq<Draft>, d: Draft, l: Line)
    requires NewTo(due, drafts, d) && l in d.lines
    ensures forall k :: k in LinksFor(batchId, drafts) ==> k.bookingId != l.bookingId
  {
    var r :| r in due && r.bookingId == l.bookingId && r.propertyId == d.propertyId;
    forall k | k in LinksFor(batchId, drafts) ensures k.bookingId != l.bookingId {
      LinksForOf(batchId, drafts, k);
      var e :| e in drafts && OfDraft(batchId, e, k);
      var m :| m in e.lines && k == Link(ItemKey(batchId, e.propertyId), m.bookingId, m.gross, m.tds);
      assert Pays(due, e.propertyId, m);
    }
  }

  ghost predicate Unlinked(links: seq<Link>, due: seq<DueRow>) { forall r :: r in due ==> !Linked(links, r.bookingId) }

  lemma DraftUnlinked(links: seq<Link>, due: seq<DueRow>, batchId: nat, drafts: seq<Draft>, d: Draft)
    requires Unlinked(links, due) && NewTo(due, drafts, d)
    ensures forall l :: l in d.lines ==> !Linked(links + LinksFor(batchId, drafts), l.bookingId)
  {
    forall l | l in d.lines ensures !Linked(links + LinksFor(batchId, drafts), l.bookingId) {
      ApartFrom(due, batchId, drafts, d, l);
      assert Pays(due, d.propertyId, l);
    }
  }

  lemma AddsLast(links: seq<Link>, due: seq<DueRow>, batchId: nat, drafts: seq<Draft>, d: Draft)
    requires Unlinked(links, due) && NewTo(due, drafts, d)
    ensures var key, all := ItemKey(batchId, d.propertyId), links + LinksFor(batchId, drafts);
            InsertLinks(all, key, d.lines) == links + (LinksFor(batchId, drafts) + AsLinks(key, d.lines))
  {
    DraftUnlinked(links, due, batchId, drafts, d);
    InsertAll(links + LinksFor(batchId, drafts), ItemKey(batchId, d.propertyId), d.lines);
  }

  lemma {:induction false} AddsLinks(b: Books, batchId: nat, drafts: seq<Draft>, due: seq<DueRow>)
    requires Unlinked(b.links, due) && Fits(due, drafts)
    ensures AddDrafts(b, batchId, drafts).links == b.links + LinksFor(batchId, drafts)
  {
    if drafts != [] {
      var n, d := |drafts| - 1, drafts[|drafts| - 1];
      FitsLast(due, drafts);
      AddsLinks(b, batchId, drafts[..n], due);
      AddsLast(b.links, due, batchId, drafts[..n], d);
    }
  }

  // ---- what they pay ----

  ghost predicate DistinctBookings(links: seq<Link>) {
    forall i, j :: 0 <= i < j < |links| ==> links[i].bookingId != links[j].bookingId
  }

  lemma {:induction false} LinksApart(batchId: nat, drafts: seq<Draft>, due: seq<DueRow>)
    requires Fits(due, drafts)
    ensures DistinctBookings(LinksFor(batchId, drafts))
  {
    if drafts != [] {
      var n, d := |drafts| - 1, drafts[|drafts| - 1];
      FitsLast(due, drafts);
      LinksApart(batchId, drafts[..n], due);
      DraftUnlinked([], due, batchId, drafts[..n], d);
      assert [] + LinksFor(batchId, drafts[..n]) == LinksFor(batchId, drafts[..n]);
      AppendDistinct(LinksFor(batchId, drafts[..n]), AsLinks(ItemKey(batchId, d.propertyId), d.lines));
    }
  }

  ghost predicate AddsShares(rows: Table, links: seq<Link>, batchId: nat, startAt: int, endAt: int, tdsPct: int,
                             after: seq<Link>) {
    && links <= after && DistinctBookings(after[|links|..])
    && (forall l :: l in after[|links|..] ==>
         && l.item.batchId == batchId && Payable(rows, links, startAt, endAt, l.bookingId)
         && PaysShare(rows[l.bookingId], l, tdsPct))
    && (forall id :: Payable(rows, links, startAt, endAt, id) ==>
         (Share(rows[id]) > 0 <==> exists l :: l in after[|links|..] && l.bookingId == id))
  }

  lemma DueIsPayable(rows: Table, links: seq<Link>, startAt: int, endAt: int, id: nat)
    ensures IsDue(rows, links, startAt, endAt, id) <==> Payable(rows, links, startAt, endAt, id)
  {
  }

  lemma RowPays(rows: Table, r: DueRow, tdsPct: int, key: ItemKey)
    requires IsPct(tdsPct) && r.bookingId in rows && r == DueFor(rows, r.bookingId) && Gross(r) > 0
    requires key.propertyId == r.propertyId
    ensures PaysShare(rows[r.bookingId], Link(key, r.bookingId, Gross(r), TdsPaise(Gross(r), tdsPct)), tdsPct)
  {
    PartBounds(Gross(r), tdsPct);
  }

  lemma LinkPays(rows: Table, b: Books, batchId: nat, startAt: int, endAt: int, tdsPct: int, due: seq<DueRow>, k: Link)
    requires IsPct(tdsPct) && IsQueryResult(due, rows, b.links, startAt, endAt)
    requires k in LinksFor(batchId, Group(due, tdsPct))
    ensures k.item.batchId == batchId && Payable(rows, b.links, startAt, endAt, k.bookingId)
    ensures PaysShare(rows[k.bookingId], k, tdsPct)
  {
    LinksForOf(batchId, Group(due, tdsPct), k);
    var d :| d in Group(due, tdsPct) && OfDraft(batchId, d, k);
    var l :| l in d.lines && k == Link(ItemKey(batchId, d.propertyId), l.bookingId, l.gross, l.tds);
    var r := GroupRow(due, tdsPct, d, l);
    DueIsPayable(rows, b.links, startAt, endAt, r.bookingId);
    RowPays(rows, r, tdsPct, k.item);
  }

  lemma ShareLinked(rows: Table, b: Books, batchId: nat, startAt: int, endAt: int, tdsPct: int, due: seq<DueRow>,
          id: nat)
    requires IsQueryResult(due, rows, b.links, startAt, endAt)
    requires Payable(rows, b.links, startAt, endAt, id) && Share(rows[id]) > 0
    ensures exists l :: l in LinksFor(batchId, Group(due, tdsPct)) && l.bookingId == id
  {
    DueIsPayable(rows, b.links, startAt, endAt, id);
    var r := DueFor(rows, id);
    var d := GroupLines(due, tdsPct, r);
    var l := LineOf(r, tdsPct);
    var k := Link(ItemKey(batchId, d.propertyId), l.bookingId, l.gross, l.tds);
    assert OfDraft(batchId, d, k);
    LinksForOf(batchId, Group(due, tdsPct), k);
  }

  /** A batch links exactly the due bookings whose owners have a share left, and pays each the
      whole of it: base less commission less what has been refunded, as the table read says. */
  lemma {:induction false} BatchPaysShares(rows: Table, b: Books, batchId: nat, startAt: int, endAt: int, tdsPct: int,
          due: seq<DueRow>)
    requires IsPct(tdsPct) && IsQueryResult(due, rows, b.links, startAt, endAt) && !RefTaken(b, BatchRef(endAt))
    ensures var c := CreateBatch(b, batchId, startAt, endAt, Group(due, tdsPct));
            AddsShares(rows, b.links, batchId, startAt, endAt, tdsPct, c.links)
  {
    GroupFits(due, tdsPct);
    AddsLinks(b, batchId, Group(due, tdsPct), due);
    LinksApart(batchId, Group(due, tdsPct), due);
    var added := LinksFor(batchId, Group(due, tdsPct));
    assert (b.links + added)[|b.links|..] == added;
    forall l | l in added
      ensures l.item.batchId == batchId && Payable(rows, b.links, startAt, endAt, l.bookingId)
              && PaysShare(rows[l.bookingId], l, tdsPct)
    {
      LinkPays(rows, b, batchId, startAt, endAt, tdsPct, due, l);
    }
    forall id | Payable(rows, b.links, startAt, endAt, id) && Share(rows[id]) > 0
      ensures exists l :: l in added && l.bookingId == id
    {
      ShareLinked(rows, b, batchId, startAt, endAt, tdsPct, due, id);
    }
  }

  // ---- how many items there are ----

  lemma {:induction false} PropertiesCounted(g: seq<Draft>)
    requires DistinctProperties(g)
    ensures |set d | d in g :: d.propertyId| == |g|
  {
    if g != [] {
      var n, d := |g| - 1, g[|g| - 1];
      assert g == g[..n] + [d];
      PropertiesCounted(g[..n]);
      assert (set e | e in g :: e.propertyId) == (set e | e in g[..n] :: e.propertyId) + {d.propertyId};
      forall e | e in g[..n] ensures e.propertyId != d.propertyId {
        var i :| 0 <= i < n && g[i] == e;
      }
    }
  }

  // One item for each property with a share to pay.
  lemma ItemsCounted(due: seq<DueRow>, tdsPct: int)
    requires IsPct(tdsPct)
    ensures |Group(due, tdsPct)| == |set r | r in due && r.base - r.fee - r.refund > 0 :: r.propertyId|
  {
    var g := Group(due, tdsPct);
    GroupPartitions(due, tdsPct);
    PropertiesCounted(g);
    var paying := set r | r in due && r.base - r.fee - r.refund > 0 :: r.propertyId;
    forall p | p in paying ensures exists d :: d in g && d.propertyId == p {
      var r :| r in due && r.base - r.fee - r.refund > 0 && r.propertyId == p;
      var d := GroupLines(due, tdsPct, r);
    }
    forall d | d in g ensures d.propertyId in paying {
      assert d.lines[0] in d.lines;
      var r := GroupRow(due, tdsPct, d, d.lines[0]);
    }
    assert (set d | d in g :: d.propertyId) == paying;
  }

  // ---- whom the items are for ----

  lemma {:induction false} GroupOwner(due: seq<DueRow>, tdsPct: int, i: nat)
    requires i < |Group(due, tdsPct)|
    ensures exists r :: r in due && Gross(r) > 0 && r.propertyId == Group(due, tdsPct)[i].propertyId
                        && r.ownerId == Group(due, tdsPct)[i].ownerId
  {
    var n, g := |due| - 1, Group(due[..|due| - 1], tdsPct);
    assert due == due[..n] + [due[n]];
    if i < |g| {
      GroupOwner(due[..n], tdsPct, i);
    } else {
      assert due[n] in due;
    }
  }

  function ItemFor(d: Draft): Item {
    Item(d.ownerId, ItemPending, |d.lines|, DraftSum(d, LineGross), DraftSum(d, LineTds),
         DraftSum(d, LineGross) - DraftSum(d, LineTds))
  }

  ghost predicate NewItem(batchId: nat, drafts: seq<Draft>, key: ItemKey, it: Item) {
    exists d :: d in drafts && key == ItemKey(batchId, d.propertyId) && it == ItemFor(d)
  }

  lemma {:induction false} DraftItems(b: Books, batchId: nat, drafts: seq<Draft>, key: ItemKey)
    requires (forall k :: k in b.items ==> k.batchId != batchId) && DistinctProperties(drafts)
    ensures var c := AddDrafts(b, batchId, drafts);
            && (key in b.items ==> key in c.items && c.items[key] == b.items[key])
            && (key in c.items && key !in b.items ==> NewItem(batchId, drafts, key, c.items[key]))
  {
    if drafts != [] {
      var n, d := |drafts| - 1, drafts[|drafts| - 1];
      assert drafts == drafts[..n] + [d];
      DraftItems(b, batchId, drafts[..n], key);
      assert d in drafts;
    }
  }

  lemma NewItemPays(rows: Table, links: seq<Link>, batchId: nat, startAt: int, endAt: int, tdsPct: int,
          due: seq<DueRow>, key: ItemKey, it: Item)
    requires IsQueryResult(due, rows, links, startAt, endAt) && NewItem(batchId, Group(due, tdsPct), key, it)
    ensures key.batchId == batchId && it.status == ItemPending
    ensures exists id :: Payable(rows, links, startAt, endAt, id) && Share(rows[id]) > 0
                         && rows[id].propertyId == key.propertyId && rows[id].ownerId == it.ownerId
  {
    var g := Group(due, tdsPct);
    var d :| d in g && key == ItemKey(batchId, d.propertyId) && it == ItemFor(d);
    var i :| 0 <= i < |g| && g[i] == d;
    GroupOwner(due, tdsPct, i);
    var r :| r in due && Gross(r) > 0 && r.propertyId == d.propertyId && r.ownerId == d.ownerId;
    DueIsPayable(rows, links, startAt, endAt, r.bookingId);
  }

  /** Each item of a new batch is pending, for a property with a due booking whose owner has a
      share left, and made out to that owner; earlier items stay as they are. */
  lemma ItemsForOwners(rows: Table, b: Books, batchId: nat, startAt: int, endAt: int, tdsPct: int, due: seq<DueRow>,
          key: ItemKey)
    requires IsQueryResult(due, rows, b.links, startAt, endAt) && !RefTaken(b, BatchRef(endAt))
    requires forall k :: k in b.items ==> k.batchId != batchId
    ensures var c := CreateBatch(b, batchId, startAt, endAt, Group(due, tdsPct));
            && (key in b.items ==> key in c.items && c.items[key] == b.items[key])
            && (key in c.items && key !in b.items ==>
                 && key.batchId == batchId && c.items[key].status == ItemPending
                 && exists id :: Payable(rows, b.links, startAt, endAt, id) && Share(rows[id]) > 0
                                 && rows[id].propertyId == key.propertyId && rows[id].ownerId == c.items[key].ownerId)
  {
    var c := CreateBatch(b, batchId, startAt, endAt, Group(due, tdsPct));
    GroupPartitions(due, tdsPct);
    DraftItems(b, batchId, Group(due, tdsPct), key);
    if key in c.items && key !in b.items {
      NewItemPays(rows, b.links, batchId, startAt, endAt, tdsPct, due, key, c.items[key]);
    }
  }
}
