/** The payout tables: creating a batch in one transaction, and holding or releasing its items. */
module PayoutBatches {
  import opened Common
  import opened Money
  import opened Booking
  import opened Ledger
  import opened Payouts

  datatype ItemStatus = ItemPending | OnHold | Released | Failed

  datatype BatchStatus = BatchPending | Processing | BatchReleased | Partial | BatchFailed

  datatype Item = Item(ownerId: nat, status: ItemStatus, bookingCount: nat, gross: int, tds: int, net: int)

  datatype Batch = Batch(
    ref: int, startAt: int, endAt: int, status: BatchStatus,
    itemCount: nat, totalGross: int, totalTds: int, totalNet: int)

  datatype Link = Link(item: ItemKey, bookingId: nat, gross: int, tds: int)

  // `items` has the unique key (batch, property), `links` the unique key bookingId.
  datatype Books = Books(batches: map<nat, Batch>, items: map<ItemKey, Item>, links: seq<Link>, entries: seq<Entry>)

  // PAY-yyyymmdd, named by its day number.
  function BatchRef(endAt: int): int { endAt / DAY }

  predicate Linked(links: seq<Link>, bookingId: nat) { exists l :: l in links && l.bookingId == bookingId }

  // ---- which bookings a cycle pays ----

  predicate IsDue(rows: Table, links: seq<Link>, startAt: int, endAt: int, id: nat) {
    id in rows && rows[id].status == Completed && startAt <= rows[id].checkOutAt <= endAt && !Linked(links, id)
  }

  function DueFor(rows: Table, id: nat): DueRow
    requires id in rows
  {
    var b := rows[id];
    DueRow(id, b.propertyId, b.ownerId, b.base, b.fee, RefundedSoFar(b))
  }

  // `due` is a result of the cycle query: every due booking once, in any order.
  ghost predicate IsQueryResult(due: seq<DueRow>, rows: Table, links: seq<Link>, startAt: int, endAt: int) {
    && (forall r :: r in due ==> IsDue(rows, links, startAt, endAt, r.bookingId) && r == DueFor(rows, r.bookingId))
    && (forall id :: IsDue(rows, links, startAt, endAt, id) ==> DueFor(rows, id) in due)
    && (forall i, j :: 0 <= i < j < |due| ==> due[i].bookingId != due[j].bookingId)
  }

  // ---- creating a batch ----

  // INSERT ... ON CONFLICT (booking_id) DO NOTHING
  function InsertLinks(links: seq<Link>, key: ItemKey, lines: seq<Line>): seq<Link> {
    if lines == [] then links
    else
      var before, l := InsertLinks(links, key, lines[..|lines| - 1]), lines[|lines| - 1];
      if Linked(before, l.bookingId) then before else before + [Link(key, l.bookingId, l.gross, l.tds)]
  }

  function UpsertItem(items: map<ItemKey, Item>, key: ItemKey, d: Draft): map<ItemKey, Item> {
    var gross, tds := DraftSum(d, LineGross), DraftSum(d, LineTds);
    if key in items then
      var it := items[key];
      items[key := it.(bookingCount := it.bookingCount + |d.lines|, gross := it.gross + gross,
                       tds := it.tds + tds, net := it.net + (gross - tds))]
    else items[key := Item(d.ownerId, ItemPending, |d.lines|, gross, tds, gross - tds)]
  }

  function AddDrafts(b: Books, batchId: nat, drafts: seq<Draft>): Books {
    if drafts == [] then b
    else
      var before, d := AddDrafts(b, batchId, drafts[..|drafts| - 1]), drafts[|drafts| - 1];
      var key := ItemKey(batchId, d.propertyId);
      before.(items := UpsertItem(before.items, key, d), links := InsertLinks(before.links, key, d.lines))
  }

  predicate RefTaken(b: Books, ref: int) { exists id :: id in b.batches && b.batches[id].ref == ref }

  // One batch: its row, its items and links, its totals. The batch reference is unique.
  function CreateBatch(b: Books, batchId: nat, startAt: int, endAt: int, drafts: seq<Draft>): Books {
    var ref := BatchRef(endAt);
    if RefTaken(b, ref) then b
    else
      var filled := AddDrafts(b, batchId, drafts);
      filled.(batches := b.batches[batchId := Batch(ref, startAt, endAt, BatchPending, |drafts|,
        SumOf(drafts, Totals(LineGross)), SumOf(drafts, Totals(LineTds)), SumOf(drafts, Totals(LineNet)))])
  }

  // ---- holding and releasing ----

  function Hold(b: Books, key: ItemKey): Result<Books> {
    if key !in b.items then Err(NotFound)
    else if b.items[key].status != ItemPending then Err(BadRequest)
    else Ok(b.(items := b.items[key := b.items[key].(status := OnHold)]))
  }

  function LegsOf(it: Item): seq<Leg> { ReleaseLegs(it.gross, it.tds, it.net) }

  // Status update and ledger posting in one transaction; any failure marks the item failed.
  ghost function ReleaseOne(b: Books, key: ItemKey, it: Item, bankOk: bool): Books {
    if bankOk && Accepted(LegsOf(it)) && key in b.items then
      b.(items := b.items[key := b.items[key].(status := Released)],
         entries := b.entries + Tag(PayoutRef(key), LegsOf(it)))
    else if key in b.items then b.(items := b.items[key := b.items[key].(status := Failed)])
    else b
  }

  ghost function ReleaseHeld(b: Books, key: ItemKey, bankOk: bool): Result<Books> {
    if key !in b.items then Err(NotFound)
    else if b.items[key].status != OnHold then Err(BadRequest)
    else Ok(ReleaseOne(b, key, b.items[key], bankOk))
  }

  // The loop over the items read with the batch: pending ones are released, the others skipped.
  ghost function ReleaseEach(b: Books, snapshot: map<ItemKey, Item>, order: seq<ItemKey>, bankOk: set<ItemKey>): Books
    requires forall k :: k in order ==> k in snapshot
  {
    if order == [] then b
    else
      var key := order[|order| - 1];
      var before := ReleaseEach(b, snapshot, order[..|order| - 1], bankOk);
      if snapshot[key].status == ItemPending then ReleaseOne(before, key, snapshot[key], key in bankOk) else before
  }

  function CountPending(snapshot: map<ItemKey, Item>, order: seq<ItemKey>): (n: nat)
    requires forall k :: k in order ==> k in snapshot
    ensures n <= |order|
  {
    if order == [] then 0
    else
      CountPending(snapshot, order[..|order| - 1])
      + (if snapshot[order[|order| - 1]].status == ItemPending then 1 else 0)
  }

  function ResultStatus(released: nat, skipped: nat): BatchStatus {
    if skipped == 0 then BatchReleased else if released == 0 then BatchFailed else Partial
  }

  // `order` enumerates the batch's items, each once.
  ghost predicate IsItemList(b: Books, batchId: nat, order: seq<ItemKey>) {
    && (forall k :: k in order <==> k in b.items && k.batchId == batchId)
    && NoDup(order)
  }

  ghost function ReleaseBatch(b: Books, batchId: nat, order: seq<ItemKey>, bankOk: set<ItemKey>): Result<Books>
    requires IsItemList(b, batchId, order)
  {
    if batchId !in b.batches then Err(NotFound)
    else if b.batches[batchId].status == BatchReleased then Err(BadRequest)
    else
      var after := ReleaseEach(b, b.items, order, bankOk);
      var released := CountPending(b.items, order);
      var status := ResultStatus(released, |order| - released);
      Ok(after.(batches := after.batches[batchId := b.batches[batchId].(status := status)]))
  }

  ghost predicate NonePending(snapshot: map<ItemKey, Item>, order: seq<ItemKey>) {
    forall k :: k in order && k in snapshot ==> snapshot[k].status != ItemPending
  }

  ghost predicate AllPending(snapshot: map<ItemKey, Item>, order: seq<ItemKey>) {
    forall k :: k in order && k in snapshot ==> snapshot[k].status == ItemPending
  }

  lemma PendingSnoc(snapshot: map<ItemKey, Item>, order: seq<ItemKey>, k: ItemKey)
    requires k in snapshot
    ensures NonePending(snapshot, order + [k]) <==> NonePending(snapshot, order) && snapshot[k].status != ItemPending
    ensures AllPending(snapshot, order + [k]) <==> AllPending(snapshot, order) && snapshot[k].status == ItemPending
  {
    assert forall j :: j in order + [k] <==> j in order || j == k;
  }

  lemma {:induction false} PendingCounted(snapshot: map<ItemKey, Item>, order: seq<ItemKey>)
    requires forall k :: k in order ==> k in snapshot
    ensures CountPending(snapshot, order) == |order| <==> AllPending(snapshot, order)
    ensures CountPending(snapshot, order) == 0 <==> NonePending(snapshot, order)
  {
    if order != [] {
      var n := |order| - 1;
      assert order == order[..n] + [order[n]];
      PendingCounted(snapshot, order[..n]);
      PendingSnoc(snapshot, order[..n], order[n]);
    }
  }

  function PendingIn(snapshot: map<ItemKey, Item>, order: seq<ItemKey>): set<ItemKey> {
    set k | k in order && k in snapshot && snapshot[k].status == ItemPending
  }

  lemma PendingInSnoc(snapshot: map<ItemKey, Item>, order: seq<ItemKey>, k: ItemKey)
    requires k in snapshot && k !in order
    ensures |PendingIn(snapshot, order + [k])|
            == |PendingIn(snapshot, order)| + (if snapshot[k].status == ItemPending then 1 else 0)
  {
    assert PendingIn(snapshot, order + [k])
        == if snapshot[k].status == ItemPending then PendingIn(snapshot, order) + {k} else PendingIn(snapshot, order);
  }

  lemma {:induction false} PendingSize(snapshot: map<ItemKey, Item>, order: seq<ItemKey>)
    requires NoDup(order) && forall k :: k in order ==> k in snapshot
    ensures CountPending(snapshot, order) == |PendingIn(snapshot, order)|
  {
    if order != [] {
      var n, k := |order| - 1, order[|order| - 1];
      assert order == order[..n] + [k] && k !in order[..n];
      PendingSize(snapshot, order[..n]);
      PendingInSnoc(snapshot, order[..n], k);
    }
  }

  // What became of an item that was released: its transaction went through, or it failed.
  ghost function Tried(it: Item, bankOk: bool): Item {
    it.(status := if bankOk && Accepted(LegsOf(it)) then Released else Failed)
  }

  lemma {:induction false} ReleaseEachItems(b: Books, order: seq<ItemKey>, bankOk: set<ItemKey>)
    requires NoDup(order) && forall k :: k in order ==> k in b.items
    ensures ReleaseEach(b, b.items, order, bankOk).items
            == map k | k in b.items :: if k in order && b.items[k].status == ItemPending
                                       then Tried(b.items[k], k in bankOk) else b.items[k]
  {
    if order != [] {
      var n, key := |order| - 1, order[|order| - 1];
      assert order == order[..n] + [key] && key !in order[..n];
      ReleaseEachItems(b, order[..n], bankOk);
    }
  }

  // Of a batch's items the pending ones are tried, and no other item changes.
  ghost predicate ItemsTried(was: map<ItemKey, Item>, batchId: nat, bankOk: set<ItemKey>, now: map<ItemKey, Item>) {
    && now.Keys == was.Keys
    && forall k :: k in was ==>
         now[k] == if k.batchId == batchId && was[k].status == ItemPending then Tried(was[k], k in bankOk) else was[k]
  }

  // Released when every item was pending, failed when none was.
  ghost function StatusAfter(was: map<ItemKey, Item>, batchId: nat): BatchStatus {
    if forall k :: k in was && k.batchId == batchId ==> was[k].status == ItemPending then BatchReleased
    else if forall k :: k in was && k.batchId == batchId ==> was[k].status != ItemPending then BatchFailed
    else Partial
  }

  function PendingOf(items: map<ItemKey, Item>, batchId: nat): set<ItemKey> {
    set k | k in items && k.batchId == batchId && items[k].status == ItemPending
  }

  lemma BatchItems(b: Books, batchId: nat, order: seq<ItemKey>, bankOk: set<ItemKey>)
    requires IsItemList(b, batchId, order)
    ensures ItemsTried(b.items, batchId, bankOk, ReleaseEach(b, b.items, order, bankOk).items)
    ensures var n := CountPending(b.items, order); ResultStatus(n, |order| - n) == StatusAfter(b.items, batchId)
    ensures CountPending(b.items, order) == |PendingOf(b.items, batchId)|
  {
    PendingSize(b.items, order);
    assert PendingIn(b.items, order) == PendingOf(b.items, batchId);
    ReleaseEachItems(b, order, bankOk);
    PendingCounted(b.items, order);
  }

  lemma {:induction false} AddDraftsFrame(b: Books, batchId: nat, drafts: seq<Draft>)
    ensures AddDrafts(b, batchId, drafts).batches == b.batches && AddDrafts(b, batchId, drafts).entries == b.entries
  {
    if drafts != [] {
      AddDraftsFrame(b, batchId, drafts[..|drafts| - 1]);
    }
  }
}
