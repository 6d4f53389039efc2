/** The payout operations, one at a time, over the payout tables and the ledger. */
module PayoutServices {
  import opened Common
  import opened Money
  import opened Booking
  import opened Ledger
  import opened Payouts
  import opened PayoutBatches
  import opened PayoutShares

  class PayoutsService {
    var batches: map<nat, Batch>
    var items: map<ItemKey, Item>
    var links: seq<Link>
    const ledger: LedgerService

    ghost function State(): Books reads this, ledger {
      Books(batches, items, links, ledger.entries)
    }

    constructor (ledger: LedgerService)
      ensures this.ledger == ledger && State() == Books(map[], map[], [], ledger.entries)
    {
      this.ledger := ledger;
      batches, items, links := map[], map[], [];
    }

    method InsertBookingLinks(key: ItemKey, lines: seq<Line>)
      modifies this`links
      ensures links == InsertLinks(old(links), key, lines)
    {
      for i := 0 to |lines|
        invariant links == InsertLinks(old(links), key, lines[..i])
      {
        assert lines[..i + 1][..i] == lines[..i];
        if !Linked(links, lines[i].bookingId) {
          links := links + [Link(key, lines[i].bookingId, lines[i].gross, lines[i].tds)];
        }
      }
      assert lines[..|lines|] == lines;
    }

    // One transaction: batch row, then per item an upsert and its links, then the totals.
    method CreateBatchAtomic(batchId: nat, startAt: int, endAt: int, drafts: seq<Draft>,
                             totalGross: int, totalTds: int, totalNet: int) returns (ok: bool)
      requires totalGross == SumOf(drafts, Totals(LineGross)) && totalTds == SumOf(drafts, Totals(LineTds))
      requires totalNet == SumOf(drafts, Totals(LineNet))
      modifies this
      ensures ok <==> !RefTaken(old(State()), BatchRef(endAt))
      ensures State() == CreateBatch(old(State()), batchId, startAt, endAt, drafts)
    {
      var ref := BatchRef(endAt);
      if exists id :: id in batches && batches[id].ref == ref { return false; }
      batches := batches[batchId := Batch(ref, startAt, endAt, Processing, 0, 0, 0, 0)];
      ghost var start := old(State()).(batches := batches);
      ghost var prior := old(State());
      for i := 0 to |drafts|
        invariant batches == start.batches && ledger.entries == prior.entries
        invariant items == AddDrafts(prior, batchId, drafts[..i]).items
        invariant links == AddDrafts(prior, batchId, drafts[..i]).links
      {
        assert drafts[..i + 1][..i] == drafts[..i];
        var key := ItemKey(batchId, drafts[i].propertyId);
        items := UpsertItem(items, key, drafts[i]);
        InsertBookingLinks(key, drafts[i].lines);
      }
      assert drafts[..|drafts|] == drafts;
      AddDraftsFrame(prior, batchId, drafts);
      batches := batches[batchId := batches[batchId].(status := BatchPending, itemCount := |drafts|,
        totalGross := totalGross, totalTds := totalTds, totalNet := totalNet)];
      return true;
    }

    method FindDue(rows: Table, startAt: int, endAt: int) returns (due: seq<DueRow>)
      ensures IsQueryResult(due, rows, links, startAt, endAt)
    {
      due := [];
      var left := rows.Keys;
      while left != {}
        invariant left <= rows.Keys
        invariant forall r :: r in due ==>
          r.bookingId !in left && IsDue(rows, links, startAt, endAt, r.bookingId) && r == DueFor(rows, r.bookingId)
        invariant forall id :: id in rows && id !in left && IsDue(rows, links, startAt, endAt, id) ==>
          DueFor(rows, id) in due
        invariant forall i, j :: 0 <= i < j < |due| ==> due[i].bookingId != due[j].bookingId
        decreases |left|
      {
        var id :| id in left;
        left := left - {id};
        if IsDue(rows, links, startAt, endAt, id) {
          due := due + [DueFor(rows, id)];
        }
      }
    }

    method GenerateBatch(rows: Table, batchId: nat, startAt: int, endAt: int, tdsPct: int)
      returns (created: bool, totalNet: int, ghost due: seq<DueRow>)
      requires IsPct(tdsPct)
      modifies this
      ensures IsQueryResult(due, rows, old(links), startAt, endAt)
      ensures State() == CreateBatch(old(State()), batchId, startAt, endAt, Group(due, tdsPct))
      ensures totalNet == RowLineSum(due, tdsPct, LineNet)
      ensures created <==> forall id :: id in old(batches) ==> old(batches)[id].ref != endAt / 86_400_000
      ensures created ==>
        && AddsShares(rows, old(links), batchId, startAt, endAt, tdsPct, links)
        && batchId in batches
        && batches == old(batches)[batchId := Batch(
             endAt / 86_400_000, startAt, endAt, BatchPending,
             |set r | r in due && r.base - r.fee - r.refund > 0 :: r.propertyId|,
             SumOf(due, Gross), SumOf(due, Gross) - totalNet, totalNet)]
      ensures !created ==> State() == old(State())
    {
      var bookingRows := FindDue(rows, startAt, endAt);
      due := bookingRows;
      var drafts := GroupByProperty(bookingRows, tdsPct);
      totalNet := SumOf(drafts, Totals(LineNet));
      var totalGross := SumOf(drafts, Totals(LineGross));
      var totalTds := SumOf(drafts, Totals(LineTds));
      GroupConserves(due, tdsPct, LineNet);
      TotalsAgree(due, tdsPct);
      ItemsCounted(due, tdsPct);
      if !RefTaken(State(), BatchRef(endAt)) {
        BatchPaysShares(rows, State(), batchId, startAt, endAt, tdsPct, due);
      }
      created := CreateBatchAtomic(batchId, startAt, endAt, drafts, totalGross, totalTds, totalNet);
    }

    method HoldItem(key: ItemKey) returns (r: Result<Item>)
      modifies this`items
      ensures match Hold(old(State()), key)
              case Ok(b) => State() == b && key in items && r == Ok(items[key])
              case Err(e) => State() == old(State()) && r == Err(e)
      ensures r.Ok? <==> key in old(items) && old(items)[key].status == ItemPending
      ensures items == if r.Ok? then old(items)[key := old(items)[key].(status := OnHold)] else old(items)
    {
      if key !in items { return Err(NotFound); }
      if items[key].status != ItemPending { return Err(BadRequest); }
      items := items[key := items[key].(status := OnHold)];
      return Ok(items[key]);
    }

    method ReleaseItemInternal(key: ItemKey, item: Item, bankOk: bool) returns (updated: Item)
      requires key in items && ledger.Valid()
      modifies this`items, ledger
      ensures State() == ReleaseOne(old(State()), key, item, bankOk) && ledger.Valid()
      ensures key in items && updated == items[key]
    {
      var posted := false;
      if bankOk {
        // Throws, and rolls the item back, when it does not balance.
        posted := ledger.Post(PayoutRef(key), LegsOf(item));
      }
      items := items[key := items[key].(status := if posted then Released else Failed)];
      updated := items[key];
    }

    method ReleaseItem(key: ItemKey, bankOk: bool) returns (r: Result<Item>)
      requires ledger.Valid()
      modifies this`items, ledger
      ensures ledger.Valid()
      ensures match ReleaseHeld(old(State()), key, bankOk)
              case Ok(b) => State() == b && key in items && r == Ok(items[key])
              case Err(e) => State() == old(State()) && r == Err(e)
      ensures r.Ok? <==> key in old(items) && old(items)[key].status == OnHold
      ensures r.Ok? ==>
        var it, paid := old(items)[key], bankOk && Accepted(LegsOf(old(items)[key]));
        && items == old(items)[key := it.(status := if paid then Released else Failed)]
        && ledger.entries == old(ledger.entries) + if paid then Tag(PayoutRef(key), LegsOf(it)) else []
      ensures r.Err? ==> items == old(items) && ledger.entries == old(ledger.entries)
    {
      if key !in items { return Err(NotFound); }
      if items[key].status != OnHold { return Err(BadRequest); }
      var updated := ReleaseItemInternal(key, items[key], bankOk);
      return Ok(updated);
    }

    method ItemsOf(batchId: nat) returns (order: seq<ItemKey>)
      ensures IsItemList(State(), batchId, order)
    {
      order := [];
      var left := items.Keys;
      while left != {}
        invariant left <= items.Keys
        invariant forall k :: k in order <==> k in items && k !in left && k.batchId == batchId
        invariant NoDup(order)
        decreases |left|
      {
        var k :| k in left;
        left := left - {k};
        if k.batchId == batchId {
          NoDupSnoc(order, k);
          order := order + [k];
        }
      }
    }

    // The loop over the items read with the batch.
    method ReleasePending(batchItems: seq<ItemKey>, bankOk: set<ItemKey>) returns (released: nat, skipped: nat)
      requires ledger.Valid() && forall k :: k in batchItems ==> k in items
      modifies this`items, ledger
      ensures ledger.Valid()
      ensures State() == ReleaseEach(old(State()), old(items), batchItems, bankOk)
      ensures released == CountPending(old(items), batchItems) && released + skipped == |batchItems|
    {
      var snapshot := items;
      ghost var prior := State();
      released, skipped := 0, 0;
      for i := 0 to |batchItems|
        invariant ledger.Valid() && items.Keys == snapshot.Keys
        invariant forall k :: k in batchItems ==> k in snapshot
        invariant State() == ReleaseEach(prior, snapshot, batchItems[..i], bankOk)
        invariant released == CountPending(snapshot, batchItems[..i]) && released + skipped == i
      {
        assert batchItems[..i + 1][..i] == batchItems[..i];
        var key := batchItems[i];
        if snapshot[key].status != ItemPending {
          skipped := skipped + 1;
        } else {
          var _ := ReleaseItemInternal(key, snapshot[key], key in bankOk);
          released := released + 1;
        }
      }
      assert batchItems[..|batchItems|] == batchItems;
    }

    method ReleaseBatchItems(batchId: nat, bankOk: set<ItemKey>)
      returns (r: Result<(nat, nat)>, ghost order: seq<ItemKey>)
      requires ledger.Valid()
      modifies this, ledger
      ensures ledger.Valid() && IsItemList(old(State()), batchId, order)
      ensures match ReleaseBatch(old(State()), batchId, order, bankOk)
              case Ok(b) =>
                State() == b && r.Ok? && r.value.0 == CountPending(old(items), order) &&
                  r.value.0 + r.value.1 == |order|
              case Err(e) => State() == old(State()) && r == Err(e)
      ensures r.Ok? <==> batchId in old(batches) && old(batches)[batchId].status != BatchReleased
      ensures r.Ok? ==> r.value.0 == |PendingOf(old(items), batchId)|
      ensures r.Ok? ==> ItemsTried(old(items), batchId, bankOk, items)
      ensures r.Ok? ==>
        batches == old(batches)[batchId := old(batches)[batchId].(status := StatusAfter(old(items), batchId))]
    {
      var batchItems := ItemsOf(batchId);
      order := batchItems;
      if batchId !in batches { return Err(NotFound), order; }
      if batches[batchId].status == BatchReleased { return Err(BadRequest), order; }
      BatchItems(State(), batchId, order, bankOk);
      var released, skipped := ReleasePending(batchItems, bankOk);
      batches := batches[batchId := batches[batchId].(status := ResultStatus(released, skipped))];
      return Ok((released, skipped)), order;
    }
  }
}
