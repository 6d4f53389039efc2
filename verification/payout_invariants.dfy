/** What every payout operation keeps: item amounts, unique links, ledger references, released batches. */
module PayoutInvariants {
  import opened Common
  import opened Money
  import opened Booking
  import opened Ledger
  import opened Payouts
  import opened PayoutBatches

  function GrossOf(links: seq<Link>, key: ItemKey): int {
    if links == [] then 0
    else GrossOf(links[..|links| - 1], key) + (if links[|links| - 1].item == key then links[|links| - 1].gross else 0)
  }

  function TdsOf(links: seq<Link>, key: ItemKey): int {
    if links == [] then 0
    else TdsOf(links[..|links| - 1], key) + (if links[|links| - 1].item == key then links[|links| - 1].tds else 0)
  }

  function CountOf(links: seq<Link>, key: ItemKey): nat {
    if links == [] then 0
    else CountOf(links[..|links| - 1], key) + (if links[|links| - 1].item == key then 1 else 0)
  }

  ghost predicate ItemOk(links: seq<Link>, key: ItemKey, it: Item) {
    && it.gross == GrossOf(links, key) && it.tds == TdsOf(links, key) && it.net == it.gross - it.tds
    && 0 < it.gross && 0 <= it.tds <= it.gross && it.bookingCount == CountOf(links, key)
  }

  ghost predicate ItemsOk(items: map<ItemKey, Item>, links: seq<Link>) {
    && (forall key :: key in items ==> ItemOk(links, key, items[key]))
    && (forall l :: l in links ==> l.item in items)
  }

  // Each link pays one completed booking no more than its base less its commission.
  ghost predicate LinkOk(rows: Table, l: Link) {
    && l.bookingId in rows && rows[l.bookingId].status == Completed
    && 0 < l.gross <= rows[l.bookingId].base - rows[l.bookingId].fee
  }

  ghost predicate LinksOk(rows: Table, links: seq<Link>) {
    && (forall l :: l in links ==> LinkOk(rows, l))
    && (forall i, j :: 0 <= i < j < |links| ==> links[i].bookingId != links[j].bookingId)
  }

  function EntriesFor(entries: seq<Entry>, ref: Ref): seq<Entry> {
    if entries == [] then []
    else
      var before, e := EntriesFor(entries[..|entries| - 1], ref), entries[|entries| - 1];
      if e.ref == ref then before + [e] else before
  }

  // Released exactly when the ledger holds the item's one balanced transaction.
  ghost predicate ReferenceOk(b: Books, key: ItemKey) {
    EntriesFor(b.entries, PayoutRef(key))
    == if key in b.items && b.items[key].status == Released then Tag(PayoutRef(key), LegsOf(b.items[key])) else []
  }

  ghost predicate Settled(it: Item) { it.status == Released || it.status == Failed }

  ghost predicate BatchesOk(b: Books) {
    && (forall key :: key in b.items ==> key.batchId in b.batches)
    && (forall key :: key in b.items && b.batches[key.batchId].status == BatchReleased ==> Settled(b.items[key]))
  }

  ghost predicate BooksOk(rows: Table, b: Books) {
    ItemsOk(b.items, b.links) && LinksOk(rows, b.links) && BatchesOk(b) && forall key :: ReferenceOk(b, key)
  }

  // ---- ledger references ----

  lemma {:induction false} EntriesConcat(x: seq<Entry>, y: seq<Entry>, ref: Ref)
    ensures EntriesFor(x + y, ref) == EntriesFor(x, ref) + EntriesFor(y, ref)
  {
    if y == [] {
      assert x + y == x;
    } else {
      assert (x + y)[..|x + y| - 1] == x + y[..|y| - 1];
      EntriesConcat(x, y[..|y| - 1], ref);
    }
  }

  lemma {:induction false} EntriesOfTag(legs: seq<Leg>, of: Ref, ref: Ref)
    ensures EntriesFor(Tag(of, legs), ref) == if of == ref then Tag(of, legs) else []
  {
    if legs != [] {
      assert Tag(of, legs)[..|legs| - 1] == Tag(of, legs[..|legs| - 1]);
      EntriesOfTag(legs[..|legs| - 1], of, ref);
    }
  }

  lemma PostingReferences(entries: seq<Entry>, of: Ref, legs: seq<Leg>)
    ensures forall ref :: EntriesFor(entries + Tag(of, legs), ref)
                          == EntriesFor(entries, ref) + (if of == ref then Tag(of, legs) else [])
  {
    forall ref ensures EntriesFor(entries + Tag(of, legs), ref)
                       == EntriesFor(entries, ref) + (if of == ref then Tag(of, legs) else [])
    {
      EntriesConcat(entries, Tag(of, legs), ref);
      EntriesOfTag(legs, of, ref);
    }
  }

  // ---- releasing ----

  // What a release leaves in the tables, whatever else they hold.
  lemma ReleaseOneShape(b: Books, key: ItemKey, bankOk: bool)
    requires key in b.items && ItemOk(b.links, key, b.items[key])
    ensures var c := ReleaseOne(b, key, b.items[key], bankOk);
            && c.batches == b.batches && c.links == b.links
            && c.items == b.items[key := b.items[key].(status := if bankOk then Released else Failed)]
            && c.entries == if bankOk then b.entries + Tag(PayoutRef(key), LegsOf(b.items[key])) else b.entries
  {
    ReleaseAccepted(key, b.items[key].gross, b.items[key].tds);
  }

  lemma ReleaseKeepsReference(b: Books, key: ItemKey, bankOk: bool, c: Books, k: ItemKey)
    requires ReferenceOk(b, k) && key in b.items && !Settled(b.items[key])
    requires c.items == b.items[key := b.items[key].(status := if bankOk then Released else Failed)]
    requires c.entries == if bankOk then b.entries + Tag(PayoutRef(key), LegsOf(b.items[key])) else b.entries
    ensures ReferenceOk(c, k)
  {
    if bankOk {
      PostingReferences(b.entries, PayoutRef(key), LegsOf(b.items[key]));
    }
  }

  // A pending or held item becomes released with its transaction, or failed without one.
  lemma ReleaseOneKeeps(rows: Table, b: Books, key: ItemKey, bankOk: bool)
    requires BooksOk(rows, b) && key in b.items && !Settled(b.items[key])
    ensures var c := ReleaseOne(b, key, b.items[key], bankOk);
            && BooksOk(rows, c) && c.batches == b.batches && c.links == b.links
            && c.items == b.items[key := b.items[key].(status := if bankOk then Released else Failed)]
            && c.entries == if bankOk then b.entries + Tag(PayoutRef(key), LegsOf(b.items[key])) else b.entries
  {
    var c := ReleaseOne(b, key, b.items[key], bankOk);
    assert ItemOk(b.links, key, b.items[key]);
    ReleaseOneShape(b, key, bankOk);
    forall k ensures ReferenceOk(c, k) {
      assert ReferenceOk(b, k);
      ReleaseKeepsReference(b, key, bankOk, c, k);
    }
  }

  // What releasing a list of items leaves behind.
  ghost predicate After(b: Books, order: seq<ItemKey>, c: Books) {
    && c.batches == b.batches && c.links == b.links && c.items.Keys == b.items.Keys
    && (forall k :: k in b.items && (k !in order || b.items[k].status != ItemPending) ==> c.items[k] == b.items[k])
    && (forall k :: k in order && k in b.items && b.items[k].status == ItemPending ==> Settled(c.items[k]))
  }

  lemma AfterNext(b: Books, order: seq<ItemKey>, c: Books, key: ItemKey, d: Books)
    requires After(b, order, c) && key in b.items && key !in order && b.items[key].status == ItemPending
    requires d.batches == c.batches && d.links == c.links
    requires exists status ::
      (status == Released || status == Failed) && d.items == c.items[key := c.items[key].(status := status)]
    ensures After(b, order + [key], d)
  {
  }

  lemma {:induction false} ReleaseEachKeeps(rows: Table, b: Books, order: seq<ItemKey>, bankOk: set<ItemKey>)
    requires BooksOk(rows, b) && NoDup(order) && forall k :: k in order ==> k in b.items
    ensures BooksOk(rows, ReleaseEach(b, b.items, order, bankOk)) &&
      After(b, order, ReleaseEach(b, b.items, order, bankOk))
  {
    if order != [] {
      var n, key := |order| - 1, order[|order| - 1];
      assert order == order[..n] + [key] && key !in order[..n];
      ReleaseEachKeeps(rows, b, order[..n], bankOk);
      var c := ReleaseEach(b, b.items, order[..n], bankOk);
      if b.items[key].status == ItemPending {
        assert c.items[key] == b.items[key];
        ReleaseOneKeeps(rows, c, key, key in bankOk);
        AfterNext(b, order[..n], c, key, ReleaseOne(c, key, c.items[key], key in bankOk));
      }
    }
  }

  lemma ReleaseBatchKeeps(rows: Table, b: Books, batchId: nat, order: seq<ItemKey>, bankOk: set<ItemKey>)
    requires BooksOk(rows, b) && IsItemList(b, batchId, order) && ReleaseBatch(b, batchId, order, bankOk).Ok?
    ensures var c := ReleaseBatch(b, batchId, order, bankOk).value;
            BooksOk(rows, c) && After(b, order, c.(batches := b.batches))
  {
    var mid := ReleaseEach(b, b.items, order, bankOk);
    var c := ReleaseBatch(b, batchId, order, bankOk).value;
    ReleaseEachKeeps(rows, b, order, bankOk);
    assert c == mid.(batches := c.batches);
    forall k ensures ReferenceOk(c, k) {
      assert ReferenceOk(mid, k);
    }
    if CountPending(b.items, order) == |order| {
      PendingCounted(b.items, order);
    }
  }

  lemma HoldKeeps(rows: Table, b: Books, key: ItemKey)
    requires BooksOk(rows, b) && Hold(b, key).Ok?
    ensures BooksOk(rows, Hold(b, key).value)
  {
    var c := Hold(b, key).value;
    forall k ensures ReferenceOk(c, k) {
      assert ReferenceOk(b, k);
    }
  }

  // ---- generating ----

  function AsLinks(key: ItemKey, lines: seq<Line>): seq<Link> {
    seq(|lines|, i requires 0 <= i < |lines| => Link(key, lines[i].bookingId, lines[i].gross, lines[i].tds))
  }

  ghost predicate DistinctLines(lines: seq<Line>) {
    forall i, j :: 0 <= i < j < |lines| ==> lines[i].bookingId != lines[j].bookingId
  }

  lemma StillUnlinked(links: seq<Link>, key: ItemKey, lines: seq<Line>, id: nat)
    requires !Linked(links, id) && forall l :: l in lines ==> l.bookingId != id
    ensures !Linked(links + AsLinks(key, lines), id)
  {
    forall l | l in links + AsLinks(key, lines) ensures l.bookingId != id {
      if l !in links {
        var i :| 0 <= i < |lines| && l == AsLinks(key, lines)[i];
        assert lines[i] in lines;
      }
    }
  }

  lemma {:induction false} InsertAll(links: seq<Link>, key: ItemKey, lines: seq<Line>)
    requires DistinctLines(lines) && forall l :: l in lines ==> !Linked(links, l.bookingId)
    ensures InsertLinks(links, key, lines) == links + AsLinks(key, lines)
  {
    if lines != [] {
      var n, last := |lines| - 1, lines[|lines| - 1];
      assert last in lines && forall l :: l in lines[..n] ==> l in lines;
      InsertAll(links, key, lines[..n]);
      forall l | l in lines[..n] ensures l.bookingId != last.bookingId {
        var i :| 0 <= i < n && l == lines[i];
      }
      StillUnlinked(links, key, lines[..n], last.bookingId);
      assert AsLinks(key, lines) == AsLinks(key, lines[..n]) + [Link(key, last.bookingId, last.gross, last.tds)];
    }
  }

  lemma {:induction false} InsertedSums(links: seq<Link>, key: ItemKey, lines: seq<Line>, k: ItemKey)
    ensures GrossOf(links + AsLinks(key, lines), k) == GrossOf(links, k) +
      (if k == key then SumOf(lines, LineGross) else 0)
    ensures TdsOf(links + AsLinks(key, lines), k) == TdsOf(links, k) + (if k == key then SumOf(lines, LineTds) else 0)
    ensures CountOf(links + AsLinks(key, lines), k) == CountOf(links, k) + (if k == key then |lines| else 0)
  {
    if lines == [] {
      assert links + AsLinks(key, lines) == links;
    } else {
      var n := |lines| - 1;
      InsertedSums(links, key, lines[..n], k);
      assert (links + AsLinks(key, lines))[..|links| + n] == links + AsLinks(key, lines[..n]);
    }
  }

  lemma {:induction false} NoLinksNoGross(links: seq<Link>, key: ItemKey)
    requires forall l :: l in links ==> l.item != key
    ensures GrossOf(links, key) == 0 && TdsOf(links, key) == 0 && CountOf(links, key) == 0
  {
    if links != [] {
      NoLinksNoGross(links[..|links| - 1], key);
    }
  }

  // A line pays the due row of the same booking and property.
  ghost predicate Pays(due: seq<DueRow>, propertyId: nat, l: Line) {
    exists r :: r in due && r.bookingId == l.bookingId && r.propertyId == propertyId && l.gross == Gross(r)
  }

  ghost predicate DraftOk(due: seq<DueRow>, d: Draft) {
    d.lines != [] && DistinctLines(d.lines) && forall l :: l in d.lines ==> LineOk(l) && Pays(due, d.propertyId, l)
  }

  ghost predicate DistinctDue(due: seq<DueRow>) {
    forall i, j :: 0 <= i < j < |due| ==> due[i].bookingId != due[j].bookingId
  }

  lemma {:induction false} LinesDistinct(due: seq<DueRow>, p: nat, tdsPct: int)
    requires DistinctDue(due) && IsPct(tdsPct)
    ensures DistinctLines(LinesFor(due, p, tdsPct))
  {
    if due != [] {
      var n := |due| - 1;
      LinesDistinct(due[..n], p, tdsPct);
      LinesForOk(due[..n], p, tdsPct);
      var before := LinesFor(due[..n], p, tdsPct);
      forall l | l in before ensures l.bookingId != due[n].bookingId {
        var r :| r in due[..n] && l == LineOf(r, tdsPct);
        var i :| 0 <= i < n && due[i] == r;
      }
    }
  }

  lemma GroupFits(due: seq<DueRow>, tdsPct: int)
    requires DistinctDue(due) && IsPct(tdsPct)
    ensures DistinctProperties(Group(due, tdsPct))
    ensures forall d :: d in Group(due, tdsPct) ==> DraftOk(due, d)
  {
    GroupPartitions(due, tdsPct);
    forall d | d in Group(due, tdsPct) ensures DraftOk(due, d) {
      LinesDistinct(due, d.propertyId, tdsPct);
      LinesForOk(due, d.propertyId, tdsPct);
    }
  }

  ghost predicate DueOk(rows: Table, links: seq<Link>, due: seq<DueRow>) {
    && DistinctDue(due)
    && forall r :: r in due ==>
         && !Linked(links, r.bookingId)
         && r.bookingId in rows && rows[r.bookingId].status == Completed
         && Gross(r) <= rows[r.bookingId].base - rows[r.bookingId].fee
  }

  ghost predicate Grown(b: Books, batchId: nat, drafts: seq<Draft>, due: seq<DueRow>, c: Books) {
    && (forall key :: key in b.items ==> key in c.items && c.items[key] == b.items[key])
    && (forall key :: key in c.items && key !in b.items ==>
         key.batchId == batchId && c.items[key].status == ItemPending && exists d ::
           d in drafts && d.propertyId == key.propertyId)
    && (forall l :: l in c.links && l !in b.links ==>
         exists r, d :: r in due && r.bookingId == l.bookingId && d in drafts && d.propertyId == r.propertyId)
  }

  lemma NotYetLinked(rows: Table, b: Books, batchId: nat, drafts: seq<Draft>, due: seq<DueRow>, c: Books, d: Draft,
          l: Line)
    requires DueOk(rows, b.links, due) && Grown(b, batchId, drafts, due, c)
    requires DraftOk(due, d) && l in d.lines && forall e :: e in drafts ==> e.propertyId != d.propertyId
    ensures !Linked(c.links, l.bookingId)
  {
    var r :| r in due && r.bookingId == l.bookingId && r.propertyId == d.propertyId;
    forall k | k in c.links ensures k.bookingId != l.bookingId {
      if k !in b.links {
        var r', d' :| r' in due && r'.bookingId == k.bookingId && d' in drafts && d'.propertyId == r'.propertyId;
      }
    }
  }

  lemma AddedItems(b: Books, key: ItemKey, d: Draft)
    requires ItemsOk(b.items, b.links) && key !in b.items && d.lines != [] && forall l :: l in d.lines ==> LineOk(l)
    ensures var links, items := b.links + AsLinks(key, d.lines), UpsertItem(b.items, key, d);
            forall k :: k in items ==> ItemOk(links, k, items[k])
  {
    var links, items := b.links + AsLinks(key, d.lines), UpsertItem(b.items, key, d);
    LinesBound(d.lines);
    NoLinksNoGross(b.links, key);
    forall k | k in items ensures ItemOk(links, k, items[k]) {
      InsertedSums(b.links, key, d.lines, k);
      if k != key {
        assert ItemOk(b.links, k, b.items[k]);
      }
    }
  }

  // One more item with its links, on tables in which the key is new and none of its bookings is linked.
  lemma AddOneKeeps(rows: Table, b: Books, key: ItemKey, d: Draft, due: seq<DueRow>)
    requires ItemsOk(b.items, b.links) && LinksOk(rows, b.links) && key !in b.items
    requires DraftOk(due, d) && key.propertyId == d.propertyId
    requires forall r :: r in due ==>
      r.bookingId in rows && rows[r.bookingId].status == Completed &&
        Gross(r) <= rows[r.bookingId].base - rows[r.bookingId].fee
    requires forall l :: l in d.lines ==> !Linked(b.links, l.bookingId)
    ensures ItemsOk(UpsertItem(b.items, key, d), InsertLinks(b.links, key, d.lines))
    ensures LinksOk(rows, InsertLinks(b.links, key, d.lines))
    ensures InsertLinks(b.links, key, d.lines) == b.links + AsLinks(key, d.lines)
  {
    InsertAll(b.links, key, d.lines);
    var added := AsLinks(key, d.lines);
    var links, items := b.links + added, UpsertItem(b.items, key, d);
    AddedItems(b, key, d);
    forall l | l in links ensures l.item in items && LinkOk(rows, l) {
      if l !in b.links {
        var i :| 0 <= i < |d.lines| && added[i] == l;
        assert d.lines[i] in d.lines;
        assert Pays(due, d.propertyId, d.lines[i]);
      }
    }
    AppendDistinct(b.links, added);
  }

  lemma AppendDistinct(x: seq<Link>, y: seq<Link>)
    requires forall i, j :: 0 <= i < j < |x| ==> x[i].bookingId != x[j].bookingId
    requires forall i, j :: 0 <= i < j < |y| ==> y[i].bookingId != y[j].bookingId
    requires forall j :: 0 <= j < |y| ==> !Linked(x, y[j].bookingId)
    ensures forall i, j :: 0 <= i < j < |x + y| ==> (x + y)[i].bookingId != (x + y)[j].bookingId
  {
    forall i, j | 0 <= i < j < |x + y| ensures (x + y)[i].bookingId != (x + y)[j].bookingId {
      if i < |x| <= j {
        assert x[i] in x && !Linked(x, y[j - |x|].bookingId);
      }
    }
  }

  function AddDraft(b: Books, key: ItemKey, d: Draft): Books {
    b.(items := UpsertItem(b.items, key, d), links := InsertLinks(b.links, key, d.lines))
  }

  lemma AddLastKeeps(rows: Table, b: Books, batchId: nat, drafts: seq<Draft>, due: seq<DueRow>, before: Books, d: Draft)
    requires ItemsOk(before.items, before.links) && LinksOk(rows, before.links) && DueOk(rows, b.links, due)
    requires Grown(b, batchId, drafts, due, before) && DraftOk(due, d)
    requires ItemKey(batchId, d.propertyId) !in b.items && forall e :: e in drafts ==> e.propertyId != d.propertyId
    ensures var c := AddDraft(before, ItemKey(batchId, d.propertyId), d);
            ItemsOk(c.items, c.links) && LinksOk(rows, c.links) && Grown(b, batchId, drafts + [d], due, c)
  {
    forall l | l in d.lines ensures !Linked(before.links, l.bookingId) {
      NotYetLinked(rows, b, batchId, drafts, due, before, d, l);
    }
    AddOneKeeps(rows, before, ItemKey(batchId, d.propertyId), d, due);
    GrownSnoc(b, batchId, drafts, due, before, d);
  }

  lemma {:induction false} AddDraftsKeep(rows: Table, b: Books, batchId: nat, drafts: seq<Draft>, due: seq<DueRow>)
    requires ItemsOk(b.items, b.links) && LinksOk(rows, b.links) && DueOk(rows, b.links, due)
    requires forall key :: key in b.items ==> key.batchId != batchId
    requires DistinctProperties(drafts) && forall d :: d in drafts ==> DraftOk(due, d)
    ensures var c := AddDrafts(b, batchId, drafts);
            ItemsOk(c.items, c.links) && LinksOk(rows, c.links) && Grown(b, batchId, drafts, due, c)
  {
    if drafts != [] {
      var n, d := |drafts| - 1, drafts[|drafts| - 1];
      assert drafts == drafts[..n] + [d];
      AddDraftsKeep(rows, b, batchId, drafts[..n], due);
      AddLastKeeps(rows, b, batchId, drafts[..n], due, AddDrafts(b, batchId, drafts[..n]), d);
    }
  }

  lemma GrownSnoc(b: Books, batchId: nat, drafts: seq<Draft>, due: seq<DueRow>, before: Books, d: Draft)
    requires Grown(b, batchId, drafts, due, before) && DraftOk(due, d)
    requires var key := ItemKey(batchId, d.propertyId);
             key !in before.items && InsertLinks(before.links, key, d.lines) == before.links + AsLinks(key, d.lines)
    ensures var key := ItemKey(batchId, d.propertyId);
            Grown(b, batchId, drafts + [d], due, AddDraft(before, key, d))
  {
    var key := ItemKey(batchId, d.propertyId);
    var c := AddDraft(before, key, d);
    assert d in drafts + [d];
    forall l | l in c.links && l !in b.links
      ensures exists r, e :: r in due && r.bookingId == l.bookingId && e in drafts + [d] && e.propertyId == r.propertyId
    {
      if l in before.links {
        var r, e :| r in due && r.bookingId == l.bookingId && e in drafts && e.propertyId == r.propertyId;
        assert e in drafts + [d];
      } else {
        var i :| 0 <= i < |d.lines| && AsLinks(key, d.lines)[i] == l;
        assert d.lines[i] in d.lines && Pays(due, d.propertyId, d.lines[i]);
      }
    }
  }

  // What a batch made of due rows keeps, whenever they were read.
  lemma CreateKeeps(rows: Table, b: Books, batchId: nat, startAt: int, endAt: int, tdsPct: int, due: seq<DueRow>)
    requires BooksOk(rows, b) && batchId !in b.batches && IsPct(tdsPct) && DueOk(rows, b.links, due)
    ensures var c := CreateBatch(b, batchId, startAt, endAt, Group(due, tdsPct));
            && BooksOk(rows, c) && c.entries == b.entries
            && (forall key :: key in b.items ==> key in c.items && c.items[key] == b.items[key])
            && (forall key :: key in c.items && key !in b.items ==> c.items[key].status == ItemPending)
  {
    var drafts := Group(due, tdsPct);
    var c := CreateBatch(b, batchId, startAt, endAt, drafts);
    if !RefTaken(b, BatchRef(endAt)) {
      GroupFits(due, tdsPct);
      AddDraftsKeep(rows, b, batchId, drafts, due);
      AddDraftsFrame(b, batchId, drafts);
      forall key ensures ReferenceOk(c, key) {
        assert ReferenceOk(b, key);
      }
    }
  }

  lemma QueryResultOk(rows: Table, links: seq<Link>, startAt: int, endAt: int, due: seq<DueRow>)
    requires IsQueryResult(due, rows, links, startAt, endAt)
    requires forall id :: id in rows ==> 0 <= RefundedSoFar(rows[id]) && rows[id].fee <= rows[id].base
    ensures DueOk(rows, links, due)
  {
  }

  /** Generating a batch keeps every payout invariant; existing items are untouched. */
  lemma GenerateKeeps(rows: Table, b: Books, batchId: nat, startAt: int, endAt: int, tdsPct: int, due: seq<DueRow>)
    requires BooksOk(rows, b) && batchId !in b.batches && IsPct(tdsPct)
    requires IsQueryResult(due, rows, b.links, startAt, endAt)
    requires forall id :: id in rows ==> 0 <= RefundedSoFar(rows[id]) && rows[id].fee <= rows[id].base
    ensures var c := CreateBatch(b, batchId, startAt, endAt, Group(due, tdsPct));
            && BooksOk(rows, c) && c.entries == b.entries
            && (forall key :: key in b.items ==> key in c.items && c.items[key] == b.items[key])
            && (forall key :: key in c.items && key !in b.items ==> c.items[key].status == ItemPending)
  {
    QueryResultOk(rows, b.links, startAt, endAt, due);
    CreateKeeps(rows, b, batchId, startAt, endAt, tdsPct, due);
  }
}
