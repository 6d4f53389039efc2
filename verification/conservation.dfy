/**
 From payment to payout: bookings under arbitrary interleaving, the ledger entries
 their captures post, and the payout operations that drain the owners' accounts.
 */
module Conservation {
  import opened Common
  import opened Money
  import opened Booking
  import opened Lifecycle
  import opened Ledger
  import opened Payouts
  import opened PayoutBatches
  import opened PayoutInvariants
  import opened PayoutShares

  datatype World = World(db: Db, books: Books)

  datatype Step =
    | Book(action: Action)
    | Generate(batchId: nat, startAt: int, endAt: int, tdsPct: int, due: seq<DueRow>)
    | HoldStep(key: ItemKey)
    | ReleaseStep(key: ItemKey, bankOk: bool)
    | ReleaseBatchStep(batchId: nat, order: seq<ItemKey>, bankOks: set<ItemKey>)

  const START := World(INITIAL, Books(map[], map[], [], []))

  // Booking update, payment update and ledger posting are one transaction.
  ghost function BookStep(w: World, a: Action): World {
    if Captures(w.db, a) then
      var q := w.db.inFlight[a.index];
      var legs := CaptureLegs(q.seen);
      if Accepted(legs) then
        World(Next(NO_GUARD, w.db, a), w.books.(entries := w.books.entries + Tag(BookingRef(q.id), legs)))
      else w
    else w.(db := Next(NO_GUARD, w.db, a))
  }

  ghost function Kept(w: World, r: Result<Books>): World {
    if r.Ok? then w.(books := r.value) else w
  }

  ghost function Advance(w: World, s: Step): World {
    match s
    case Book(a) => BookStep(w, a)
    case Generate(batchId, startAt, endAt, tdsPct, due) =>
      if batchId !in w.books.batches && IsPct(tdsPct) && IsQueryResult(due, w.db.rows, w.books.links, startAt, endAt)
      then w.(books := CreateBatch(w.books, batchId, startAt, endAt, Group(due, tdsPct)))
      else w
    case HoldStep(key) => Kept(w, Hold(w.books, key))
    case ReleaseStep(key, bankOk) => Kept(w, ReleaseHeld(w.books, key, bankOk))
    case ReleaseBatchStep(batchId, order, bankOks) =>
      if IsItemList(w.books, batchId, order) then Kept(w, ReleaseBatch(w.books, batchId, order, bankOks)) else w
  }

  ghost function History(steps: seq<Step>): World {
    if steps == [] then START else Advance(History(steps[..|steps| - 1]), steps[|steps| - 1])
  }

  // ---- what conservation is about ----

  // What a paid booking and a released item move on an account.
  function Brings(b: Row, a: Account): int {
    match a
    case GuestClearing => -(b.base + b.gst)
    case OwnerPayable => b.base - b.fee
    case PlatformCommission => b.fee
    case GstPayable => b.gst
    case TdsPayable => 0
    case BankSettlement => 0
  }

  function Pays(it: Item, a: Account): int {
    match a
    case OwnerPayable => -it.gross
    case TdsPayable => it.tds
    case BankSettlement => it.net
    case GuestClearing => 0
    case PlatformCommission => 0
    case GstPayable => 0
  }

  // Of every booking ever paid for.
  ghost function CapturedBy(db: Db, a: Account): map<nat, int> {
    map id | id in db.rows && id in db.trail && Confirmed in db.trail[id] :: Brings(db.rows[id], a)
  }

  // Of every released item.
  ghost function ReleasedBy(b: Books, a: Account): map<ItemKey, int> {
    map key | key in b.items && b.items[key].status == Released :: Pays(b.items[key], a)
  }

  ghost function ReleasedGross(b: Books): map<ItemKey, int> {
    map key | key in b.items && b.items[key].status == Released :: b.items[key].gross
  }

  ghost predicate AccountOk(w: World, a: Account) {
    Balance(w.books.entries, a) == SumValues(CapturedBy(w.db, a)) + SumValues(ReleasedBy(w.books, a))
  }

  ghost predicate Conserved(w: World) { forall a: Account :: AccountOk(w, a) }

  ghost predicate WorldOk(w: World) {
    && Inv(NO_GUARD, w.db) && BooksOk(w.db.rows, w.books) && Conserved(w)
    && exists txns :: Posted(w.books.entries, txns)
  }

  // ---- preservation ----

  lemma LinksSurvive(guard: set<BookingStatus>, s: Db, a: Action, b: Books)
    requires Inv(guard, s) && BooksOk(s.rows, b)
    ensures BooksOk(Next(guard, s, a).rows, b)
  {
    forall l | l in b.links ensures LinkOk(Next(guard, s, a).rows, l) {
      assert LinkOk(s.rows, l);
      RowsEvolve(guard, s, a, l.bookingId);
    }
  }

  lemma PayableKept(s: Db, a: Action, id: nat)
    requires Inv(NO_GUARD, s) && !Captures(s, a)
    ensures var t := Next(NO_GUARD, s, a);
            && (id in t.rows && id in t.trail && Confirmed in t.trail[id] <==>
              id in s.rows && id in s.trail && Confirmed in s.trail[id])
            && (id in s.rows ==>
                 && id in t.rows && t.rows[id].base == s.rows[id].base && t.rows[id].fee == s.rows[id].fee
                 && t.rows[id].gst == s.rows[id].gst)
  {
    StepKeepsInv(NO_GUARD, s, a);
    assert s.trail.Keys == s.rows.Keys && Next(NO_GUARD, s, a).trail.Keys == Next(NO_GUARD, s, a).rows.Keys;
    OtherStepTrail(NO_GUARD, s, a, id);
    if id in s.rows {
      RowsEvolve(NO_GUARD, s, a, id);
    }
  }

  ghost predicate SameAt(s: Db, t: Db, a: Account, id: nat) {
    && (id in CapturedBy(t, a) <==> id in CapturedBy(s, a))
    && (id in CapturedBy(s, a) && id in CapturedBy(t, a) ==> CapturedBy(t, a)[id] == CapturedBy(s, a)[id])
  }

  lemma PayableSame(s: Db, t: Db, a: Account, id: nat)
    requires id in t.rows && id in t.trail && Confirmed in t.trail[id] <==>
      id in s.rows && id in s.trail && Confirmed in s.trail[id]
    requires id in s.rows ==>
      && id in t.rows && t.rows[id].base == s.rows[id].base && t.rows[id].fee == s.rows[id].fee
      && t.rows[id].gst == s.rows[id].gst
    ensures SameAt(s, t, a, id)
  {
  }

  lemma QuietPayables(s: Db, act: Action, a: Account, t: Db)
    requires Inv(NO_GUARD, s) && !Captures(s, act) && t == Next(NO_GUARD, s, act)
    ensures CapturedBy(t, a) == CapturedBy(s, a)
  {
    forall id: nat ensures SameAt(s, t, a, id) {
      PayableKept(s, act, id);
      PayableSame(s, t, a, id);
    }
    SamePayables(s, t, a);
  }

  lemma SamePayables(s: Db, t: Db, a: Account)
    requires forall id: nat :: SameAt(s, t, a, id)
    ensures CapturedBy(t, a) == CapturedBy(s, a)
  {
    forall id: nat ensures id in CapturedBy(t, a) <==> id in CapturedBy(s, a) {
      assert SameAt(s, t, a, id);
    }
    forall id: nat | id in CapturedBy(s, a) ensures CapturedBy(t, a)[id] == CapturedBy(s, a)[id] {
      assert SameAt(s, t, a, id);
    }
  }

  // A posting that references no payout item leaves the payout tables in order.
  lemma ForeignPosting(rows: Table, b: Books, id: nat, legs: seq<Leg>)
    requires BooksOk(rows, b)
    ensures BooksOk(rows, b.(entries := b.entries + Tag(BookingRef(id), legs)))
  {
    var c := b.(entries := b.entries + Tag(BookingRef(id), legs));
    PostingReferences(b.entries, BookingRef(id), legs);
    forall key ensures ReferenceOk(c, key) {
      assert ReferenceOk(b, key);
    }
  }

  lemma PostedMore(entries: seq<Entry>, ref: Ref, legs: seq<Leg>)
    requires Accepted(legs) && exists txns :: Posted(entries, txns)
    ensures exists txns :: Posted(entries + Tag(ref, legs), txns)
  {
    var txns :| Posted(entries, txns);
    PostedSnoc(entries, txns, ref, legs);
  }

  lemma PayablesInsert(s: Db, t: Db, id: nat, row: Row, a: Account)
    requires s.trail.Keys == s.rows.Keys && id in s.rows && Confirmed !in s.trail[id]
    requires t.rows == s.rows[id := row] && t.trail == s.trail[id := [PendingPayment, Confirmed]]
    ensures SumValues(CapturedBy(t, a)) == SumValues(CapturedBy(s, a)) + Brings(row, a)
  {
    assert id !in CapturedBy(s, a);
    forall j ensures j in CapturedBy(t, a) <==> j in CapturedBy(s, a) || j == id {
    }
    assert CapturedBy(t, a) == CapturedBy(s, a)[id := Brings(row, a)];
    SumValuesInsert(CapturedBy(s, a), id, Brings(row, a));
  }

  lemma CapturePayables(s: Db, act: Action, a: Account, t: Db)
    requires Inv(NO_GUARD, s) && Captures(s, act) && t == Next(NO_GUARD, s, act)
    ensures SumValues(CapturedBy(t, a)) == SumValues(CapturedBy(s, a)) + Brings(s.inFlight[act.index].seen, a)
  {
    var q := s.inFlight[act.index];
    CaptureStep(NO_GUARD, s, act);
    TrailKeys(s);
    SameBrings(q.seen, s.rows[q.id], q.commit.patch, a);
    PayablesInsert(s, t, q.id, Apply(s.rows[q.id], q.commit.patch), a);
  }

  lemma TrailKeys(s: Db)
    requires Inv(NO_GUARD, s)
    ensures s.trail.Keys == s.rows.Keys
  {
  }

  lemma SameBrings(seen: Row, row: Row, p: Patch, a: Account)
    requires seen.base == row.base && seen.gst == row.gst && seen.fee == row.fee
    ensures Brings(Apply(row, p), a) == Brings(seen, a)
  {
  }

  // What the capture's legs move is what the booking brings.
  lemma CaptureMoves(entries: seq<Entry>, id: nat, b: Row, a: Account)
    requires Priced(b)
    ensures Balance(entries + Tag(BookingRef(id), CaptureLegs(b)), a) == Balance(entries, a) + Brings(b, a)
  {
    CaptureBalance(id, b, a);
    BalanceConcat(entries, Tag(BookingRef(id), CaptureLegs(b)), a);
  }

  lemma CaptureShape(w: World, act: Action, v: World)
    requires Inv(NO_GUARD, w.db) && Captures(w.db, act) && v == BookStep(w, act)
    ensures var q := w.db.inFlight[act.index];
            && Priced(q.seen) && Accepted(CaptureLegs(q.seen)) && v.db == Next(NO_GUARD, w.db, act)
            && v.books == w.books.(entries := w.books.entries + Tag(BookingRef(q.id), CaptureLegs(q.seen)))
  {
    CaptureStep(NO_GUARD, w.db, act);
    CaptureAccepted(w.db.inFlight[act.index].id, w.db.inFlight[act.index].seen);
  }

  lemma CaptureAccount(w: World, act: Action, v: World, a: Account)
    requires Inv(NO_GUARD, w.db) && Captures(w.db, act) && AccountOk(w, a) && v == BookStep(w, act)
    ensures AccountOk(v, a)
  {
    var q := w.db.inFlight[act.index];
    CaptureShape(w, act, v);
    CaptureMoves(w.books.entries, q.id, q.seen, a);
    CapturePayables(w.db, act, a, v.db);
    assert ReleasedBy(v.books, a) == ReleasedBy(w.books, a);
  }

  lemma CaptureKeeps(w: World, act: Action, v: World)
    requires WorldOk(w) && Captures(w.db, act) && v == BookStep(w, act)
    ensures WorldOk(v)
  {
    var q := w.db.inFlight[act.index];
    CaptureShape(w, act, v);
    StepKeepsInv(NO_GUARD, w.db, act);
    LinksSurvive(NO_GUARD, w.db, act, w.books);
    ForeignPosting(v.db.rows, w.books, q.id, CaptureLegs(q.seen));
    PostedMore(w.books.entries, BookingRef(q.id), CaptureLegs(q.seen));
    forall a: Account ensures AccountOk(v, a) {
      assert AccountOk(w, a);
      CaptureAccount(w, act, v, a);
    }
  }

  lemma QuietAccount(w: World, act: Action, v: World, a: Account)
    requires Inv(NO_GUARD, w.db) && !Captures(w.db, act) && AccountOk(w, a) && v == BookStep(w, act)
    ensures AccountOk(v, a)
  {
    QuietPayables(w.db, act, a, v.db);
  }

  lemma BookKeeps(w: World, act: Action)
    requires WorldOk(w)
    ensures WorldOk(BookStep(w, act))
  {
    var v := BookStep(w, act);
    if Captures(w.db, act) {
      CaptureKeeps(w, act, v);
    } else {
      StepKeepsInv(NO_GUARD, w.db, act);
      LinksSurvive(NO_GUARD, w.db, act, w.books);
      forall a: Account ensures AccountOk(v, a) {
        assert AccountOk(w, a);
        QuietAccount(w, act, v, a);
      }
    }
  }

  // Releasing pays one item more, on every account it touches.
  lemma ItemReleased(b: Books, key: ItemKey, c: Books, a: Account)
    requires key in b.items && !Settled(b.items[key])
    requires c.items == b.items[key := b.items[key].(status := Released)]
    ensures SumValues(ReleasedBy(c, a)) == SumValues(ReleasedBy(b, a)) + Pays(b.items[key], a)
  {
    assert ReleasedBy(c, a) == ReleasedBy(b, a)[key := Pays(b.items[key], a)];
    SumValuesInsert(ReleasedBy(b, a), key, Pays(b.items[key], a));
  }

  lemma ReleaseMoves(b: Books, key: ItemKey, c: Books, a: Account)
    requires key in b.items && ItemOk(b.links, key, b.items[key])
    requires c.entries == b.entries + Tag(PayoutRef(key), LegsOf(b.items[key]))
    ensures Balance(c.entries, a) == Balance(b.entries, a) + Pays(b.items[key], a)
  {
    var it := b.items[key];
    ReleaseBalance(key, it.gross, it.tds, a);
    BalanceConcat(b.entries, Tag(PayoutRef(key), LegsOf(it)), a);
  }

  lemma ReleaseAccount(w: World, key: ItemKey, v: World, a: Account)
    requires AccountOk(w, a) && key in w.books.items && !Settled(w.books.items[key])
    requires ItemOk(w.books.links, key, w.books.items[key]) && v.db == w.db
    requires v.books.items == w.books.items[key := w.books.items[key].(status := Released)]
    requires v.books.entries == w.books.entries + Tag(PayoutRef(key), LegsOf(w.books.items[key]))
    ensures AccountOk(v, a)
  {
    ItemReleased(w.books, key, v.books, a);
    ReleaseMoves(w.books, key, v.books, a);
  }

  // Entries and released items untouched.
  lemma SameAccount(w: World, v: World, a: Account)
    requires AccountOk(w, a) && v.db == w.db && v.books.entries == w.books.entries
    requires forall key :: key in w.books.items && w.books.items[key].status == Released ==>
      key in v.books.items && v.books.items[key] == w.books.items[key]
    requires forall key :: key in v.books.items && v.books.items[key].status == Released ==> key in w.books.items
    requires forall key :: key in v.books.items && key in w.books.items && v.books.items[key].status == Released ==>
      w.books.items[key].status == Released
    ensures AccountOk(v, a)
  {
    assert ReleasedBy(v.books, a) == ReleasedBy(w.books, a);
  }

  lemma ReleaseOneConserves(w: World, key: ItemKey, bankOk: bool, v: World)
    requires WorldOk(w) && key in w.books.items && !Settled(w.books.items[key])
    requires v == w.(books := ReleaseOne(w.books, key, w.books.items[key], bankOk))
    ensures WorldOk(v)
  {
    ReleaseOneKeeps(w.db.rows, w.books, key, bankOk);
    var it := w.books.items[key];
    assert ItemOk(w.books.links, key, it);
    if bankOk {
      ReleaseAccepted(key, it.gross, it.tds);
      PostedMore(w.books.entries, PayoutRef(key), LegsOf(it));
    }
    forall a: Account ensures AccountOk(v, a) {
      assert AccountOk(w, a);
      if bankOk {
        ReleaseAccount(w, key, v, a);
      } else {
        SameAccount(w, v, a);
      }
    }
  }

  lemma {:induction false} ReleaseEachConserves(w: World, order: seq<ItemKey>, bankOks: set<ItemKey>, v: World)
    requires WorldOk(w) && NoDup(order) && forall k :: k in order ==> k in w.books.items
    requires v == w.(books := ReleaseEach(w.books, w.books.items, order, bankOks))
    ensures WorldOk(v)
    decreases |order|
  {
    if order != [] {
      var n, key := |order| - 1, order[|order| - 1];
      assert order == order[..n] + [key] && key !in order[..n];
      var mid := w.(books := ReleaseEach(w.books, w.books.items, order[..n], bankOks));
      ReleaseEachConserves(w, order[..n], bankOks, mid);
      ReleaseEachKeeps(w.db.rows, w.books, order[..n], bankOks);
      if w.books.items[key].status == ItemPending {
        assert mid.books.items[key] == w.books.items[key];
        ReleaseOneConserves(mid, key, key in bankOks, v);
      } else {
        assert v == mid;
      }
    }
  }

  lemma ReleaseBatchConserves(w: World, batchId: nat, order: seq<ItemKey>, bankOks: set<ItemKey>)
    requires WorldOk(w) && IsItemList(w.books, batchId, order) && ReleaseBatch(w.books, batchId, order, bankOks).Ok?
    ensures WorldOk(w.(books := ReleaseBatch(w.books, batchId, order, bankOks).value))
  {
    ReleaseEachConserves(w, order, bankOks, w.(books := ReleaseEach(w.books, w.books.items, order, bankOks)));
    ReleaseBatchKeeps(w.db.rows, w.books, batchId, order, bankOks);
    var mid := w.(books := ReleaseEach(w.books, w.books.items, order, bankOks));
    var v := w.(books := ReleaseBatch(w.books, batchId, order, bankOks).value);
    forall a: Account ensures AccountOk(v, a) {
      assert AccountOk(mid, a);
      SameAccount(mid, v, a);
    }
  }

  // What batch generation relies on about every row.
  lemma RefundableRows(db: Db)
    requires Inv(NO_GUARD, db)
    ensures forall id :: id in db.rows ==> 0 <= RefundedSoFar(db.rows[id]) && db.rows[id].fee <= db.rows[id].base
  {
    forall id | id in db.rows ensures 0 <= RefundedSoFar(db.rows[id]) && db.rows[id].fee <= db.rows[id].base {
      assert RowOk(db.rows[id], db.clock);
    }
  }

  // Entries and released items untouched: every account keeps its meaning.
  lemma SameMoney(w: World, c: Books, v: World)
    requires WorldOk(w) && BooksOk(w.db.rows, c) && c.entries == w.books.entries && v == w.(books := c)
    requires forall key :: key in w.books.items && w.books.items[key].status == Released ==>
      key in c.items && c.items[key] == w.books.items[key]
    requires forall key :: key in c.items && c.items[key].status == Released ==>
      key in w.books.items && w.books.items[key].status == Released
    ensures WorldOk(v)
  {
    forall a: Account ensures AccountOk(v, a) {
      assert AccountOk(w, a);
      SameAccount(w, v, a);
    }
  }

  lemma GenerateConserves(w: World, s: Step, v: World)
    requires WorldOk(w) && s.Generate? && v == Advance(w, s)
    ensures WorldOk(v)
  {
    if s.batchId !in w.books.batches && IsPct(s.tdsPct) &&
      IsQueryResult(s.due, w.db.rows, w.books.links, s.startAt, s.endAt) {
      RefundableRows(w.db);
      GenerateKeeps(w.db.rows, w.books, s.batchId, s.startAt, s.endAt, s.tdsPct, s.due);
      SameMoney(w, v.books, v);
    }
  }

  lemma HoldConserves(w: World, key: ItemKey)
    requires WorldOk(w) && Hold(w.books, key).Ok?
    ensures WorldOk(w.(books := Hold(w.books, key).value))
  {
    HoldKeeps(w.db.rows, w.books, key);
    SameMoney(w, Hold(w.books, key).value, w.(books := Hold(w.books, key).value));
  }

  lemma AdvanceKeeps(w: World, s: Step)
    requires WorldOk(w)
    ensures WorldOk(Advance(w, s))
  {
    if s.Book? {
      BookKeeps(w, s.action);
    } else if s.Generate? {
      GenerateConserves(w, s, Advance(w, s));
    } else if s.HoldStep? {
      if Hold(w.books, s.key).Ok? {
        HoldConserves(w, s.key);
      }
    } else if s.ReleaseStep? {
      if ReleaseHeld(w.books, s.key, s.bankOk).Ok? {
        ReleaseOneConserves(w, s.key, s.bankOk, Advance(w, s));
      }
    } else if IsItemList(w.books, s.batchId, s.order) && ReleaseBatch(w.books, s.batchId, s.order, s.bankOks).Ok? {
      ReleaseBatchConserves(w, s.batchId, s.order, s.bankOks);
    }
  }

  lemma {:induction false} HistoryOk(steps: seq<Step>)
    ensures WorldOk(History(steps))
  {
    if steps == [] {
      assert EntriesFor([], PayoutRef(ItemKey(0, 0))) == [];
      assert forall a: Account :: CapturedBy(INITIAL, a) == map[] && ReleasedBy(START.books, a) == map[];
      assert Posted([], []);
      RunKeepsInv(NO_GUARD, []);
    } else {
      HistoryOk(steps[..|steps| - 1]);
      AdvanceKeeps(History(steps[..|steps| - 1]), steps[|steps| - 1]);
    }
  }

  // ---- the owners' account never goes below zero ----

  function TotalGross(links: seq<Link>): int {
    if links == [] then 0 else TotalGross(links[..|links| - 1]) + links[|links| - 1].gross
  }

  ghost function GrossTable(links: seq<Link>, keys: set<ItemKey>): map<ItemKey, int> {
    map key | key in keys :: GrossOf(links, key)
  }

  lemma {:induction false} ZeroTable(keys: set<ItemKey>)
    ensures SumValues(GrossTable([], keys)) == 0
  {
    if keys != {} {
      var k :| k in keys;
      ZeroTable(keys - {k});
      SumValuesPick(GrossTable([], keys), k);
      assert GrossTable([], keys) - {k} == GrossTable([], keys - {k});
    }
  }

  lemma TableStep(links: seq<Link>, keys: set<ItemKey>)
    requires links != [] && links[|links| - 1].item in keys
    ensures SumValues(GrossTable(links, keys))
            == SumValues(GrossTable(links[..|links| - 1], keys)) + links[|links| - 1].gross
  {
    var k, before := links[|links| - 1].item, links[..|links| - 1];
    SumValuesPick(GrossTable(links, keys), k);
    SumValuesPick(GrossTable(before, keys), k);
    assert GrossTable(links, keys) - {k} == GrossTable(before, keys) - {k};
  }

  // The links of any set of items add up to no more than all links together.
  lemma {:induction false} ItemsWithinLinks(links: seq<Link>, keys: set<ItemKey>)
    requires forall l :: l in links ==> 0 <= l.gross
    ensures SumValues(GrossTable(links, keys)) <= TotalGross(links)
  {
    if links == [] {
      ZeroTable(keys);
    } else {
      var before := links[..|links| - 1];
      assert links[|links| - 1] in links;
      ItemsWithinLinks(before, keys);
      if links[|links| - 1].item in keys {
        TableStep(links, keys);
      } else {
        assert GrossTable(links, keys) == GrossTable(before, keys);
      }
    }
  }

  // Distinct bookings, each within what its capture owes, add up to no more than all captures.
  lemma {:induction false} LinksWithinCaptures(links: seq<Link>, owed: map<nat, int>)
    requires forall l :: l in links ==> l.bookingId in owed && l.gross <= owed[l.bookingId]
    requires forall i, j :: 0 <= i < j < |links| ==> links[i].bookingId != links[j].bookingId
    requires forall id :: id in owed ==> 0 <= owed[id]
    ensures TotalGross(links) <= SumValues(owed)
  {
    if links == [] {
      SumNonNegative(owed);
    } else {
      var l := links[|links| - 1];
      SumValuesPick(owed, l.bookingId);
      LinksWithinCaptures(links[..|links| - 1], owed - {l.bookingId});
    }
  }

  lemma {:induction false} SumNonNegative(m: map<nat, int>)
    requires forall k :: k in m ==> 0 <= m[k]
    ensures 0 <= SumValues(m)
    decreases |m|
  {
    if m != map[] {
      var k :| k in m;
      SumValuesPick(m, k);
      SumNonNegative(m - {k});
    }
  }

  lemma {:induction false} SumNegated<K>(m: map<K, int>, n: map<K, int>)
    requires m.Keys == n.Keys && forall k :: k in m ==> n[k] == -m[k]
    ensures SumValues(n) == -SumValues(m)
    decreases |m|
  {
    if m != map[] {
      var k :| k in m;
      SumValuesPick(m, k);
      SumValuesPick(n, k);
      SumNegated(m - {k}, n - {k});
    } else {
      assert n == map[];
    }
  }

  // What the owners' account holds, as a difference.
  lemma OwnerDifference(w: World)
    requires AccountOk(w, OwnerPayable)
    ensures Balance(w.books.entries, OwnerPayable)
            == SumValues(CapturedBy(w.db, OwnerPayable)) - SumValues(ReleasedGross(w.books))
  {
    SumNegated(ReleasedGross(w.books), ReleasedBy(w.books, OwnerPayable));
  }

  lemma ReleasedWithinCaptured(w: World)
    requires WorldOk(w)
    ensures SumValues(ReleasedGross(w.books)) <= SumValues(CapturedBy(w.db, OwnerPayable))
    ensures Balance(w.books.entries, OwnerPayable) >= 0
  {
    var b, owed := w.books, CapturedBy(w.db, OwnerPayable);
    forall id | id in owed ensures 0 <= owed[id] {
      assert RowOk(w.db.rows[id], w.db.clock);
    }
    forall l | l in b.links ensures l.bookingId in owed && l.gross <= owed[l.bookingId] {
      assert LinkOk(w.db.rows, l) && TrailOk(w.db.trail[l.bookingId], Completed);
      PaidBeforeServed(w.db.trail[l.bookingId]);
    }
    LinksWithinCaptures(b.links, owed);
    var keys := ReleasedGross(b).Keys;
    forall l | l in b.links ensures 0 <= l.gross {
      assert LinkOk(w.db.rows, l);
    }
    ItemsWithinLinks(b.links, keys);
    forall key | key in keys ensures ReleasedGross(b)[key] == GrossTable(b.links, keys)[key] {
      assert ItemOk(b.links, key, b.items[key]);
    }
    assert ReleasedGross(b) == GrossTable(b.links, keys);
    assert AccountOk(w, OwnerPayable);
    OwnerDifference(w);
  }

  // ---- main results ----

  /** Over every history each account of the ledger holds what the captured bookings moved on
      it and what the released items did: the guests' clearing minus all prices, the platform
      its commissions, the tax account the GST, the withholding account the TDS of the released
      items and the bank their nets. */
  lemma {:induction false} AccountsConserved(steps: seq<Step>, a: Account)
    ensures var w := History(steps);
            Balance(w.books.entries, a) == SumValues(CapturedBy(w.db, a)) + SumValues(ReleasedBy(w.books, a))
  {
    HistoryOk(steps);
    assert AccountOk(History(steps), a);
  }

  /** In particular the owners' account is base less commission of the captured bookings less
      the gross of the released items, and it is never negative. */
  lemma {:induction false} OwnerAccountConserved(steps: seq<Step>)
    ensures var w := History(steps);
            && Balance(w.books.entries, OwnerPayable)
               == SumValues(CapturedBy(w.db, OwnerPayable)) - SumValues(ReleasedGross(w.books))
            && Balance(w.books.entries, OwnerPayable) >= 0
  {
    HistoryOk(steps);
    assert AccountOk(History(steps), OwnerPayable);
    OwnerDifference(History(steps));
    ReleasedWithinCaptured(History(steps));
  }

  /** Every account together always sums to zero. */
  lemma {:induction false} LedgerAlwaysBalances(steps: seq<Step>)
    ensures AllBalances(History(steps).books.entries) == 0
  {
    HistoryOk(steps);
    var txns :| Posted(History(steps).books.entries, txns);
    LedgerSumsToZero(History(steps).books.entries, txns);
  }

  /** No booking is counted in two items, and every item is worth exactly its links. */
  lemma {:induction false} NoBookingPaidTwice(steps: seq<Step>, key: ItemKey)
    ensures var b := History(steps).books;
            && (forall i, j :: 0 <= i < j < |b.links| ==> b.links[i].bookingId != b.links[j].bookingId)
            && (key in b.items ==> ItemOk(b.links, key, b.items[key]))
  {
    HistoryOk(steps);
  }

  // ---- what the batches pay for each booking ----

  ghost predicate Creates(w: World, s: Step) {
    && s.Generate? && s.batchId !in w.books.batches && IsPct(s.tdsPct)
    && IsQueryResult(s.due, w.db.rows, w.books.links, s.startAt, s.endAt) && !RefTaken(w.books, BatchRef(s.endAt))
  }

  lemma OtherStepLinks(w: World, s: Step, v: World)
    requires WorldOk(w) && !Creates(w, s) && v == Advance(w, s)
    ensures v.books.links == w.books.links
  {
    if s.ReleaseBatchStep? && IsItemList(w.books, s.batchId, s.order) {
      ReleaseEachKeeps(w.db.rows, w.books, s.order, s.bankOks);
    }
  }

  lemma CreatedLinks(w: World, s: Step, v: World)
    requires Creates(w, s) && v == Advance(w, s)
    ensures AddsShares(w.db.rows, w.books.links, s.batchId, s.startAt, s.endAt, s.tdsPct, v.books.links)
  {
    BatchPaysShares(w.db.rows, w.books, s.batchId, s.startAt, s.endAt, s.tdsPct, s.due);
  }

  // The step at `n` put the booking on its batch: it was due, and `l` pays its share of that moment.
  ghost predicate PaidAt(steps: seq<Step>, n: nat, l: Link)
    requires n < |steps|
  {
    var w, s := History(steps[..n]), steps[n];
    && s.Generate? && l.item.batchId == s.batchId
    && Payable(w.db.rows, w.books.links, s.startAt, s.endAt, l.bookingId)
    && PaysShare(w.db.rows[l.bookingId], l, s.tdsPct)
  }

  lemma AddedLink(rows: Table, before: seq<Link>, s: Step, links: seq<Link>, l: Link)
    requires s.Generate? && AddsShares(rows, before, s.batchId, s.startAt, s.endAt, s.tdsPct, links)
    requires l in links && l !in before
    ensures l.item.batchId == s.batchId && Payable(rows, before, s.startAt, s.endAt, l.bookingId)
    ensures PaysShare(rows[l.bookingId], l, s.tdsPct)
  {
    assert links == before + links[|before|..];
  }

  lemma StepLinks(w: World, s: Step, v: World, l: Link)
    requires WorldOk(w) && v == Advance(w, s) && l in v.books.links && l !in w.books.links
    ensures s.Generate? && l.item.batchId == s.batchId
    ensures Payable(w.db.rows, w.books.links, s.startAt, s.endAt, l.bookingId)
    ensures PaysShare(w.db.rows[l.bookingId], l, s.tdsPct)
  {
    if Creates(w, s) {
      CreatedLinks(w, s, v);
      AddedLink(w.db.rows, w.books.links, s, v.books.links, l);
    } else {
      OtherStepLinks(w, s, v);
    }
  }

  /** Whatever a batch pays for a booking is the share its owner had left when the batch was
      made: base less commission less the refunds of that moment, of a booking then due. */
  lemma {:induction false} LinksPayShares(steps: seq<Step>, l: Link)
    requires l in History(steps).books.links
    ensures exists n :: 0 <= n < |steps| && PaidAt(steps, n, l)
  {
    var k, before := |steps| - 1, steps[..|steps| - 1];
    if l in History(before).books.links {
      LinksPayShares(before, l);
      var n :| 0 <= n < k && PaidAt(before, n, l);
      assert before[..n] == steps[..n];
      assert PaidAt(steps, n, l);
    } else {
      HistoryOk(before);
      StepLinks(History(before), steps[k], History(steps), l);
      assert PaidAt(steps, k, l);
    }
  }

  lemma LinksGrow(w: World, s: Step, v: World)
    requires WorldOk(w) && v == Advance(w, s)
    ensures w.books.links <= v.books.links
  {
    if Creates(w, s) {
      CreatedLinks(w, s, v);
    } else {
      OtherStepLinks(w, s, v);
    }
  }

  /** What a booking was paid is never taken back or changed: links only grow at the end. */
  lemma {:induction false} PaidForGood(steps: seq<Step>, n: nat)
    requires n <= |steps|
    ensures History(steps[..n]).books.links <= History(steps).books.links
    decreases |steps|
  {
    if n == |steps| {
      assert steps[..n] == steps;
    } else {
      var before := steps[..|steps| - 1];
      assert before[..n] == steps[..n];
      PaidForGood(before, n);
      HistoryOk(before);
      LinksGrow(History(before), steps[|steps| - 1], History(steps));
    }
  }

  // The booking is on one item, which pays it its share, or on none when it has no share left.
  ghost predicate PaidOnce(b: Row, id: nat, links: seq<Link>, tdsPct: int) {
    if Share(b) > 0 then
      exists i :: 0 <= i < |links| && links[i].bookingId == id && PaysShare(b, links[i], tdsPct)
                  && forall j :: 0 <= j < |links| && links[j].bookingId == id ==> j == i
    else forall l :: l in links ==> l.bookingId != id
  }

  lemma OnOneItem(rows: Table, before: seq<Link>, s: Step, links: seq<Link>, id: nat)
    requires s.Generate? && DistinctBookings(links) && Payable(rows, before, s.startAt, s.endAt, id)
    requires AddsShares(rows, before, s.batchId, s.startAt, s.endAt, s.tdsPct, links)
    ensures PaidOnce(rows[id], id, links, s.tdsPct)
  {
    var added := links[|before|..];
    assert links == before + added;
    if Share(rows[id]) > 0 {
      var l :| l in added && l.bookingId == id;
      var i :| 0 <= i < |links| && links[i] == l;
      assert forall j :: 0 <= j < |links| && links[j].bookingId == id ==> j == i;
    }
  }

  lemma LinksDistinct(w: World)
    requires WorldOk(w)
    ensures DistinctBookings(w.books.links)
  {
  }

  /** A batch leaves no due booking out: once it is made, one whose owner had a share left is
      on exactly one item, and one refunded for the whole of it is on none. */
  lemma {:induction false} EveryShareIsPaid(steps: seq<Step>, s: Step, id: nat)
    requires Creates(History(steps), s)
    requires Payable(History(steps).db.rows, History(steps).books.links, s.startAt, s.endAt, id)
    ensures PaidOnce(History(steps).db.rows[id], id, Advance(History(steps), s).books.links, s.tdsPct)
  {
    var w := History(steps);
    var v := Advance(w, s);
    HistoryOk(steps);
    AdvanceKeeps(w, s);
    LinksDistinct(v);
    CreatedLinks(w, s, v);
    OnOneItem(w.db.rows, w.books.links, s, v.books.links, id);
  }

  // ---- the ledger and the items ----

  /** A winning capture is never rolled back by its ledger posting. */
  lemma {:induction false} CaptureAlwaysPosts(steps: seq<Step>, a: Action)
    requires Captures(History(steps).db, a)
    ensures var w, q := History(steps), History(steps).db.inFlight[a.index];
            && Advance(w, Book(a)).db == Next(NO_GUARD, w.db, a)
            && Advance(w, Book(a)).books.entries == w.books.entries + Tag(BookingRef(q.id), CaptureLegs(q.seen))
  {
    HistoryOk(steps);
    var w := History(steps);
    CaptureStep(NO_GUARD, w.db, a);
    CaptureAccepted(w.db.inFlight[a.index].id, w.db.inFlight[a.index].seen);
  }

  /** An item is released exactly when the ledger holds its one balanced transaction;
      an item in any other status is referenced by nothing. */
  lemma {:induction false} ReleasedIffReferenced(steps: seq<Step>, key: ItemKey)
    ensures var b := History(steps).books;
            var refs := EntriesFor(b.entries, PayoutRef(key));
            && (key in b.items && b.items[key].status == Released <==> refs != [])
            && (refs != [] ==> refs == Tag(PayoutRef(key), LegsOf(b.items[key])) && Accepted(LegsOf(b.items[key])))
  {
    HistoryOk(steps);
    var b := History(steps).books;
    assert ReferenceOk(b, key);
    if key in b.items {
      assert ItemOk(b.links, key, b.items[key]);
      ReleaseAccepted(key, b.items[key].gross, b.items[key].tds);
    }
  }

  lemma SettledStays(w: World, s: Step, key: ItemKey)
    requires WorldOk(w) && key in w.books.items && Settled(w.books.items[key])
    ensures key in Advance(w, s).books.items && Advance(w, s).books.items[key] == w.books.items[key]
  {
    if s.Generate? {
      if Advance(w, s) != w {
        RefundableRows(w.db);
        GenerateKeeps(w.db.rows, w.books, s.batchId, s.startAt, s.endAt, s.tdsPct, s.due);
      }
    } else if s.ReleaseBatchStep? && IsItemList(w.books, s.batchId, s.order) &&
      ReleaseBatch(w.books, s.batchId, s.order, s.bankOks).Ok? {
      ReleaseBatchKeeps(w.db.rows, w.books, s.batchId, s.order, s.bankOks);
    }
  }

  /** A released or failed item never changes again, in any later run. */
  lemma {:induction false} SettledForGood(steps: seq<Step>, n: nat, key: ItemKey)
    requires n <= |steps|
    requires var b := History(steps[..n]).books; key in b.items && Settled(b.items[key])
    ensures var b, c := History(steps[..n]).books, History(steps).books; key in c.items && c.items[key] == b.items[key]
    decreases |steps|
  {
    if n == |steps| {
      assert steps[..n] == steps;
    } else {
      var before := steps[..|steps| - 1];
      assert before[..n] == steps[..n];
      SettledForGood(before, n, key);
      HistoryOk(before);
      SettledStays(History(before), steps[|steps| - 1], key);
    }
  }

  lemma OtherBatchKept(rows: Table, b: Books, batchId: nat, order: seq<ItemKey>, bankOks: set<ItemKey>, other: nat)
    requires BooksOk(rows, b) && IsItemList(b, batchId, order) && ReleaseBatch(b, batchId, order, bankOks).Ok?
    requires other in b.batches && b.batches[other].status == BatchReleased
    ensures var c := ReleaseBatch(b, batchId, order, bankOks).value;
            other in c.batches && c.batches[other] == b.batches[other]
  {
    ReleaseEachKeeps(rows, b, order, bankOks);
  }

  // No step touches a released batch: releasing it again is refused.
  lemma BatchStaysReleased(w: World, s: Step, batchId: nat)
    requires WorldOk(w) && batchId in w.books.batches && w.books.batches[batchId].status == BatchReleased
    ensures var c := Advance(w, s).books; batchId in c.batches && c.batches[batchId] == w.books.batches[batchId]
  {
    if s.Generate? {
      AddDraftsFrame(w.books, s.batchId, Group(s.due, s.tdsPct));
    } else if s.ReleaseBatchStep? && IsItemList(w.books, s.batchId, s.order)
              && ReleaseBatch(w.books, s.batchId, s.order, s.bankOks).Ok? {
      OtherBatchKept(w.db.rows, w.books, s.batchId, s.order, s.bankOks, batchId);
    }
  }

  lemma ReleasedMeansSettled(b: Books, rows: Table, batchId: nat)
    requires BooksOk(rows, b) && batchId in b.batches && b.batches[batchId].status == BatchReleased
    ensures forall key :: key in b.items && key.batchId == batchId ==> Settled(b.items[key])
  {
  }

  /** A batch once marked released stays so, and holds only released or failed items, in
      every later run. */
  lemma {:induction false} ReleasedBatchFinal(steps: seq<Step>, n: nat, batchId: nat)
    requires n <= |steps|
    requires var b := History(steps[..n]).books; batchId in b.batches && b.batches[batchId].status == BatchReleased
    ensures var c := History(steps).books;
            && batchId in c.batches && c.batches[batchId].status == BatchReleased
            && forall key :: key in c.items && key.batchId == batchId ==> Settled(c.items[key])
    decreases |steps|
  {
    HistoryOk(steps);
    if n == |steps| {
      assert steps[..n] == steps;
    } else {
      var before := steps[..|steps| - 1];
      assert before[..n] == steps[..n];
      ReleasedBatchFinal(before, n, batchId);
      HistoryOk(before);
      BatchStaysReleased(History(before), steps[|steps| - 1], batchId);
    }
    ReleasedMeansSettled(History(steps).books, History(steps).db.rows, batchId);
  }
}
