/**
 Payouts under arbitrary interleaving. Generating a batch reads the due bookings before its
 transaction; holding or releasing an item reads its status before it writes. Any number of
 them are in progress at once, next to the bookings and their captures. The status of a batch
 is not kept: a batch may always be read for release again.
 */
module PayoutProtocol {
  import opened Common
  import opened Money
  import opened Booking
  import opened Lifecycle
  import opened Ledger
  import opened Payouts
  import opened PayoutBatches
  import opened PayoutInvariants
  import C = Conservation

  // What a request still has to write, with what it read.
  datatype Task =
    | CreateTask(batchId: nat, startAt: int, endAt: int, tdsPct: int, due: seq<DueRow>)
    | HoldTask(key: ItemKey)
    | ReleaseTask(key: ItemKey, item: Item, bankOk: bool)

  datatype World = World(state: C.World, tasks: seq<Task>)

  datatype Step =
    | Book(action: Action)
    | GenerateRead(batchId: nat, startAt: int, endAt: int, tdsPct: int, due: seq<DueRow>)
    | HoldRead(key: ItemKey)
    | ReleaseRead(key: ItemKey, bankOk: bool)
    | Do(index: nat)

  // links: a batch is refused when one of the bookings it read has been linked meanwhile (the
  // code inserts the other links and keeps the amounts). status: holding and releasing test
  // the status they read.
  datatype Guards = Guards(links: bool, status: bool)

  const START := World(C.START, [])

  predicate AnyLinked(links: seq<Link>, due: seq<DueRow>) { exists r :: r in due && Linked(links, r.bookingId) }

  ghost function Perform(g: Guards, s: C.World, t: Task): C.World {
    match t
    case CreateTask(batchId, startAt, endAt, tdsPct, due) =>
      if batchId in s.books.batches || (g.links && AnyLinked(s.books.links, due)) then s
      else s.(books := CreateBatch(s.books, batchId, startAt, endAt, Group(due, tdsPct)))
    case HoldTask(key) =>
      if key !in s.books.items || (g.status && s.books.items[key].status != ItemPending) then s
      else s.(books := s.books.(items := s.books.items[key := s.books.items[key].(status := OnHold)]))
    case ReleaseTask(key, item, bankOk) =>
      if key !in s.books.items || (g.status && s.books.items[key].status != item.status) then s
      else s.(books := ReleaseOne(s.books, key, item, bankOk))
  }

  function Spawn(w: World, t: Task): World { w.(tasks := w.tasks + [t]) }

  ghost function Advance(g: Guards, w: World, s: Step): World {
    match s
    case Book(a) => w.(state := C.BookStep(w.state, a))
    case GenerateRead(batchId, startAt, endAt, tdsPct, due) =>
      if IsPct(tdsPct) && IsQueryResult(due, w.state.db.rows, w.state.books.links, startAt, endAt)
      then Spawn(w, CreateTask(batchId, startAt, endAt, tdsPct, due)) else w
    case HoldRead(key) => if Hold(w.state.books, key).Ok? then Spawn(w, HoldTask(key)) else w
    case ReleaseRead(key, bankOk) =>
      if key in w.state.books.items && !Settled(w.state.books.items[key])
      then Spawn(w, ReleaseTask(key, w.state.books.items[key], bankOk)) else w
    case Do(k) =>
      if k < |w.tasks| then World(Perform(g, w.state, w.tasks[k]), RemoveAt(w.tasks, k)) else w
  }

  ghost function History(g: Guards, steps: seq<Step>): World {
    if steps == [] then START else Advance(g, History(g, steps[..|steps| - 1]), steps[|steps| - 1])
  }

  // The owners' account is what captures brought in less what released items paid out, and
  // never below zero.
  ghost predicate OwnerSafe(s: C.World) { C.Conserved(s) && Balance(s.books.entries, OwnerPayable) >= 0 }

  // ---- with both guards it holds ----

  ghost predicate StillPayable(rows: Table, r: DueRow) {
    && r.bookingId in rows && rows[r.bookingId].status == Completed
    && Gross(r) <= rows[r.bookingId].base - rows[r.bookingId].fee
  }

  ghost predicate TaskOk(s: C.World, t: Task) {
    match t
    case CreateTask(_, _, _, tdsPct, due) =>
      IsPct(tdsPct) && DistinctDue(due) && forall r :: r in due ==> StillPayable(s.db.rows, r)
    case HoldTask(_) => true
    case ReleaseTask(key, item, _) =>
      key in s.books.items && s.books.items[key].(status := item.status) == item && !Settled(item)
  }

  ghost predicate Sound(w: World) { C.WorldOk(w.state) && forall t :: t in w.tasks ==> TaskOk(w.state, t) }

  // Nothing a task relies on is ever taken back.
  ghost predicate Later(s: C.World, v: C.World) {
    && (forall b :: b in s.db.rows ==>
          && b in v.db.rows && v.db.rows[b].base == s.db.rows[b].base && v.db.rows[b].fee == s.db.rows[b].fee
          && (s.db.rows[b].status == Completed ==> v.db.rows[b].status == Completed))
    && (forall key :: key in s.books.items ==>
          key in v.books.items && v.books.items[key].(status := s.books.items[key].status) == s.books.items[key])
  }

  lemma TaskLater(s: C.World, v: C.World, t: Task)
    requires TaskOk(s, t) && Later(s, v)
    ensures TaskOk(v, t)
  {
    if t.CreateTask? {
      forall r | r in t.due ensures StillPayable(v.db.rows, r) {
        assert StillPayable(s.db.rows, r);
      }
    }
  }

  lemma BookRow(s: C.World, a: Action, b: nat)
    requires Inv(NO_GUARD, s.db) && b in s.db.rows
    ensures var v, row := C.BookStep(s, a), s.db.rows[b];
            && b in v.db.rows && v.db.rows[b].base == row.base && v.db.rows[b].fee == row.fee
            && (row.status == Completed ==> v.db.rows[b].status == Completed)
  {
    RowsEvolve(NO_GUARD, s.db, a, b);
  }

  lemma BookLater(s: C.World, a: Action, v: C.World)
    requires Inv(NO_GUARD, s.db) && v == C.BookStep(s, a)
    ensures Later(s, v)
  {
    forall b | b in s.db.rows
      ensures b in v.db.rows && v.db.rows[b].base == s.db.rows[b].base && v.db.rows[b].fee == s.db.rows[b].fee
              && (s.db.rows[b].status == Completed ==> v.db.rows[b].status == Completed)
    {
      BookRow(s, a, b);
    }
    assert v.books.items == s.books.items;
  }

  lemma CreateKept(s: C.World, t: Task, v: C.World)
    requires C.WorldOk(s) && TaskOk(s, t) && t.CreateTask? && v == Perform(Guards(true, true), s, t)
    ensures C.WorldOk(v) && Later(s, v)
  {
    if t.batchId !in s.books.batches && !AnyLinked(s.books.links, t.due) {
      forall r | r in t.due ensures !Linked(s.books.links, r.bookingId) && StillPayable(s.db.rows, r) {
      }
      CreateKeeps(s.db.rows, s.books, t.batchId, t.startAt, t.endAt, t.tdsPct, t.due);
      C.SameMoney(s, v.books, v);
    }
  }

  lemma HoldKept(s: C.World, t: Task, v: C.World)
    requires C.WorldOk(s) && t.HoldTask? && v == Perform(Guards(true, true), s, t)
    ensures C.WorldOk(v) && Later(s, v)
  {
    if Hold(s.books, t.key).Ok? {
      C.HoldConserves(s, t.key);
    }
  }

  lemma ReleaseKept(s: C.World, t: Task, v: C.World)
    requires C.WorldOk(s) && TaskOk(s, t) && t.ReleaseTask? && v == Perform(Guards(true, true), s, t)
    ensures C.WorldOk(v) && Later(s, v)
  {
    if s.books.items[t.key].status == t.item.status {
      assert s.books.items[t.key] == t.item;
      C.ReleaseOneConserves(s, t.key, t.bankOk, v);
    }
  }

  lemma PerformKept(s: C.World, t: Task, v: C.World)
    requires C.WorldOk(s) && TaskOk(s, t) && v == Perform(Guards(true, true), s, t)
    ensures C.WorldOk(v) && Later(s, v)
  {
    if t.CreateTask? {
      CreateKept(s, t, v);
    } else if t.HoldTask? {
      HoldKept(s, t, v);
    } else {
      ReleaseKept(s, t, v);
    }
  }

  lemma TasksLater(w: World, v: World)
    requires (forall t :: t in w.tasks ==> TaskOk(w.state, t)) && Later(w.state, v.state)
    requires forall t :: t in v.tasks ==> t in w.tasks
    ensures forall t :: t in v.tasks ==> TaskOk(v.state, t)
  {
    forall t | t in v.tasks ensures TaskOk(v.state, t) {
      TaskLater(w.state, v.state, t);
    }
  }

  // What a request reads, it may act on.
  lemma ReadOk(w: World, s: Step, t: Task)
    requires C.WorldOk(w.state) && !s.Book? && !s.Do? && Advance(Guards(true, true), w, s) == Spawn(w, t)
    ensures TaskOk(w.state, t)
  {
    assert Advance(Guards(true, true), w, s).tasks[|w.tasks|] == t;
    if s.GenerateRead? {
      C.RefundableRows(w.state.db);
      QueryResultOk(w.state.db.rows, w.state.books.links, s.startAt, s.endAt, s.due);
    }
  }

  lemma AdvanceKeeps(w: World, s: Step, v: World)
    requires Sound(w) && v == Advance(Guards(true, true), w, s)
    ensures Sound(v)
  {
    if s.Book? {
      C.BookKeeps(w.state, s.action);
      BookLater(w.state, s.action, v.state);
      TasksLater(w, v);
    } else if s.Do? {
      if s.index < |w.tasks| {
        assert w.tasks[s.index] in w.tasks;
        PerformKept(w.state, w.tasks[s.index], v.state);
        TasksLater(w, v);
      }
    } else if v != w {
      ReadOk(w, s, v.tasks[|w.tasks|]);
    }
  }

  lemma {:induction false} HistoryOk(steps: seq<Step>)
    ensures Sound(History(Guards(true, true), steps))
  {
    if steps == [] {
      C.HistoryOk([]);
    } else {
      HistoryOk(steps[..|steps| - 1]);
      AdvanceKeeps(History(Guards(true, true), steps[..|steps| - 1]), steps[|steps| - 1],
        History(Guards(true, true), steps));
    }
  }

  // ---- without one of them: a run from the empty database that pays twice ----

  lemma HistorySnoc(g: Guards, steps: seq<Step>, s: Step)
    ensures History(g, steps + [s]) == Advance(g, History(g, steps), s)
  {
    assert (steps + [s])[..|steps|] == steps;
  }

  lemma ThenRead(g: Guards, steps: seq<Step>, w: World, s: Step, t: Task) returns (more: seq<Step>)
    requires History(g, steps) == w && Advance(g, w, s) == Spawn(w, t)
    ensures History(g, more) == w.(tasks := w.tasks + [t])
  {
    HistorySnoc(g, steps, s);
    more := steps + [s];
  }

  // The first task is written.
  lemma ThenDo(g: Guards, steps: seq<Step>, w: World, v: C.World, rest: seq<Task>) returns (more: seq<Step>)
    requires History(g, steps) == w && w.tasks != [] && w.tasks[1..] == rest && v == Perform(g, w.state, w.tasks[0])
    ensures History(g, more) == World(v, rest)
  {
    HistorySnoc(g, steps, Do(0));
    assert RemoveAt(w.tasks, 0) == w.tasks[1..];
    more := steps + [Do(0)];
  }

  // One booking operation, read and committed at once, with what it posts.
  lemma ThenOperate(g: Guards, steps: seq<Step>, s: C.World, row: Row, q: Request)
    returns (more: seq<Step>, db: Db)
    requires History(g, steps) == World(s, []) && Looks(s.db, 0, row, []) && q.id == 0 == q.at && q.seen == row
    requires q.op.CheckIn? || q.op.CheckOut?
    requires Plan(q.op, row, 0) == Ok(q.commit) && row.status in q.commit.from
    ensures History(g, more) == World(s.(db := db), []) && Looks(db, 0, Apply(row, q.commit.patch), [])
  {
    var begin, mid := Book(Begin(0, q.op, 0)), Next(NO_GUARD, s.db, Begin(0, q.op, 0));
    BeginLooks(NO_GUARD, s.db, row, [], q);
    assert [] + [q] == [q] && RemoveAt([q], 0) == [];
    FinishLooks(NO_GUARD, mid, 0, row, [q], 0);
    HistorySnoc(g, steps, begin);
    HistorySnoc(g, steps + [begin], Book(Finish(0)));
    more, db := steps + [begin] + [Book(Finish(0))], Next(NO_GUARD, mid, Finish(0));
  }

  lemma UnpaidPriced()
    ensures 0 < UNPAID_ROW.base && 0 <= UNPAID_ROW.gst && 0 <= UNPAID_ROW.fee <= UNPAID_ROW.base
    ensures UNPAID_ROW.total == UNPAID_ROW.base + UNPAID_ROW.gst && UNPAID_ROW.fee < UNPAID_ROW.base
    ensures Accepted(CaptureLegs(UNPAID_ROW))
    ensures Balance(Tag(BookingRef(0), CaptureLegs(UNPAID_ROW)), OwnerPayable) == UNPAID_ROW.base - UNPAID_ROW.fee
  {
    PriceShape(SAMPLE.kind, SAMPLE.rate, SAMPLE.hours, SAMPLE.commissionPct);
    CaptureAccepted(0, UNPAID_ROW);
  }

  lemma CreatedRun(g: Guards) returns (steps: seq<Step>, db: Db)
    ensures History(g, steps) == World(C.START.(db := db), []) && Looks(db, 0, UNPAID_ROW, [])
  {
    var room, create := Book(AddRoomType(0, 1)), Book(Create(0, SAMPLE, 1));
    AddLooks(NO_GUARD);
    HistorySnoc(g, [], room);
    HistorySnoc(g, [] + [room], create);
    steps := [] + [room] + [create];
    db := Next(NO_GUARD, INITIAL.(roomCounts := map[0 := 1]), Create(0, SAMPLE, 1));
  }

  function Captured(db: Db): C.World {
    C.START.(db := db, books := C.START.books.(entries := Tag(BookingRef(0), CaptureLegs(UNPAID_ROW))))
  }

  lemma CaptureFinish(s: C.World)
    requires s.books == C.START.books && Looks(s.db, 0, UNPAID_ROW, [CAPTURE_REQUEST])
    ensures C.BookStep(s, Finish(0)) == Captured(Next(NO_GUARD, s.db, Finish(0)))
  {
    UnpaidPriced();
    assert [] + Tag(BookingRef(0), CaptureLegs(UNPAID_ROW)) == Tag(BookingRef(0), CaptureLegs(UNPAID_ROW));
  }

  lemma CapturedRun(g: Guards) returns (steps: seq<Step>, db: Db)
    ensures History(g, steps) == World(Captured(db), []) && Looks(db, 0, PAID_ROW, [])
  {
    steps, db := CreatedRun(g);
    var begin := Book(Begin(0, CAPTURE_REQUEST.op, 0));
    var mid := Next(NO_GUARD, db, begin.action);
    BeginLooks(NO_GUARD, db, UNPAID_ROW, [], CAPTURE_REQUEST);
    assert [] + [CAPTURE_REQUEST] == [CAPTURE_REQUEST] && RemoveAt([CAPTURE_REQUEST], 0) == [];
    FinishLooks(NO_GUARD, mid, 0, UNPAID_ROW, [CAPTURE_REQUEST], 0);
    CaptureFinish(C.START.(db := mid));
    HistorySnoc(g, steps, begin);
    HistorySnoc(g, steps + [begin], Book(Finish(0)));
    steps, db := steps + [begin] + [Book(Finish(0))], Next(NO_GUARD, mid, Finish(0));
  }

  // The guest has paid, stayed and left.
  lemma StayedRun(g: Guards) returns (steps: seq<Step>, db: Db)
    ensures History(g, steps) == World(Captured(db), []) && Looks(db, 0, LEFT_ROW, [])
  {
    steps, db := CapturedRun(g);
    steps, db := ThenOperate(g, steps, Captured(db), PAID_ROW, ARRIVE_REQUEST);
    steps, db := ThenOperate(g, steps, Captured(db), ARRIVED_ROW, LEAVE_REQUEST);
  }

  // ---- one booking, one line, one item ----

  const DUE := DueFor(map[0 := LEFT_ROW], 0)
  const LINE := LineOf(DUE, 0)
  const ITEM := Item(0, ItemPending, 1, LINE.gross, LINE.tds, LINE.gross - LINE.tds)

  lemma LineFine()
    ensures LineOk(LINE) && LINE.gross == UNPAID_ROW.base - UNPAID_ROW.fee == Gross(DUE) && LINE.bookingId == 0
  {
    UnpaidPriced();
    PartBounds(Gross(DUE), 0);
  }

  lemma OneDraft()
    ensures Group([DUE], 0) == [Draft(0, 0, [LINE])]
  {
    LineFine();
    assert [DUE][..0] == [] && Group([], 0) == [];
    assert Group([DUE], 0) == AddRow([], DUE, 0);
  }

  lemma OneItem(b: Books, batchId: nat, startAt: int, endAt: int)
    requires !RefTaken(b, BatchRef(endAt)) && ItemKey(batchId, 0) !in b.items
    ensures var c := CreateBatch(b, batchId, startAt, endAt, Group([DUE], 0));
            && c.items == b.items[ItemKey(batchId, 0) := ITEM] && c.entries == b.entries
            && c.batches.Keys == b.batches.Keys + {batchId}
            && forall id :: id in c.batches ==> (id in b.batches && id != batchId && c.batches[id] == b.batches[id])
                                                || (id == batchId && c.batches[id].ref == BatchRef(endAt))
  {
    OneDraft();
    var d := Draft(0, 0, [LINE]);
    assert [d][..0] == [] && AddDrafts(b, batchId, []) == b;
    OneSum(LINE, LineGross);
    OneSum(LINE, LineTds);
    assert AddDrafts(b, batchId, [d]) == AddDraft(b, ItemKey(batchId, 0), d);
  }

  lemma OneSum(l: Line, f: Line -> int)
    ensures SumOf([l], f) == f(l)
  {
    assert [l][..0] == [];
  }

  // ---- two releases that both go through ----

  lemma ReleaseDebits(b: Books, key: ItemKey)
    requires key in b.items
    ensures var c := ReleaseOne(b, key, ITEM, true);
            && Balance(c.entries, OwnerPayable) == Balance(b.entries, OwnerPayable) - LINE.gross
            && c.items == b.items[key := b.items[key].(status := Released)]
  {
    LineFine();
    ReleaseAccepted(key, LINE.gross, LINE.tds);
    BalanceConcat(b.entries, Tag(PayoutRef(key), LegsOf(ITEM)), OwnerPayable);
  }

  // Both are read, and then both are written.
  lemma ThenReleaseTwo(g: Guards, steps: seq<Step>, s: C.World, j: ItemKey, k: ItemKey) returns (more: seq<Step>)
    requires History(g, steps) == World(s, []) && j in s.books.items && k in s.books.items
    requires s.books.items[j] == ITEM == s.books.items[k] && (j == k ==> !g.status)
    ensures Balance(History(g, more).state.books.entries, OwnerPayable)
            == Balance(s.books.entries, OwnerPayable) - 2 * LINE.gross
  {
    var a, b := ReleaseTask(j, ITEM, true), ReleaseTask(k, ITEM, true);
    assert [] + [a] == [a] && [a] + [b] == [a, b] && [a, b][1..] == [b] && [b][1..] == [];
    more := ThenRead(g, steps, World(s, []), ReleaseRead(j, true), a);
    more := ThenRead(g, more, World(s, [a]), ReleaseRead(k, true), b);
    var mid := Perform(g, s, a);
    more := ThenDo(g, more, World(s, [a, b]), mid, [b]);
    ReleaseDebits(s.books, j);
    var last := Perform(g, mid, b);
    more := ThenDo(g, more, World(mid, [b]), last, []);
    ReleaseDebits(mid.books, k);
  }

  lemma DueFound(endAt: int)
    requires LEFT_ROW.checkOutAt <= endAt
    ensures IsQueryResult([DUE], map[0 := LEFT_ROW], [], 0, endAt)
  {
    assert DUE in [DUE];
  }

  // A batch read while the booking is still unlinked.
  lemma ThenGenerateRead(g: Guards, steps: seq<Step>, w: World, batchId: nat, endAt: int) returns (more: seq<Step>)
    requires History(g, steps) == w && w.state.db.rows == map[0 := LEFT_ROW] && w.state.books.links == []
    requires LEFT_ROW.checkOutAt <= endAt
    ensures History(g, more) == w.(tasks := w.tasks + [CreateTask(batchId, 0, endAt, 0, [DUE])])
  {
    DueFound(endAt);
    more := ThenRead(g, steps, w, GenerateRead(batchId, 0, endAt, 0, [DUE]), CreateTask(batchId, 0, endAt, 0, [DUE]));
  }

  // It is written, and adds its one item.
  lemma ThenCreate(g: Guards, steps: seq<Step>, w: World, batchId: nat, endAt: int, rest: seq<Task>)
    returns (more: seq<Step>, v: C.World)
    requires History(g, steps) == w && w.tasks == [CreateTask(batchId, 0, endAt, 0, [DUE])] + rest
    requires batchId !in w.state.books.batches && !RefTaken(w.state.books, BatchRef(endAt))
    requires ItemKey(batchId, 0) !in w.state.books.items && (g.links ==> w.state.books.links == [])
    ensures History(g, more) == World(v, rest)
    ensures v.books == CreateBatch(w.state.books, batchId, 0, endAt, Group([DUE], 0))
  {
    v := Perform(g, w.state, w.tasks[0]);
    more := ThenDo(g, steps, w, v, rest);
  }

  const FIRST := 3 * HOUR
  const SECOND := DAY

  lemma TwoDays()
    ensures LEFT_ROW.checkOutAt == FIRST < SECOND && BatchRef(FIRST) == 0 && BatchRef(SECOND) == 1
  {
  }

  // What the guest paid the owner, in the account before any payout.
  lemma OwnerStart(db: Db)
    ensures Balance(Captured(db).books.entries, OwnerPayable) == LINE.gross > 0
  {
    UnpaidPriced();
    LineFine();
  }

  /** Two releases of one item, both read before either is written: the owner is paid twice. */
  lemma ReleasedTwice(g: Guards) returns (steps: seq<Step>)
    requires !g.status
    ensures Balance(History(g, steps).state.books.entries, OwnerPayable) < 0
  {
    var db: Db, s: C.World;
    steps, db := StayedRun(g);
    TwoDays();
    OwnerStart(db);
    OneItem(Captured(db).books, 0, 0, FIRST);
    var t := CreateTask(0, 0, FIRST, 0, [DUE]);
    assert [] + [t] == [t] && [t] + [] == [t];
    steps := ThenGenerateRead(g, steps, World(Captured(db), []), 0, FIRST);
    steps, s := ThenCreate(g, steps, World(Captured(db), [t]), 0, FIRST, []);
    steps := ThenReleaseTwo(g, steps, s, ItemKey(0, 0), ItemKey(0, 0));
  }

  // Two batches, each with an item for the one booking.
  lemma TwoItems(g: Guards) returns (steps: seq<Step>, s: C.World)
    requires !g.links
    ensures History(g, steps) == World(s, []) && Balance(s.books.entries, OwnerPayable) == LINE.gross > 0
    ensures s.books.items == map[ItemKey(0, 0) := ITEM, ItemKey(1, 0) := ITEM]
  {
    var db: Db;
    steps, db := StayedRun(g);
    TwoDays();
    OwnerStart(db);
    var t, u := CreateTask(0, 0, FIRST, 0, [DUE]), CreateTask(1, 0, SECOND, 0, [DUE]);
    assert [] + [t] == [t] && [t] + [u] == [t, u] && [u] + [] == [u];
    steps := ThenGenerateRead(g, steps, World(Captured(db), []), 0, FIRST);
    steps := ThenGenerateRead(g, steps, World(Captured(db), [t]), 1, SECOND);
    OneItem(Captured(db).books, 0, 0, FIRST);
    steps, s := ThenCreate(g, steps, World(Captured(db), [t, u]), 0, FIRST, [u]);
    OneItem(s.books, 1, 0, SECOND);
    steps, s := ThenCreate(g, steps, World(s, [u]), 1, SECOND, []);
  }

  /** Two batches that both read a booking before either links it: each gets an item worth the
      whole booking, and the owner is paid twice. */
  lemma CountedTwice(g: Guards) returns (steps: seq<Step>)
    requires !g.links
    ensures Balance(History(g, steps).state.books.entries, OwnerPayable) < 0
  {
    var s: C.World;
    steps, s := TwoItems(g);
    steps := ThenReleaseTwo(g, steps, s, ItemKey(0, 0), ItemKey(1, 0));
  }

  /** The owners' account is what captures brought in less what released items paid out, and
      never negative, in every history, if and only if a batch is refused once a booking it read
      is linked, and holding and releasing test the status they read. The code does neither. */
  lemma {:induction false} OwnerSafeExact(g: Guards)
    ensures (forall steps: seq<Step> {:trigger History(g, steps)} :: OwnerSafe(History(g, steps).state))
            <==> g.links && g.status
  {
    if !g.links {
      var steps := CountedTwice(g);
      assert !OwnerSafe(History(g, steps).state);
    } else if !g.status {
      var steps := ReleasedTwice(g);
      assert !OwnerSafe(History(g, steps).state);
    } else {
      forall steps: seq<Step> {:trigger History(g, steps)} ensures OwnerSafe(History(g, steps).state) {
        assert g == Guards(true, true);
        HistoryOk(steps);
        C.ReleasedWithinCaptured(History(g, steps).state);
      }
    }
  }

  // ---- on its own, the protocol is the operation ----

  /** A request whose write follows its read at once does what the whole operation does,
      whatever the guards. */
  lemma SoloIsStep(g: Guards, s: C.World, read: Step)
    requires read.GenerateRead? || read.HoldRead? || read.ReleaseRead?
    requires read.ReleaseRead? && read.key in s.books.items ==> s.books.items[read.key].status != ItemPending
    ensures Advance(g, Advance(g, World(s, []), read), Do(0))
            == World(C.Advance(s, match read
                                  case GenerateRead(id, from, to, pct, due) => C.Generate(id, from, to, pct, due)
                                  case HoldRead(key) => C.HoldStep(key)
                                  case ReleaseRead(key, bankOk) => C.ReleaseStep(key, bankOk)), [])
  {
    var tasks := Advance(g, World(s, []), read).tasks;
    if tasks != [] {
      assert tasks == [] + [tasks[0]] && RemoveAt(tasks, 0) == [];
      if read.GenerateRead? {
        forall r | r in read.due ensures !Linked(s.books.links, r.bookingId) {
        }
      }
    }
  }
}
