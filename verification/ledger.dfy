/** The append-only double-entry ledger: balancing check, posting, balances, and the leg sets posted to it. */
module Ledger {
  import opened Common
  import opened Money
  import opened Booking

  datatype Account = GuestClearing | OwnerPayable | PlatformCommission | GstPayable | TdsPayable | BankSettlement

  datatype Direction = Debit | Credit

  datatype Leg = Leg(account: Account, direction: Direction, amount: int)

  datatype ItemKey = ItemKey(batchId: nat, propertyId: nat)

  datatype Ref = BookingRef(bookingId: nat) | PayoutRef(item: ItemKey)

  datatype Entry = Entry(ref: Ref, leg: Leg)

  function Signed(l: Leg): int { if l.direction == Credit then l.amount else -l.amount }

  // What the ledger accepts as one transaction.
  ghost predicate Accepted(legs: seq<Leg>) {
    |legs| >= 2 && (forall l :: l in legs ==> l.amount > 0) && SumOf(legs, Signed) == 0
  }

  // All that is entered on one side.
  function Side(legs: seq<Leg>, d: Direction): int {
    if legs == [] then 0
    else
      var l := legs[|legs| - 1];
      Side(legs[..|legs| - 1], d) + (if l.direction == d then l.amount else 0)
  }

  lemma {:induction false} SidesDiffer(legs: seq<Leg>)
    ensures SumOf(legs, Signed) == Side(legs, Credit) - Side(legs, Debit)
  {
    if legs != [] {
      SidesDiffer(legs[..|legs| - 1]);
    }
  }

  function Tag(ref: Ref, legs: seq<Leg>): seq<Entry> {
    seq(|legs|, i requires 0 <= i < |legs| => Entry(ref, legs[i]))
  }

  function EffectOn(l: Leg, a: Account): int { if l.account == a then Signed(l) else 0 }

  function On(a: Account): Leg -> int { (l: Leg) => EffectOn(l, a) }

  // Net balance of one account, entry by entry.
  function Balance(entries: seq<Entry>, a: Account): int {
    if entries == [] then 0 else Balance(entries[..|entries| - 1], a) + EffectOn(entries[|entries| - 1].leg, a)
  }

  lemma {:induction false} BalanceConcat(x: seq<Entry>, y: seq<Entry>, a: Account)
    ensures Balance(x + y, a) == Balance(x, a) + Balance(y, a)
  {
    if y == [] {
      assert x + y == x;
    } else {
      assert (x + y)[..|x + y| - 1] == x + y[..|y| - 1];
      BalanceConcat(x, y[..|y| - 1], a);
    }
  }

  lemma {:induction false} BalanceOfLegs(ref: Ref, legs: seq<Leg>, a: Account)
    ensures Balance(Tag(ref, legs), a) == SumOf(legs, On(a))
  {
    if legs != [] {
      var n := |legs| - 1;
      assert Tag(ref, legs)[..n] == Tag(ref, legs[..n]);
      BalanceOfLegs(ref, legs[..n], a);
    }
  }

  function AllBalances(entries: seq<Entry>): int {
    Balance(entries, GuestClearing) + Balance(entries, OwnerPayable) + Balance(entries, PlatformCommission)
    + Balance(entries, GstPayable) + Balance(entries, TdsPayable) + Balance(entries, BankSettlement)
  }

  lemma {:induction false} AllBalancesOfLegs(ref: Ref, legs: seq<Leg>)
    ensures AllBalances(Tag(ref, legs)) == SumOf(legs, Signed)
  {
    if legs != [] {
      var n := |legs| - 1;
      assert Tag(ref, legs)[..n] == Tag(ref, legs[..n]);
      AllBalancesOfLegs(ref, legs[..n]);
    }
  }

  // The ledger holds accepted transactions and nothing else.
  ghost predicate Posted(entries: seq<Entry>, txns: seq<(Ref, seq<Leg>)>) {
    if txns == [] then entries == []
    else
      var (ref, legs) := txns[|txns| - 1];
      && Accepted(legs) && |legs| <= |entries|
      && entries[|entries| - |legs|..] == Tag(ref, legs)
      && Posted(entries[..|entries| - |legs|], txns[..|txns| - 1])
  }

  /** Over any run of postings the balances of all accounts sum to zero. */
  lemma {:induction false} LedgerSumsToZero(entries: seq<Entry>, txns: seq<(Ref, seq<Leg>)>)
    requires Posted(entries, txns)
    ensures AllBalances(entries) == 0
  {
    if txns != [] {
      var (ref, legs) := txns[|txns| - 1];
      var cut := |entries| - |legs|;
      LedgerSumsToZero(entries[..cut], txns[..|txns| - 1]);
      AllBalancesOfLegs(ref, legs);
      assert entries == entries[..cut] + Tag(ref, legs);
      forall a ensures Balance(entries, a) == Balance(entries[..cut], a) + Balance(Tag(ref, legs), a) {
        BalanceConcat(entries[..cut], Tag(ref, legs), a);
      }
    }
  }

  lemma PostedSnoc(entries: seq<Entry>, txns: seq<(Ref, seq<Leg>)>, ref: Ref, legs: seq<Leg>)
    requires Posted(entries, txns) && Accepted(legs)
    ensures Posted(entries + Tag(ref, legs), txns + [(ref, legs)])
  {
    var e, t := entries + Tag(ref, legs), txns + [(ref, legs)];
    assert e[|e| - |legs|..] == Tag(ref, legs) && e[..|e| - |legs|] == entries && t[..|t| - 1] == txns;
  }

  // ---- the leg sets ----

  function DropZero(legs: seq<Leg>): seq<Leg> {
    if legs == [] then []
    else
      var rest, last := DropZero(legs[..|legs| - 1]), legs[|legs| - 1];
      if last.amount > 0 then rest + [last] else rest
  }

  function CaptureLegs(b: Row): seq<Leg> {
    DropZero([Leg(GuestClearing, Debit, b.total), Leg(OwnerPayable, Credit, b.base - b.fee),
              Leg(PlatformCommission, Credit, b.fee), Leg(GstPayable, Credit, b.gst)])
  }

  function ReleaseLegs(gross: int, tds: int, net: int): seq<Leg> {
    DropZero([Leg(OwnerPayable, Debit, gross), Leg(TdsPayable, Credit, tds), Leg(BankSettlement, Credit, net)])
  }

  lemma {:induction false} DropZeroKeeps(legs: seq<Leg>, l: Leg)
    ensures l in DropZero(legs) <==> l in legs && l.amount > 0
  {
    if legs != [] {
      DropZeroKeeps(legs[..|legs| - 1], l);
      assert legs == legs[..|legs| - 1] + [legs[|legs| - 1]];
    }
  }

  // Dropping zero legs changes no sum and no balance.
  lemma {:induction false} DropZeroNeutral(legs: seq<Leg>, f: Leg -> int)
    requires forall l :: l in legs ==> l.amount >= 0
    requires forall l: Leg :: l.amount == 0 ==> f(l) == 0
    ensures SumOf(DropZero(legs), f) == SumOf(legs, f)
  {
    if legs != [] {
      var n := |legs| - 1;
      DropZeroNeutral(legs[..n], f);
      SumSnoc(DropZero(legs[..n]), legs[n], f);
    }
  }

  lemma TwoLegs(legs: seq<Leg>, x: Leg, y: Leg)
    requires x in legs && y in legs && x != y
    ensures |legs| >= 2
  {
  }

  lemma FewLegs(w: Leg, x: Leg, y: Leg, z: Leg, f: Leg -> int)
    ensures SumOf([w, x, y], f) == f(w) + f(x) + f(y)
    ensures SumOf([w, x, y, z], f) == f(w) + f(x) + f(y) + f(z)
  {
    assert SumOf([w], f) == f(w);
    assert [w, x] == [w] + [x] && [w, x, y] == [w, x] + [y] && [w, x, y, z] == [w, x, y] + [z];
    SumSnoc([w], x, f);
    SumSnoc([w, x], y, f);
    SumSnoc([w, x, y], z, f);
  }

  // What dropping the zero legs of a balanced set leaves is accepted.
  lemma DroppedAccepted(legs: seq<Leg>, x: Leg, y: Leg)
    requires (forall l :: l in legs ==> l.amount >= 0) && SumOf(legs, Signed) == 0
    requires x in legs && y in legs && x != y && x.amount > 0 && y.amount > 0
    ensures Accepted(DropZero(legs))
  {
    forall l ensures l in DropZero(legs) <==> l in legs && l.amount > 0 {
      DropZeroKeeps(legs, l);
    }
    TwoLegs(DropZero(legs), x, y);
    DropZeroNeutral(legs, Signed);
  }

  // And it moves every account as the whole set would.
  lemma DroppedBalance(ref: Ref, legs: seq<Leg>, a: Account)
    requires forall l :: l in legs ==> l.amount >= 0
    ensures Balance(Tag(ref, DropZero(legs)), a) == SumOf(legs, On(a))
  {
    DropZeroNeutral(legs, On(a));
    BalanceOfLegs(ref, DropZero(legs), a);
  }

  ghost predicate Priced(b: Row) { 0 < b.base && 0 <= b.gst && 0 <= b.fee <= b.base && b.total == b.base + b.gst }

  lemma CaptureBalance(id: nat, b: Row, a: Account)
    requires Priced(b)
    ensures Balance(Tag(BookingRef(id), CaptureLegs(b)), a)
            == match a
               case GuestClearing => -b.total
               case OwnerPayable => b.base - b.fee
               case PlatformCommission => b.fee
               case GstPayable => b.gst
               case TdsPayable => 0
               case BankSettlement => 0
  {
    var paid, owner := Leg(GuestClearing, Debit, b.total), Leg(OwnerPayable, Credit, b.base - b.fee);
    var fee, gst := Leg(PlatformCommission, Credit, b.fee), Leg(GstPayable, Credit, b.gst);
    FewLegs(paid, owner, fee, gst, On(a));
    DroppedBalance(BookingRef(id), [paid, owner, fee, gst], a);
  }

  /** Capturing any priced booking posts an accepted transaction: the guest's clearing account
      is debited the total, the owner credited the base less the commission, the platform its
      commission and the tax account the GST, and nothing else moves. */
  lemma CaptureAccepted(id: nat, b: Row)
    requires Priced(b)
    ensures Accepted(CaptureLegs(b))
    ensures var posted := Tag(BookingRef(id), CaptureLegs(b));
            && Balance(posted, GuestClearing) == -b.total && Balance(posted, OwnerPayable) == b.base - b.fee
            && Balance(posted, PlatformCommission) == b.fee && Balance(posted, GstPayable) == b.gst
            && Balance(posted, TdsPayable) == 0 && Balance(posted, BankSettlement) == 0
  {
    var paid, owner := Leg(GuestClearing, Debit, b.total), Leg(OwnerPayable, Credit, b.base - b.fee);
    var fee, gst := Leg(PlatformCommission, Credit, b.fee), Leg(GstPayable, Credit, b.gst);
    FewLegs(paid, owner, fee, gst, Signed);
    DroppedAccepted([paid, owner, fee, gst], paid, if b.base > b.fee then owner else fee);
    CaptureBalance(id, b, GuestClearing);
    CaptureBalance(id, b, OwnerPayable);
    CaptureBalance(id, b, PlatformCommission);
    CaptureBalance(id, b, GstPayable);
    CaptureBalance(id, b, TdsPayable);
    CaptureBalance(id, b, BankSettlement);
  }

  lemma ReleaseBalance(key: ItemKey, gross: int, tds: int, a: Account)
    requires 0 < gross && 0 <= tds <= gross
    ensures Balance(Tag(PayoutRef(key), ReleaseLegs(gross, tds, gross - tds)), a)
            == match a
               case OwnerPayable => -gross
               case TdsPayable => tds
               case BankSettlement => gross - tds
               case GuestClearing => 0
               case PlatformCommission => 0
               case GstPayable => 0
  {
    var owner, withheld := Leg(OwnerPayable, Debit, gross), Leg(TdsPayable, Credit, tds);
    var settled := Leg(BankSettlement, Credit, gross - tds);
    FewLegs(owner, withheld, settled, settled, On(a));
    DroppedBalance(PayoutRef(key), [owner, withheld, settled], a);
  }

  /** Releasing a positive gross posts an accepted transaction: the owner is debited the gross,
      the tax withheld goes to the TDS account and the rest to the bank, and nothing else moves. */
  lemma ReleaseAccepted(key: ItemKey, gross: int, tds: int)
    requires 0 < gross && 0 <= tds <= gross
    ensures Accepted(ReleaseLegs(gross, tds, gross - tds))
    ensures var posted := Tag(PayoutRef(key), ReleaseLegs(gross, tds, gross - tds));
            && Balance(posted, OwnerPayable) == -gross && Balance(posted, TdsPayable) == tds
            && Balance(posted, BankSettlement) == gross - tds && Balance(posted, GuestClearing) == 0
            && Balance(posted, PlatformCommission) == 0 && Balance(posted, GstPayable) == 0
  {
    var owner, withheld := Leg(OwnerPayable, Debit, gross), Leg(TdsPayable, Credit, tds);
    var settled := Leg(BankSettlement, Credit, gross - tds);
    FewLegs(owner, withheld, settled, settled, Signed);
    DroppedAccepted([owner, withheld, settled], owner, if tds > 0 then withheld else settled);
    ReleaseBalance(key, gross, tds, GuestClearing);
    ReleaseBalance(key, gross, tds, OwnerPayable);
    ReleaseBalance(key, gross, tds, PlatformCommission);
    ReleaseBalance(key, gross, tds, GstPayable);
    ReleaseBalance(key, gross, tds, TdsPayable);
    ReleaseBalance(key, gross, tds, BankSettlement);
  }

  // ---- the service ----

  function GroupSum(entries: seq<Entry>, a: Account, d: Direction): int {
    if entries == [] then 0
    else
      var l := entries[|entries| - 1].leg;
      GroupSum(entries[..|entries| - 1], a, d) + (if l.account == a && l.direction == d then l.amount else 0)
  }

  // Grouping by account and direction, then signing the group sums, is the per-entry fold.
  lemma {:induction false} GroupsMakeBalance(entries: seq<Entry>, a: Account)
    ensures Balance(entries, a) == GroupSum(entries, a, Credit) - GroupSum(entries, a, Debit)
  {
    if entries != [] {
      GroupsMakeBalance(entries[..|entries| - 1], a);
    }
  }

  lemma {:induction false} AbsentGroup(entries: seq<Entry>, a: Account, d: Direction)
    requires forall e :: e in entries ==> !(e.leg.account == a && e.leg.direction == d)
    ensures GroupSum(entries, a, d) == 0
  {
    if entries != [] {
      AbsentGroup(entries[..|entries| - 1], a, d);
    }
  }

  class LedgerService {
    var entries: seq<Entry>
    ghost var txns: seq<(Ref, seq<Leg>)>

    ghost predicate Valid() reads this { Posted(entries, txns) }

    constructor ()
      ensures Valid() && entries == []
    {
      entries, txns := [], [];
    }

    method AssertBalanced(legs: seq<Leg>) returns (ok: bool)
      ensures ok <==> Accepted(legs)
      ensures ok <==> |legs| >= 2 && (forall l :: l in legs ==> l.amount > 0) && Side(legs, Debit) == Side(legs, Credit)
    {
      SidesDiffer(legs);
      if |legs| < 2 { return false; }
      var debit, credit := 0, 0;
      for i := 0 to |legs|
        invariant forall j :: 0 <= j < i ==> legs[j].amount > 0
        invariant credit - debit == SumOf(legs[..i], Signed)
      {
        if legs[i].amount <= 0 { return false; }
        assert legs[..i + 1][..i] == legs[..i];
        if legs[i].direction == Debit {
          debit := debit + legs[i].amount;
        } else {
          credit := credit + legs[i].amount;
        }
      }
      assert legs[..|legs|] == legs;
      return debit == credit;
    }

    // Throws (ok == false, nothing written) unless the legs balance.
    method Post(ref: Ref, legs: seq<Leg>) returns (ok: bool)
      requires Valid()
      modifies this
      ensures Valid() && (ok <==> Accepted(legs))
      ensures entries == if ok then old(entries) + Tag(ref, legs) else old(entries)
    {
      ok := AssertBalanced(legs);
      if ok {
        PostedSnoc(entries, txns, ref, legs);
        entries, txns := entries + Tag(ref, legs), txns + [(ref, legs)];
      }
    }

    // The grouped rows come back from the database in no particular order.
    method Balances() returns (out: map<Account, int>)
      requires Valid()
      ensures forall a :: a in out <==> exists e :: e in entries && e.leg.account == a
      ensures forall a :: a in out ==> out[a] == Balance(entries, a)
      ensures AllBalances(entries) == 0
    {
      var groups := set e | e in entries :: (e.leg.account, e.leg.direction);
      var rows := groups;
      out := map[];
      while rows != {}
        invariant rows <= groups
        invariant forall a :: a in out <==> (a, Debit) in groups - rows || (a, Credit) in groups - rows
        invariant forall a :: a in out ==> 
          out[a] == (if (a, Credit) in groups - rows then GroupSum(entries, a, Credit) else 0)
                    - (if (a, Debit) in groups - rows then GroupSum(entries, a, Debit) else 0)
        decreases |rows|
      {
        var row :| row in rows;
        rows := rows - {row};
        var amount := GroupSum(entries, row.0, row.1);
        var signed := if row.1 == Credit then amount else -amount;
        out := out[row.0 := (if row.0 in out then out[row.0] else 0) + signed];
      }
      forall a | a in out ensures out[a] == Balance(entries, a) {
        GroupsMakeBalance(entries, a);
        if (a, Credit) !in groups { AbsentGroup(entries, a, Credit); }
        if (a, Debit) !in groups { AbsentGroup(entries, a, Debit); }
      }
      forall a ensures a in out <==> exists e :: e in entries && e.leg.account == a {
        if e :| e in entries && e.leg.account == a {
          assert (e.leg.account, e.leg.direction) in groups;
          assert e.leg.direction == Debit || e.leg.direction == Credit;
        }
      }
      LedgerSumsToZero(entries, txns);
    }
  }
}
