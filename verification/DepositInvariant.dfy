/**
 * Deposits, the balances they are credited to and the ledger. A settled deposit is booked once; a deposit whose row was
 * overwritten by an expiry after it was paid is settled again. Everything here counts the entries of the ledger.
 */
module DepositInvariant {
  import opened Numbers
  import opened Sums
  import opened Books

  ghost predicate DepositOk(d: Deposit, balances: map<nat, int>)
  {
    && d.amount > 0 && d.user in balances
    && (d.status.Paid? ==> d.fee.Some?) && (d.status.Pending? ==> d.fee.None?)
    && (d.fee.Some? ==> d.net.Some? && 0 <= d.fee.value && 0 <= d.net.value && d.fee.value + d.net.value == d.amount)
  }

  function FeeOf(d: Deposit): int { d.fee.GetOr(0) }

  /** What the ledger says user u has been credited. */
  ghost function CreditTo(deposits: seq<Deposit>, u: nat): Entry -> int
  {
    (e: Entry) =>
      if e.kind.DepositIn? && e.reference < |deposits| && deposits[e.reference].user == u then e.amount else 0
  }

  ghost const NetOf: Deposit -> int := (d: Deposit) => if WasPaid(d) then d.amount - FeeOf(d) else 0

  ghost const Signed: Entry -> int := (e: Entry) => if e.kind.DepositIn? then e.amount else -e.amount

  /** What was paid out on withdrawals. */
  ghost const OutOf: Entry -> int := (e: Entry) => if e.kind.WithdrawalOut? then e.amount else 0

  /** One for each entry of this kind that is booked for id. */
  ghost function IsEntry(kind: EntryKind, id: nat): Entry -> int
  {
    (e: Entry) => if e.kind == kind && e.reference == id then 1 else 0
  }

  /** How often the deposit has been credited. */
  ghost function Credits(db: Db, id: nat): int
  {
    Sum(db.entries, IsEntry(DepositIn, id))
  }

  ghost predicate EntryOk(db: Db, e: Entry)
  {
    match e.kind
    case DepositIn => e.reference < |db.deposits| && e.amount == db.deposits[e.reference].amount && WasPaid(db.deposits[e.reference])
    case GatewayFeeOut => e.reference < |db.deposits| && 0 < e.amount <= db.deposits[e.reference].amount && WasPaid(db.deposits[e.reference])
    case WithdrawalOut => e.reference < |db.withdrawals| && e.amount == db.withdrawals[e.reference].amount
  }

  ghost predicate LedgerOk(db: Db)
  {
    && (forall i :: 0 <= i < |db.entries| ==> EntryOk(db, db.entries[i]))
    && (forall id: nat :: id < |db.deposits| && WasPaid(db.deposits[id]) ==> Credits(db, id) >= 1)
  }

  /** Every balance is the initial one plus what the ledger has credited the user with. */
  ghost predicate BalancesOk(db: Db, start: map<nat, int>)
  {
    && db.balances.Keys == start.Keys
    && forall u :: u in start ==> db.balances[u] == start[u] + Sum(db.entries, CreditTo(db.deposits, u))
  }

  /** What holds after every run. */
  ghost predicate DepositsOk(db: Db, start: map<nat, int>)
  {
    && (forall i :: 0 <= i < |db.deposits| ==> DepositOk(db.deposits[i], db.balances))
    && LedgerOk(db) && BalancesOk(db, start)
  }

  /** Deposits are never removed, nor is their owner, their amount or the fact that they were paid. */
  ghost predicate DepositsGrow(db: Db, db': Db)
  {
    && |db.deposits| <= |db'.deposits|
    && forall i :: 0 <= i < |db.deposits| ==>
         && db'.deposits[i].user == db.deposits[i].user && db'.deposits[i].amount == db.deposits[i].amount
         && (WasPaid(db.deposits[i]) ==> WasPaid(db'.deposits[i]))
  }

  // ------------------------------------------------------------------ exactly once

  function Due(d: Deposit, kind: EntryKind): int
  {
    match kind
    case DepositIn => if WasPaid(d) then 1 else 0
    case GatewayFeeOut => if WasPaid(d) && FeeOf(d) > 0 then 1 else 0
    case WithdrawalOut => 0
  }

  /**
   * Each deposit that was paid has one entry for its gross amount, one for a positive fee, no other has any, and the
   * ledger's balance is what these deposits brought in, net of fees, less what was paid out on withdrawals.
   */
  ghost predicate BookedOnce(db: Db)
  {
    && (forall id: nat, kind: EntryKind :: id < |db.deposits| && !kind.WithdrawalOut? ==>
          Sum(db.entries, IsEntry(kind, id)) == Due(db.deposits[id], kind))
    && Sum(db.entries, Signed) == Sum(db.deposits, NetOf) - Sum(db.entries, OutOf)
  }

  /** Each deposit has one entry for its gross amount exactly if its row says paid. */
  ghost predicate StatusTells(db: Db)
  {
    forall id: nat :: id < |db.deposits| ==> Tells(db, id)
  }

  ghost predicate Tells(db: Db, id: nat)
    requires id < |db.deposits|
  {
    Credits(db, id) == (if db.deposits[id].status.Paid? then 1 else 0)
  }

  /** Every user with the signup bonus has a deposit whose row says paid. */
  ghost predicate BonusesBacked(db: Db)
  {
    forall u :: u in db.signupBonuses ==> PaidBefore(db.deposits, u, |db.deposits|)
  }

  ghost predicate NoBonusTwice(db: Db)
  {
    forall i, j :: 0 <= i < j < |db.signupBonuses| ==> db.signupBonuses[i] != db.signupBonuses[j]
  }

  lemma FeeBounds(plan: FeePlan, gross: nat, gatewayNet: Option<int>)
    ensures var f := ResolveFee(plan, gross, gatewayNet); 0 <= f.fee && 0 <= f.net && f.fee + f.net == gross
  {
  }

  /** The rows settlePaid writes before it turns to the commission. */
  function Settled(plan: FeePlan, db: Db, id: nat, gatewayNet: Option<int>, now: int): Db
    requires Settleable(db, id)
  {
    var d := db.deposits[id];
    var f := ResolveFee(plan, Max(0, d.amount), gatewayNet);
    var firstReferred := !PaidBefore(db.deposits, d.user, id) && d.user in db.referrers;
    db.(balances := Credited(db.balances, d.user, d.amount),
        signupBonuses := db.signupBonuses + (if firstReferred then [d.user] else []),
        deposits := db.deposits[id := PaidRow(d, f, now)],
        entries := db.entries + EntriesOf(id, d.amount, f.fee))
  }

  lemma EntriesSum(id: nat, gross: int, fee: int, f: Entry -> int)
    ensures Sum(EntriesOf(id, gross, fee), f)
         == f(Entry(DepositIn, gross, id)) + if fee > 0 then f(Entry(GatewayFeeOut, fee, id)) else 0
  {
    SumSnoc([], Entry(DepositIn, gross, id), f);
    assert [] + [Entry(DepositIn, gross, id)] == [Entry(DepositIn, gross, id)];
    if fee > 0 {
      SumSnoc([Entry(DepositIn, gross, id)], Entry(GatewayFeeOut, fee, id), f);
    }
  }

  /** An unpaid deposit has no entries. */
  lemma UnpaidHasNoEntries(db: Db, id: nat, kind: EntryKind)
    requires LedgerOk(db) && id < |db.deposits| && !WasPaid(db.deposits[id]) && !kind.WithdrawalOut?
    ensures Sum(db.entries, IsEntry(kind, id)) == 0
  {
    forall i | 0 <= i < |db.entries|
      ensures IsEntry(kind, id)(db.entries[i]) == 0
    {
      assert EntryOk(db, db.entries[i]);
    }
    SumZero(db.entries, IsEntry(kind, id));
  }

  /** The status is never ahead of the ledger. */
  lemma CreditsAtLeastStatus(db: Db, id: nat)
    requires LedgerOk(db) && id < |db.deposits|
    ensures Credits(db, id) >= (if db.deposits[id].status.Paid? then 1 else 0)
  {
    if !WasPaid(db.deposits[id]) {
      UnpaidHasNoEntries(db, id, DepositIn);
    }
  }

  // ------------------------------------------------------------------- settlement

  lemma SettleCounts(plan: FeePlan, db: Db, id: nat, gatewayNet: Option<int>, now: int, kind: EntryKind, other: nat)
    requires Settleable(db, id) && db.deposits[id].amount > 0 && !kind.WithdrawalOut?
    ensures var db' := Settled(plan, db, id, gatewayNet, now);
            Sum(db'.entries, IsEntry(kind, other))
              == Sum(db.entries, IsEntry(kind, other)) + (if other == id then Due(db'.deposits[id], kind) else 0)
  {
    var d := db.deposits[id];
    var f := ResolveFee(plan, Max(0, d.amount), gatewayNet);
    SumAppend(db.entries, EntriesOf(id, d.amount, f.fee), IsEntry(kind, other));
    EntriesSum(id, d.amount, f.fee, IsEntry(kind, other));
  }

  lemma SettleBalances(plan: FeePlan, db: Db, id: nat, gatewayNet: Option<int>, now: int, start: map<nat, int>)
    requires DepositsOk(db, start) && Settleable(db, id)
    ensures BalancesOk(Settled(plan, db, id, gatewayNet, now), start)
  {
    var d, db' := db.deposits[id], Settled(plan, db, id, gatewayNet, now);
    var f := ResolveFee(plan, Max(0, d.amount), gatewayNet);
    forall u | u in start
      ensures db'.balances[u] == start[u] + Sum(db'.entries, CreditTo(db'.deposits, u))
    {
      SumAppend(db.entries, EntriesOf(id, d.amount, f.fee), CreditTo(db'.deposits, u));
      EntriesSum(id, d.amount, f.fee, CreditTo(db'.deposits, u));
      SumSame(db.entries, CreditTo(db.deposits, u), db.entries, CreditTo(db'.deposits, u));
    }
  }

  lemma SettleLedger(plan: FeePlan, db: Db, id: nat, gatewayNet: Option<int>, now: int, start: map<nat, int>)
    requires DepositsOk(db, start) && Settleable(db, id)
    ensures LedgerOk(Settled(plan, db, id, gatewayNet, now))
  {
    var d, db' := db.deposits[id], Settled(plan, db, id, gatewayNet, now);
    var f := ResolveFee(plan, Max(0, d.amount), gatewayNet);
    FeeBounds(plan, d.amount, gatewayNet);
    forall i | 0 <= i < |db'.entries|
      ensures EntryOk(db', db'.entries[i])
    {
      if i < |db.entries| {
        assert EntryOk(db, db.entries[i]);
      }
    }
    forall other: nat | other < |db'.deposits| && WasPaid(db'.deposits[other])
      ensures Credits(db', other) >= 1
    {
      SettleCounts(plan, db, id, gatewayNet, now, DepositIn, other);
      CreditsAtLeastStatus(db, other);
    }
  }

  lemma SettledOk(plan: FeePlan, db: Db, id: nat, gatewayNet: Option<int>, now: int, start: map<nat, int>)
    requires DepositsOk(db, start) && Settleable(db, id)
    ensures DepositsOk(Settled(plan, db, id, gatewayNet, now), start)
    ensures DepositsGrow(db, Settled(plan, db, id, gatewayNet, now))
  {
    FeeBounds(plan, db.deposits[id].amount, gatewayNet);
    SettleLedger(plan, db, id, gatewayNet, now, start);
    SettleBalances(plan, db, id, gatewayNet, now, start);
  }

  lemma CreateTouchesNoDeposit(db: Db, id: nat)
    requires id < |db.deposits|
    ensures var db' := CreateFromDeposit(db, id);
            db'.deposits == db.deposits && db'.balances == db.balances && db'.entries == db.entries
            && db'.signupBonuses == db.signupBonuses && db'.withdrawals == db.withdrawals
  {
  }

  /** Every settlement keeps the ledger and the balances, also that of an overwritten deposit. */
  lemma SettleKeepsDeposits(plan: FeePlan, db: Db, id: nat, gatewayNet: Option<int>, now: int, start: map<nat, int>)
    requires DepositsOk(db, start)
    ensures DepositsOk(SettlePaid(plan, db, id, gatewayNet, now), start)
    ensures DepositsGrow(db, SettlePaid(plan, db, id, gatewayNet, now))
  {
    if Settleable(db, id) {
      var mid := Settled(plan, db, id, gatewayNet, now);
      SettledOk(plan, db, id, gatewayNet, now, start);
      CreateTouchesNoDeposit(mid, id);
      CommissionsDoNotMatter(mid, CreateFromDeposit(mid, id), start);
    }
  }

  /** The deposit invariant does not look at commissions, referrers or affiliates, and at withdrawals only to look them up. */
  lemma CommissionsDoNotMatter(db: Db, db': Db, start: map<nat, int>)
    requires DepositsOk(db, start)
    requires db'.deposits == db.deposits && db'.balances == db.balances && db'.entries == db.entries
             && db.withdrawals <= db'.withdrawals
    ensures DepositsOk(db', start)
  {
    forall i | 0 <= i < |db'.entries|
      ensures EntryOk(db', db'.entries[i])
    {
      assert EntryOk(db, db.entries[i]);
    }
    forall id: nat | id < |db'.deposits| && WasPaid(db'.deposits[id])
      ensures Credits(db', id) >= 1
    {
      assert Credits(db, id) >= 1;
    }
  }

  /** A repeated notification changes nothing: settling is idempotent, whatever the second call reports. */
  lemma SettleTwice(plan: FeePlan, db: Db, id: nat, net1: Option<int>, now1: int, net2: Option<int>, now2: int)
    ensures var once := SettlePaid(plan, db, id, net1, now1); SettlePaid(plan, once, id, net2, now2) == once
  {
  }

  /** Settling a deposit that was never paid keeps the books exact. */
  lemma SettleKeepsOnce(plan: FeePlan, db: Db, id: nat, gatewayNet: Option<int>, now: int, start: map<nat, int>)
    requires DepositsOk(db, start) && BookedOnce(db) && Settleable(db, id) && !WasPaid(db.deposits[id])
    ensures BookedOnce(Settled(plan, db, id, gatewayNet, now))
  {
    var d, db' := db.deposits[id], Settled(plan, db, id, gatewayNet, now);
    var f := ResolveFee(plan, Max(0, d.amount), gatewayNet);
    FeeBounds(plan, d.amount, gatewayNet);
    forall other: nat, kind: EntryKind | other < |db'.deposits| && !kind.WithdrawalOut?
      ensures Sum(db'.entries, IsEntry(kind, other)) == Due(db'.deposits[other], kind)
    {
      SettleCounts(plan, db, id, gatewayNet, now, kind, other);
    }
    SumAppend(db.entries, EntriesOf(id, d.amount, f.fee), Signed);
    EntriesSum(id, d.amount, f.fee, Signed);
    SumAppend(db.entries, EntriesOf(id, d.amount, f.fee), OutOf);
    EntriesSum(id, d.amount, f.fee, OutOf);
    SumUpdate(db.deposits, id, PaidRow(d, f, now), NetOf);
  }

  // ----------------------------------------------------------- other writes to the rows

  lemma AddDepositKeeps(db: Db, d: Deposit, start: map<nat, int>)
    requires DepositsOk(db, start) && d.status.Pending? && d.fee.None? && d.amount > 0 && d.user in db.balances
    ensures var db' := db.(deposits := db.deposits + [d]); DepositsOk(db', start) && DepositsGrow(db, db')
  {
    var db' := db.(deposits := db.deposits + [d]);
    forall i | 0 <= i < |db'.entries|
      ensures EntryOk(db', db'.entries[i])
    {
      assert EntryOk(db, db.entries[i]);
    }
    forall u | u in start
      ensures Sum(db'.entries, CreditTo(db'.deposits, u)) == Sum(db.entries, CreditTo(db.deposits, u))
    {
      SameCredits(db, db', u);
    }
    forall id: nat | id < |db'.deposits| && WasPaid(db'.deposits[id])
      ensures Credits(db', id) >= 1
    {
      assert Credits(db, id) >= 1;
    }
  }

  lemma SameCredits(db: Db, db': Db, u: nat)
    requires LedgerOk(db) && DepositsGrow(db, db') && db'.entries == db.entries
    ensures Sum(db'.entries, CreditTo(db'.deposits, u)) == Sum(db.entries, CreditTo(db.deposits, u))
  {
    forall i | 0 <= i < |db.entries|
      ensures CreditTo(db.deposits, u)(db.entries[i]) == CreditTo(db'.deposits, u)(db.entries[i])
    {
      assert EntryOk(db, db.entries[i]);
    }
    SumSame(db.entries, CreditTo(db.deposits, u), db.entries, CreditTo(db'.deposits, u));
  }

  lemma AddDepositKeepsOnce(db: Db, d: Deposit, start: map<nat, int>)
    requires DepositsOk(db, start) && BookedOnce(db) && d.status.Pending? && d.fee.None?
    ensures BookedOnce(db.(deposits := db.deposits + [d]))
  {
    var db' := db.(deposits := db.deposits + [d]);
    SumSnoc(db.deposits, d, NetOf);
    forall id: nat, kind: EntryKind | id < |db'.deposits| && !kind.WithdrawalOut?
      ensures Sum(db'.entries, IsEntry(kind, id)) == Due(db'.deposits[id], kind)
    {
      if id == |db.deposits| {
        NothingBeyond(db, id, kind);
      }
    }
  }

  lemma NothingBeyond(db: Db, id: nat, kind: EntryKind)
    requires LedgerOk(db) && id >= |db.deposits| && !kind.WithdrawalOut?
    ensures Sum(db.entries, IsEntry(kind, id)) == 0
  {
    forall i | 0 <= i < |db.entries|
      ensures IsEntry(kind, id)(db.entries[i]) == 0
    {
      assert EntryOk(db, db.entries[i]);
    }
    SumZero(db.entries, IsEntry(kind, id));
  }

  /** The expiry's write, on whatever row it meets. */
  lemma WriteExpiredKeeps(db: Db, id: nat, start: map<nat, int>)
    requires DepositsOk(db, start) && id < |db.deposits|
    ensures DepositsOk(WriteExpired(db, id), start) && DepositsGrow(db, WriteExpired(db, id))
  {
    var db' := WriteExpired(db, id);
    forall i | 0 <= i < |db'.entries|
      ensures EntryOk(db', db'.entries[i])
    {
      assert EntryOk(db, db.entries[i]);
    }
    forall u | u in start
      ensures Sum(db'.entries, CreditTo(db'.deposits, u)) == Sum(db.entries, CreditTo(db.deposits, u))
    {
      SameCredits(db, db', u);
    }
    forall other: nat | other < |db'.deposits| && WasPaid(db'.deposits[other])
      ensures Credits(db', other) >= 1
    {
      assert Credits(db, other) >= 1;
    }
  }

  lemma WriteExpiredKeepsOnce(db: Db, id: nat, start: map<nat, int>)
    requires DepositsOk(db, start) && BookedOnce(db) && id < |db.deposits|
    ensures BookedOnce(WriteExpired(db, id))
  {
    var db' := WriteExpired(db, id);
    SumUpdate(db.deposits, id, db'.deposits[id], NetOf);
    forall other: nat, kind: EntryKind | other < |db'.deposits| && !kind.WithdrawalOut?
      ensures Sum(db'.entries, IsEntry(kind, other)) == Due(db'.deposits[other], kind)
    {
      assert Sum(db.entries, IsEntry(kind, other)) == Due(db.deposits[other], kind);
    }
  }

  lemma PaymentCredits(db: Db, w: nat, id: nat)
    requires w < |db.withdrawals|
    ensures Credits(BookPayment(db, w), id) == Credits(db, id)
  {
    SumSnoc(db.entries, Entry(WithdrawalOut, db.withdrawals[w].amount, w), IsEntry(DepositIn, id));
  }

  lemma PaymentKeepsOnce(db: Db, w: nat)
    requires BookedOnce(db) && w < |db.withdrawals|
    ensures BookedOnce(BookPayment(db, w))
  {
    var db', e := BookPayment(db, w), Entry(WithdrawalOut, db.withdrawals[w].amount, w);
    SumSnoc(db.entries, e, Signed);
    SumSnoc(db.entries, e, OutOf);
    forall id: nat, kind: EntryKind | id < |db'.deposits| && !kind.WithdrawalOut?
      ensures Sum(db'.entries, IsEntry(kind, id)) == Due(db'.deposits[id], kind)
    {
      SumSnoc(db.entries, e, IsEntry(kind, id));
    }
  }
}
