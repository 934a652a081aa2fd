/**
 * What settlement, previews and confirmations do, in the terms of the people they pay: what a deposit's fee and net are,
 * who earns a commission and how much, which commissions a preview adds up and a confirmation pays. As for the crash game,
 * nothing here names the functions that compute it.
 */
module SettlementOutcomes {
  import opened Numbers
  import opened Sums
  import opened Books
  import opened Agreement
  import opened DepositInvariant
  import opened CommissionInvariant

  // -------------------------------------------------------------------- fee and net

  /**
   * With a net value from the gateway, that is the net, at most the gross, and the rest is the fee. Without one the fee is
   * the percentage, to the nearest hundredth, plus the fixed part, at most the gross, and the rest is the net.
   */
  ghost predicate FeeIs(plan: FeePlan, gross: int, reported: Option<int>, fee: int, net: int)
  {
    && fee + net == gross
    && if reported.Some? && reported.value >= 0 then net == if gross <= reported.value then gross else reported.value
       else
         var rate := if plan.percent < 0 then 0 else plan.percent;
         var rest := 10000 * (fee - (if plan.fixed < 0 then 0 else plan.fixed)) - gross * rate;
         fee <= gross && rest <= 5000 && (fee == gross || -5000 < rest)
  }

  lemma ResolvedFeeIs(plan: FeePlan, gross: nat, reported: Option<int>)
    ensures var f := ResolveFee(plan, gross, reported); FeeIs(plan, gross, reported, f.fee, f.net)
  {
    var rate := Max(0, plan.percent);
    assert gross * rate >= 0;
    QuotientBounds(gross * rate, 10000);
  }

  /** Credit, deposit row, ledger and signup branch of a deposit that is settled. */
  ghost predicate SettledAs(plan: FeePlan, db: Db, db': Db, id: nat, reported: Option<int>, now: int)
  {
    && id < |db.deposits| == |db'.deposits| && db.deposits[id].user in db.balances
    && var d, d' := db.deposits[id], db'.deposits[id];
       && d'.fee.Some? && d'.net.Some? && FeeIs(plan, d.amount, reported, d'.fee.value, d'.net.value)
       && db'.deposits == db.deposits[id := d.(status := Paid, paidAt := now, fee := d'.fee, net := d'.net)]
       && db'.entries == db.entries + [Entry(DepositIn, d.amount, id)]
                         + (if d'.fee.value > 0 then [Entry(GatewayFeeOut, d'.fee.value, id)] else [])
       && db'.balances == db.balances[d.user := db.balances[d.user] + d.amount]
       && db'.signupBonuses == db.signupBonuses + if d.user in db.referrers && NoOtherPaid(db, id) then [d.user] else []
  }

  /** It is the player's first paid deposit. */
  ghost predicate NoOtherPaid(db: Db, id: nat)
    requires id < |db.deposits|
  {
    forall i :: 0 <= i < |db.deposits| && i != id ==> !(db.deposits[i].user == db.deposits[id].user && db.deposits[i].status.Paid?)
  }

  lemma CreditsAndRecords(plan: FeePlan, db: Db, id: nat, reported: Option<int>, now: int)
    requires Settleable(db, id) && db.deposits[id].amount > 0
    ensures SettledAs(plan, db, Settled(plan, db, id, reported, now), id, reported, now)
    ensures SettledAs(plan, db, SettlePaid(plan, db, id, reported, now), id, reported, now)
  {
    ResolvedFeeIs(plan, db.deposits[id].amount, reported);
    CreateTouchesNoDeposit(Settled(plan, db, id, reported, now), id);
  }

  /** settlePaid on a deposit that is pending or expired; on any other it does nothing. */
  lemma SettlesAs(plan: FeePlan, db: Db, id: nat, reported: Option<int>, now: int, start: map<nat, int>)
    requires DepositsOk(db, start)
    ensures var db' := SettlePaid(plan, db, id, reported, now);
            if id < |db.deposits| && (db.deposits[id].status.Pending? || db.deposits[id].status.Expired?)
            then SettledAs(plan, db, db', id, reported, now) else db' == db
  {
    if Settleable(db, id) {
      CreditsAndRecords(plan, db, id, reported, now);
    }
  }

  // --------------------------------------------------------------- what a deposit earns

  /** What a commission is taken of: the net if there is one, else the gross less a plausible fee, else the gross. */
  ghost predicate BaseIs(d: Deposit, base: int)
  {
    && (d.net.Some? && d.net.value > 0 ==> base == d.net.value)
    && (d.net.None? || d.net.value <= 0 ==>
          base == if d.fee.Some? && 0 < d.fee.value < d.amount then d.amount - d.fee.value else d.amount)
  }

  /** The percentage of the base, to the nearest hundredth, a half going up. */
  ghost predicate ShareIs(base: int, percent: nat, amount: int)
  {
    -5000 < 10000 * amount - base * percent <= 5000
  }

  /** An open commission for this deposit and affiliate, worth the affiliate's share. */
  ghost predicate Earned(db: Db, c: Commission, affiliate: nat, deposit: nat)
  {
    && deposit < |db.deposits| && affiliate < |db.affiliates|
    && c.affiliate == affiliate && c.deposit == deposit && c.status.Open? && c.withdrawal.None?
    && BaseIs(db.deposits[deposit], c.base) && c.base > 0
    && ShareIs(c.base, db.affiliates[affiliate].percent, c.amount) && c.amount > 0
  }

  /** The share is at least half a hundredth, so that it rounds to something. */
  ghost predicate WorthSomething(db: Db, affiliate: nat, deposit: nat, base: int)
    requires affiliate < |db.affiliates| && deposit < |db.deposits|
  {
    base > 0 && base * db.affiliates[affiliate].percent >= 5000
  }

  lemma CommissionIs(db: Db, affiliate: nat, deposit: nat, base: int)
    requires affiliate < |db.affiliates| && deposit < |db.deposits| && BaseIs(db.deposits[deposit], base)
    ensures var c := NewCommission(db, affiliate, deposit);
            && c.base == base
            && (c.amount > 0 <==> WorthSomething(db, affiliate, deposit, base))
            && (c.amount > 0 ==> Earned(db, c, affiliate, deposit))
  {
    if base > 0 {
      assert base * db.affiliates[affiliate].percent >= 0;
      QuotientBounds(base * db.affiliates[affiliate].percent, 10000);
    }
  }

  /** The affiliate of the deposit's player, if active; else the one behind the deposit's code, if active. */
  ghost predicate EarnerIs(db: Db, d: Deposit, affiliate: nat)
  {
    && affiliate < |db.affiliates| && db.affiliates[affiliate].active
    && if HasActiveReferrer(db, d) then affiliate == db.referrers[d.user]
       else d.bonusCode.Some? && d.bonusCode.value in db.codes && affiliate == db.codes[d.bonusCode.value]
  }

  ghost predicate HasActiveReferrer(db: Db, d: Deposit)
  {
    && d.user in db.referrers && db.referrers[d.user] < |db.affiliates|
    && db.affiliates[db.referrers[d.user]].active
  }

  ghost predicate HasRow(commissions: seq<Commission>, deposit: nat)
  {
    exists i :: 0 <= i < |commissions| && commissions[i].deposit == deposit
  }

  /** One row more if there is something to earn and no row yet; a player without an affiliate gets this one. */
  ghost predicate RewardedAs(db: Db, db': Db, id: nat, affiliate: nat, base: int)
    requires id < |db.deposits| && affiliate < |db.affiliates|
  {
    && (if HasRow(db.commissions, id) || !WorthSomething(db, affiliate, id, base)
        then db'.commissions == db.commissions
        else && |db'.commissions| == |db.commissions| + 1
             && db'.commissions[..|db.commissions|] == db.commissions
             && Earned(db, db'.commissions[|db.commissions|], affiliate, id))
    && db'.referrers
         == if db.deposits[id].user in db.referrers then db.referrers else db.referrers[db.deposits[id].user := affiliate]
  }

  lemma CreatesTheCommission(db: Db, id: nat, affiliate: nat, base: int)
    requires id < |db.deposits| && BaseIs(db.deposits[id], base)
    ensures var d, db' := db.deposits[id], CreateFromDeposit(db, id);
            && (EarnerIs(db, d, affiliate) ==> RewardedAs(db, db', id, affiliate, base))
            && ((forall a: nat :: !EarnerIs(db, d, a)) ==> db' == db)
  {
    var d := db.deposits[id];
    if EarnerIs(db, d, affiliate) {
      CommissionIs(db, affiliate, id, base);
    }
    if d.user in db.referrers && IsActive(db, db.referrers[d.user]) {
      assert EarnerIs(db, d, db.referrers[d.user]);
    } else if d.bonusCode.Some? && d.bonusCode.value in db.codes && IsActive(db, db.codes[d.bonusCode.value]) {
      assert EarnerIs(db, d, db.codes[d.bonusCode.value]);
    }
  }

  /** What settling a deposit earns its affiliate, taken of the net the settlement has just written; without one, nothing. */
  lemma SettlementEarns(plan: FeePlan, db: Db, id: nat, reported: Option<int>, now: int, affiliate: nat, base: int, start: map<nat, int>)
    requires DepositsOk(db, start) && Settleable(db, id)
    requires BaseIs(SettlePaid(plan, db, id, reported, now).deposits[id], base)
    ensures var db', d := SettlePaid(plan, db, id, reported, now), db.deposits[id];
            && (EarnerIs(db, d, affiliate) ==> RewardedAs(db.(deposits := db'.deposits), db', id, affiliate, base))
            && ((forall a: nat :: !EarnerIs(db, d, a)) ==> db'.commissions == db.commissions && db'.referrers == db.referrers)
  {
    var mid := Settled(plan, db, id, reported, now);
    var db' := SettlePaid(plan, db, id, reported, now);
    CreateTouchesNoDeposit(mid, id);
    assert db' == CreateFromDeposit(mid, id) && db'.deposits == mid.deposits;
    CreatesTheCommission(mid, id, affiliate, base);
    assert forall a: nat :: EarnerIs(mid, mid.deposits[id], a) <==> EarnerIs(db, db.deposits[id], a);
  }

  // ------------------------------------------------------------- previews and confirmations

  /** Paid in the period by a player of this affiliate. */
  ghost predicate PaidInPeriod(db: Db, affiliate: nat, p: Period, id: nat)
  {
    && id < |db.deposits| && db.deposits[id].status.Paid? && p.from <= db.deposits[id].paidAt <= p.to
    && db.deposits[id].user in db.referrers && db.referrers[db.deposits[id].user] == affiliate
  }

  /** These are the deposits that a preview and a confirmation visit. */
  lemma VisitedIffPaid(db: Db, affiliate: nat, p: Period, id: nat)
    ensures id in EligibleDeposits(db, affiliate, p) <==> PaidInPeriod(db, affiliate, p, id)
  {
    EligibleDepositsExact(db, affiliate, p);
  }

  /** A preview of the affiliate's period adds this row up. */
  ghost predicate IsDue(db: Db, affiliate: nat, p: Period, c: Commission)
  {
    c.affiliate == affiliate && c.status.Open? && PaidInPeriod(db, affiliate, p, c.deposit)
  }

  /**
   * A preview only adds rows: one, earned by the affiliate, for each deposit paid in the period that is worth something
   * and has none.
   */
  lemma PreviewCompletes(db: Db, affiliate: nat, p: Period, id: nat, base: int)
    requires affiliate < |db.affiliates| && id < |db.deposits| && BaseIs(db.deposits[id], base)
    ensures var db' := PreviewPeriod(db, affiliate, p);
            && db' == db.(commissions := db'.commissions) && db.commissions <= db'.commissions
            && (HasRow(db'.commissions, id) <==>
                  || HasRow(db.commissions, id)
                  || (PaidInPeriod(db, affiliate, p, id) && WorthSomething(db, affiliate, id, base)))
            && (forall i :: |db.commissions| <= i < |db'.commissions| ==>
                  && Earned(db, db'.commissions[i], affiliate, db'.commissions[i].deposit)
                  && PaidInPeriod(db, affiliate, p, db'.commissions[i].deposit)
                  && !HasRow(db.commissions, db'.commissions[i].deposit))
  {
    var ids, rows := EligibleDeposits(db, affiliate, p), PreviewRows(db, affiliate, p);
    EligibleDepositsExact(db, affiliate, p);
    forall i | 0 <= i < |rows|
      ensures Earned(db, rows[i], affiliate, rows[i].deposit) && PaidInPeriod(db, affiliate, p, rows[i].deposit)
      ensures !HasRow(db.commissions, rows[i].deposit)
    {
      NewRowsSound(db, affiliate, ids, i);
      NewRowIsEarned(db, affiliate, rows[i].deposit);
    }
    CommissionIs(db, affiliate, id, base);
    if id in ids && !HasRow(db.commissions, id) && WorthSomething(db, affiliate, id, base) {
      NewRowsComplete(db, affiliate, ids, id);
      var i :| 0 <= i < |rows| && rows[i].deposit == id;
      assert PreviewPeriod(db, affiliate, p).commissions[|db.commissions| + i].deposit == id;
    }
    if HasRow(db.commissions, id) {
      var i :| 0 <= i < |db.commissions| && db.commissions[i].deposit == id;
      assert PreviewPeriod(db, affiliate, p).commissions[i].deposit == id;
    }
  }

  lemma NewRowIsEarned(db: Db, affiliate: nat, id: nat)
    requires affiliate < |db.affiliates| && id < |db.deposits| && NewCommission(db, affiliate, id).amount > 0
    ensures Earned(db, NewCommission(db, affiliate, id), affiliate, id)
  {
    var d := db.deposits[id];
    CommissionIs(db, affiliate, id,
      if d.net.Some? && d.net.value > 0 then d.net.value
      else if d.fee.Some? && 0 < d.fee.value < d.amount then d.amount - d.fee.value else d.amount);
  }

  lemma {:induction false} NewRowsComplete(db: Db, affiliate: nat, ids: seq<nat>, id: nat)
    requires affiliate < |db.affiliates| && (forall k :: 0 <= k < |ids| ==> ids[k] < |db.deposits|)
    requires id in ids && !HasRow(db.commissions, id) && NewCommission(db, affiliate, id).amount > 0
    ensures HasRow(NewRows(db, affiliate, ids), id)
  {
    var n, rows := |ids| - 1, NewRows(db, affiliate, ids);
    if ids[n] == id {
      assert rows[|rows| - 1] == NewCommission(db, affiliate, id);
    } else {
      var before := NewRows(db, affiliate, ids[..n]);
      NewRowsComplete(db, affiliate, ids[..n], id);
      var i :| 0 <= i < |before| && before[i].deposit == id;
      assert rows[i] == before[i];
    }
  }

  // ------------------------------------------------------------------ what it adds up

  /** What g gives the rows that the draft lists. */
  ghost function DraftWeight(commissions: seq<Commission>, draft: seq<Item>, g: Commission -> int): int
  {
    if draft == [] then 0
    else
      var last := draft[|draft| - 1];
      DraftWeight(commissions, draft[..|draft| - 1], g)
      + match last
        case Existing(c) => if c < |commissions| then g(commissions[c]) else 0
        case Missing(row) => g(row)
  }

  ghost const AmountOf: Commission -> int := (c: Commission) => c.amount

  ghost const One: Commission -> int := (c: Commission) => 1

  ghost predicate RowsExist(commissions: seq<Commission>, draft: seq<Item>)
  {
    forall k :: 0 <= k < |draft| ==> draft[k].Missing? || draft[k].row < |commissions|
  }

  lemma {:induction false} WeightsOfADraft(commissions: seq<Commission>, draft: seq<Item>)
    ensures DraftWeight(commissions, draft, AmountOf) == DraftTotal(commissions, draft)
    ensures RowsExist(commissions, draft) ==> DraftWeight(commissions, draft, One) == |draft|
  {
    if draft != [] {
      WeightsOfADraft(commissions, draft[..|draft| - 1]);
    }
  }

  /** What g gives the affiliate's open rows of these deposits. */
  ghost function OpenOf(affiliate: nat, ids: seq<nat>, g: Commission -> int): Commission -> int
  {
    (c: Commission) => if c.affiliate == affiliate && c.status.Open? && c.deposit in ids then g(c) else 0
  }

  lemma {:induction false} DraftListsOpenRows(db: Db, affiliate: nat, ids: seq<nat>, g: Commission -> int)
    requires affiliate < |db.affiliates| && OneRowPerDeposit(db.commissions)
    requires (forall k :: 0 <= k < |ids| ==> ids[k] < |db.deposits|) && (forall k, l :: 0 <= k < l < |ids| ==> ids[k] != ids[l])
    ensures Sum(db.commissions + NewRows(db, affiliate, ids), OpenOf(affiliate, ids, g))
         == DraftWeight(db.commissions, DraftOf(db, affiliate, ids), g)
  {
    if ids == [] {
      SumZero(db.commissions, OpenOf(affiliate, ids, g));
      assert db.commissions + NewRows(db, affiliate, ids) == db.commissions;
    } else {
      var n := |ids| - 1;
      var older, item := db.commissions + NewRows(db, affiliate, ids[..n]), ItemOf(db, affiliate, ids[n]);
      DraftListsOpenRows(db, affiliate, ids[..n], g);
      OneMoreItem(db, affiliate, ids, g);
      OlderRows(older, affiliate, ids, g);
      RowsOfOneDeposit(db, affiliate, ids, g);
      OneMoreRow(older, item, affiliate, ids, g);
      assert db.commissions + NewRows(db, affiliate, ids)
          == older + if item.Some? && item.value.Missing? then [item.value.commission] else [];
    }
  }

  ghost function ItemWeight(commissions: seq<Commission>, item: Option<Item>, g: Commission -> int): int
  {
    match item
    case Some(Existing(c)) => if c < |commissions| then g(commissions[c]) else 0
    case Some(Missing(row)) => g(row)
    case None => 0
  }

  lemma OneMoreItem(db: Db, affiliate: nat, ids: seq<nat>, g: Commission -> int)
    requires affiliate < |db.affiliates| && ids != [] && forall k :: 0 <= k < |ids| ==> ids[k] < |db.deposits|
    ensures var n := |ids| - 1;
            var item := ItemOf(db, affiliate, ids[n]);
            && DraftWeight(db.commissions, DraftOf(db, affiliate, ids), g)
                 == DraftWeight(db.commissions, DraftOf(db, affiliate, ids[..n]), g) + ItemWeight(db.commissions, item, g)
            && NewRows(db, affiliate, ids)
                 == NewRows(db, affiliate, ids[..n]) + if item.Some? && item.value.Missing? then [item.value.commission] else []
  {
  }

  /** The row an item stands for, if it has to be created, joins the open ones. */
  lemma OneMoreRow(older: seq<Commission>, item: Option<Item>, affiliate: nat, ids: seq<nat>, g: Commission -> int)
    requires item.Some? && item.value.Missing? ==>
               item.value.commission.affiliate == affiliate && item.value.commission.status.Open? && item.value.commission.deposit in ids
    ensures var newer := older + if item.Some? && item.value.Missing? then [item.value.commission] else [];
            Sum(newer, OpenOf(affiliate, ids, g))
              == Sum(older, OpenOf(affiliate, ids, g))
                 + if item.Some? && item.value.Missing? then g(item.value.commission) else 0
  {
    if item.Some? && item.value.Missing? {
      SumSnoc(older, item.value.commission, OpenOf(affiliate, ids, g));
    } else {
      assert older + [] == older;
    }
  }

  lemma OlderRows(rows: seq<Commission>, affiliate: nat, ids: seq<nat>, g: Commission -> int)
    requires ids != [] && ids[|ids| - 1] !in ids[..|ids| - 1]
    ensures var n := |ids| - 1;
            Sum(rows, OpenOf(affiliate, ids, g)) == Sum(rows, OpenOf(affiliate, ids[..n], g)) + Sum(rows, OpenOf(affiliate, [ids[n]], g))
  {
    var n := |ids| - 1;
    assert ids == ids[..n] + [ids[n]];
    SumOfSums(rows, OpenOf(affiliate, ids[..n], g), OpenOf(affiliate, [ids[n]], g), OpenOf(affiliate, ids, g));
  }

  /** Before the last deposit is visited, its row if any is the one found. */
  lemma RowsOfOneDeposit(db: Db, affiliate: nat, ids: seq<nat>, g: Commission -> int)
    requires affiliate < |db.affiliates| && OneRowPerDeposit(db.commissions) && ids != []
    requires (forall k :: 0 <= k < |ids| ==> ids[k] < |db.deposits|) && (forall k, l :: 0 <= k < l < |ids| ==> ids[k] != ids[l])
    ensures var n := |ids| - 1;
            Sum(db.commissions + NewRows(db, affiliate, ids[..n]), OpenOf(affiliate, [ids[n]], g))
            == var item := ItemOf(db, affiliate, ids[n]);
               if item.Some? && item.value.Missing? then 0 else ItemWeight(db.commissions, item, g)
  {
    var n := |ids| - 1;
    var before, f := NewRows(db, affiliate, ids[..n]), OpenOf(affiliate, [ids[n]], g);
    SumAppend(db.commissions, before, f);
    forall i | 0 <= i < |before|
      ensures f(before[i]) == 0
    {
      NewRowsSound(db, affiliate, ids[..n], i);
    }
    SumZero(before, f);
    match Find(db.commissions, ids[n])
    case None => SumZero(db.commissions, f);
    case Some(c) => SumOne(db.commissions, c, f);
  }

  /** What g gives the rows that are due. */
  ghost function DueOf(db: Db, affiliate: nat, p: Period, g: Commission -> int): Commission -> int
  {
    (c: Commission) => if IsDue(db, affiliate, p, c) then g(c) else 0
  }

  /** A preview's line: the number and total of all rows due once it is made, confirmable with a key and a positive total. */
  lemma PreviewAddsUp(db: Db, affiliate: nat, p: Period)
    requires affiliate < |db.affiliates| && OneRowPerDeposit(db.commissions)
    ensures var rows, line := PreviewPeriod(db, affiliate, p).commissions, RowFor(db, affiliate, p);
            && line.affiliate == affiliate
            && line.count == Sum(rows, DueOf(db, affiliate, p, One))
            && line.total == Sum(rows, DueOf(db, affiliate, p, AmountOf))
            && (line.canConfirm <==> line.count > 0 && line.total > 0 && db.affiliates[affiliate].hasPixKey)
  {
    var ids, rows := EligibleDeposits(db, affiliate, p), PreviewPeriod(db, affiliate, p).commissions;
    EligibleDepositsExact(db, affiliate, p);
    DraftListsOpenRows(db, affiliate, ids, One);
    DraftListsOpenRows(db, affiliate, ids, AmountOf);
    SumSame(rows, DueOf(db, affiliate, p, One), rows, OpenOf(affiliate, ids, One));
    SumSame(rows, DueOf(db, affiliate, p, AmountOf), rows, OpenOf(affiliate, ids, AmountOf));
    WeightsOfADraft(db.commissions, Draft(db, affiliate, p));
    DraftRowsExist(db, affiliate, ids);
  }

  lemma {:induction false} DraftRowsExist(db: Db, affiliate: nat, ids: seq<nat>)
    requires affiliate < |db.affiliates| && forall k :: 0 <= k < |ids| ==> ids[k] < |db.deposits|
    ensures RowsExist(db.commissions, DraftOf(db, affiliate, ids))
  {
    if ids != [] {
      DraftRowsExist(db, affiliate, ids[..|ids| - 1]);
    }
  }

  // ----------------------------------------------------------------- what is confirmed

  lemma {:induction false} ListedIff(db: Db, affiliate: nat, ids: seq<nat>, i: nat)
    requires affiliate < |db.affiliates| && OneRowPerDeposit(db.commissions) && i < |db.commissions|
    requires forall k :: 0 <= k < |ids| ==> ids[k] < |db.deposits|
    ensures var c := db.commissions[i];
            Existing(i) in DraftOf(db, affiliate, ids) <==> c.status.Open? && c.affiliate == affiliate && c.deposit in ids
  {
    if ids != [] {
      var n := |ids| - 1;
      ListedIff(db, affiliate, ids[..n], i);
      FindUnique(db.commissions, i);
      assert ids == ids[..n] + [ids[n]];
    }
  }

  lemma ListedIsDue(db: Db, affiliate: nat, p: Period, i: nat)
    requires affiliate < |db.affiliates| && OneRowPerDeposit(db.commissions) && i < |db.commissions|
    ensures Existing(i) in Draft(db, affiliate, p) <==> IsDue(db, affiliate, p, db.commissions[i])
  {
    ListedIff(db, affiliate, EligibleDeposits(db, affiliate, p), i);
    VisitedIffPaid(db, affiliate, p, db.commissions[i].deposit);
  }

  lemma CreatedIsDue(db: Db, affiliate: nat, p: Period, i: nat)
    requires affiliate < |db.affiliates| && i < |PreviewRows(db, affiliate, p)|
    ensures IsDue(db, affiliate, p, PreviewRows(db, affiliate, p)[i])
  {
    NewRowsSound(db, affiliate, EligibleDeposits(db, affiliate, p), i);
    VisitedIffPaid(db, affiliate, p, PreviewRows(db, affiliate, p)[i].deposit);
  }

  /** What a confirmation reserves is what is due. */
  lemma CoveredIsDue(db: Db, affiliate: nat, p: Period, i: nat)
    requires affiliate < |db.affiliates| && OneRowPerDeposit(db.commissions)
    requires i < |PreviewPeriod(db, affiliate, p).commissions|
    ensures Covered(Draft(db, affiliate, p), |db.commissions|, i)
       <==> IsDue(db, affiliate, p, PreviewPeriod(db, affiliate, p).commissions[i])
  {
    if i < |db.commissions| {
      ListedIsDue(db, affiliate, p, i);
    } else {
      CreatedIsDue(db, affiliate, p, i - |db.commissions|);
    }
  }

  /** Someone is owed something exactly if the total is positive. */
  lemma PositiveIfDue(db: Db, affiliate: nat, p: Period)
    requires CommissionsOk(db) && affiliate < |db.affiliates|
    ensures var rows, total := PreviewPeriod(db, affiliate, p).commissions, RowFor(db, affiliate, p).total;
            && (total > 0 <==> exists i :: 0 <= i < |rows| && IsDue(db, affiliate, p, rows[i]))
            && (total > 0 ==> RowFor(db, affiliate, p).count > 0)
  {
    var rows, due := PreviewPeriod(db, affiliate, p).commissions, DueOf(db, affiliate, p, AmountOf);
    PreviewKeepsCommissions(db, affiliate, p);
    PreviewAddsUp(db, affiliate, p);
    assert forall i :: 0 <= i < |rows| ==> due(rows[i]) >= 0 by {
      forall i | 0 <= i < |rows|
        ensures due(rows[i]) >= 0
      {
        assert CommissionOk(PreviewPeriod(db, affiliate, p), rows[i]);
      }
    }
    if i :| 0 <= i < |rows| && IsDue(db, affiliate, p, rows[i]) {
      assert CommissionOk(PreviewPeriod(db, affiliate, p), rows[i]);
      SumAtLeast(rows, i, due);
      SumAtLeast(rows, i, DueOf(db, affiliate, p, One));
    } else {
      SumZero(rows, due);
    }
  }

  /**
   * A confirmation with no other call in between goes through exactly if the affiliate is active, has a key, and some
   * commission is due; then all that are due, those it creates included, are reserved under one withdrawal of their sum.
   */
  lemma ConfirmPaysTheDue(db: Db, affiliate: nat, p: Period)
    requires CommissionsOk(db)
    ensures var o := ConfirmPeriod(db, affiliate, p);
            && (o.Confirmed? ==> affiliate < |db.affiliates|)
            && (affiliate < |db.affiliates| ==>
                  var rows, w := PreviewPeriod(db, affiliate, p).commissions, |db.withdrawals|;
                  && (o.Confirmed? <==> db.affiliates[affiliate].active && db.affiliates[affiliate].hasPixKey
                                        && exists i :: 0 <= i < |rows| && IsDue(db, affiliate, p, rows[i]))
                  && (o.Confirmed? ==>
                        && o.withdrawal == w && o.amount == Sum(rows, DueOf(db, affiliate, p, AmountOf)) > 0
                        && o.db.withdrawals == db.withdrawals + [Withdrawal(AffiliateCommission(affiliate), o.amount)]
                        && |o.db.commissions| == |rows|
                        && forall i :: 0 <= i < |rows| ==>
                             o.db.commissions[i]
                               == if IsDue(db, affiliate, p, rows[i]) then rows[i].(status := Reserved, withdrawal := Some(w))
                                  else rows[i]))
  {
    if IsActive(db, affiliate) {
      PreviewAddsUp(db, affiliate, p);
      PositiveIfDue(db, affiliate, p);
      ConfirmPaysItsRow(db, affiliate, p);
      forall i | 0 <= i < |PreviewPeriod(db, affiliate, p).commissions|
        ensures Covered(Draft(db, affiliate, p), |db.commissions|, i)
           <==> IsDue(db, affiliate, p, PreviewPeriod(db, affiliate, p).commissions[i])
      {
        CoveredIsDue(db, affiliate, p, i);
      }
    }
  }
}
