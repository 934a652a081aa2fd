/**
 * The settlement and commission services on the rows they update, statement by statement. Each method is one
 * call without another in between, and is proved to leave what the model's transaction leaves.
 */
module SettlementService {
  import opened Numbers
  import B = Books
  import opened Books
  import Agreement
  import DepositInvariant
  import O = SettlementOutcomes

  class SettlementService {
    const plan: FeePlan
    var deposits: seq<Deposit>
    var balances: map<nat, int>
    var referrers: map<nat, nat>
    var affiliates: seq<Affiliate>
    var codes: map<nat, nat>
    var entries: seq<Entry>
    var commissions: seq<Commission>
    var withdrawals: seq<Withdrawal>
    var signupBonuses: seq<nat>

    function Rows(): Db
      reads this
    {
      Db(deposits, balances, referrers, affiliates, codes, entries, commissions, withdrawals, signupBonuses)
    }

    constructor (plan: FeePlan, balances: map<nat, int>, affiliates: seq<Affiliate>, codes: map<nat, nat>)
      ensures this.plan == plan && Rows() == Db([], balances, map[], affiliates, codes, [], [], [], [])
    {
      this.plan := plan;
      this.balances, this.affiliates, this.codes := balances, affiliates, codes;
      this.deposits, this.referrers, this.entries := [], map[], [];
      this.commissions, this.withdrawals, this.signupBonuses := [], [], [];
    }

    // ---------------------------------------------------------- deposits

    method CreateFromDeposit(id: nat)
      requires id < |deposits|
      modifies this`referrers, this`commissions
      ensures Rows() == B.CreateFromDeposit(old(Rows()), id)
      ensures |commissions| > |old(commissions)| ==>
                var row := commissions[|old(commissions)|];
                O.EarnerIs(old(Rows()), deposits[id], row.affiliate) && O.Earned(old(Rows()), row, row.affiliate, id)
    {
      var d := deposits[id];
      var found: Option<nat> := None;
      if d.user in referrers && referrers[d.user] < |affiliates| && affiliates[referrers[d.user]].active {
        found := Some(referrers[d.user]);
      }
      if found.None? && d.bonusCode.Some? && d.bonusCode.value in codes {
        var owner := codes[d.bonusCode.value];
        if owner < |affiliates| && affiliates[owner].active {
          found := Some(owner);
          if d.user !in referrers {
            referrers := referrers[d.user := owner];
          }
        }
      }
      if found.None? {
        return;
      }
      var base := CommissionBase(d);
      var amount := CommissionAmount(base, affiliates[found.value].percent);
      if amount <= 0 {
        return;
      }
      if Find(commissions, id).None? {
        O.NewRowIsEarned(old(Rows()), found.value, id);
        commissions := commissions + [Commission(found.value, id, base, amount, Open, None)];
      }
    }

    /** The credit, the signup branch, the deposit row and the ledger. */
    method CreditAndRecord(id: nat, gatewayNet: Option<int>, now: int)
      requires Settleable(Rows(), id)
      modifies this`balances, this`signupBonuses, this`deposits, this`entries
      ensures Rows() == DepositInvariant.Settled(plan, old(Rows()), id, gatewayNet, now)
    {
      var locked := deposits[id];
      var gross := locked.amount;
      var resolved := ResolveFee(plan, Max(0, gross), gatewayNet);
      var paidBefore := PaidBefore(deposits, locked.user, id);
      if gross > 0 {
        balances := balances[locked.user := balances[locked.user] + gross];
      }
      if !paidBefore && locked.user in referrers {
        signupBonuses := signupBonuses + [locked.user];
      }
      deposits := deposits[id := locked.(status := Paid, paidAt := now, fee := Some(resolved.fee), net := Some(resolved.net))];
      entries := entries + [Entry(DepositIn, gross, id)];
      if resolved.fee > 0 {
        entries := entries + [Entry(GatewayFeeOut, resolved.fee, id)];
      }
      assert entries == old(entries) + EntriesOf(id, gross, resolved.fee);
    }

    /** True exactly when this call is the one that credits the deposit. */
    method SettlePaid(id: nat, gatewayNet: Option<int>, now: int) returns (settled: bool)
      modifies this
      ensures Rows() == B.SettlePaid(plan, old(Rows()), id, gatewayNet, now)
      ensures settled == Settleable(old(Rows()), id)
      ensures settled && old(deposits)[id].amount > 0 ==> O.SettledAs(plan, old(Rows()), Rows(), id, gatewayNet, now)
    {
      if id >= |deposits| {
        return false;
      }
      var locked := deposits[id];
      if locked.status.Paid? {
        return false;
      }
      if !locked.status.Pending? && !locked.status.Expired? {
        return false;
      }
      if locked.user !in balances {
        return false;
      }
      if deposits[id].amount > 0 { O.CreditsAndRecords(plan, Rows(), id, gatewayNet, now); }
      CreditAndRecord(id, gatewayNet, now);
      CreateFromDeposit(id);
      return true;
    }

    // ------------------------------------------------------- preview and confirm

    /** The body of the preview's loop: the row to list, which is created if the deposit has none. */
    method VisitDeposit(affiliate: nat, deposit: nat) returns (listed: Option<nat>)
      requires affiliate < |affiliates| && deposit < |deposits|
      modifies this`commissions
      ensures Visited(old(Rows()), affiliate, deposit, commissions, listed)
      ensures |commissions| > |old(commissions)| ==>
                O.Earned(old(Rows()), commissions[|old(commissions)|], affiliate, deposit)
    {
      var existing := Find(commissions, deposit);
      if existing.Some? {
        if commissions[existing.value].status.Open? && commissions[existing.value].affiliate == affiliate {
          return existing;
        }
        return None;
      }
      var base := CommissionBase(deposits[deposit]);
      var amount := CommissionAmount(base, affiliates[affiliate].percent);
      if amount <= 0 {
        return None;
      }
      O.NewRowIsEarned(Rows(), affiliate, deposit);
      commissions := commissions + [Commission(affiliate, deposit, base, amount, Open, None)];
      return Some(|commissions| - 1);
    }

    /** The rows listed, in order, and their total. */
    method PreviewPeriod(affiliate: nat, p: Period) returns (items: seq<nat>, total: int)
      requires affiliate < |affiliates|
      modifies this`commissions
      ensures Rows() == B.PreviewPeriod(old(Rows()), affiliate, p)
      ensures |items| == |Draft(old(Rows()), affiliate, p)|
      ensures total == DraftTotal(old(commissions), Draft(old(Rows()), affiliate, p))
      ensures forall i: nat :: i in items <==> i < |commissions| && Covered(Draft(old(Rows()), affiliate, p), |old(commissions)|, i)
      ensures forall k :: 0 <= k < |items| ==> items[k] < |commissions| && commissions[items[k]].status.Open?
      ensures total == AmountsOf(commissions, items)
    {
      ghost var db := Rows();
      var ids := EligibleDeposits(Rows(), affiliate, p);
      Agreement.EligibleDepositsExact(db, affiliate, p);
      items, total := [], 0;
      var k := 0;
      while k < |ids|
        invariant k <= |ids| && Rows() == db.(commissions := commissions)
        invariant SeenSoFar(db, affiliate, ids[..k], commissions, items, total)
      {
        ghost var rows := commissions;
        var listed := VisitDeposit(affiliate, ids[k]);
        SeenAfterVisit(db, affiliate, ids, k, rows, items, total, commissions, listed);
        if listed.Some? {
          items := items + [listed.value];
          total := total + commissions[listed.value].amount;
        }
        k := k + 1;
      }
      assert ids[..k] == ids;
    }

    /** One line of the preview of all affiliates. */
    method PreviewAll(p: Period) returns (rows: seq<PreviewRow>)
      modifies this`commissions
      ensures B.PreviewAll(old(Rows()), p, |affiliates|) == Preview(Rows(), rows)
    {
      ghost var db := Rows();
      rows := [];
      var a := 0;
      while a < |affiliates|
        invariant a <= |affiliates| && Rows() == db.(commissions := commissions)
        invariant B.PreviewAll(db, p, a) == Preview(Rows(), rows)
      {
        if affiliates[a].active {
          var items, total := PreviewPeriod(a, p);
          rows := rows + [PreviewRow(a, total, |items|, |items| > 0 && total > 0 && affiliates[a].hasPixKey)];
        }
        a := a + 1;
      }
    }

    method ConfirmPeriod(affiliate: nat, p: Period) returns (paid: Option<int>)
      modifies this`commissions, this`withdrawals
      ensures paid.Some? <==> B.ConfirmPeriod(old(Rows()), affiliate, p).Confirmed?
      ensures paid.Some? ==> B.ConfirmPeriod(old(Rows()), affiliate, p) == Confirmed(Rows(), |old(withdrawals)|, paid.value)
      ensures paid.None? ==> Rows() == old(Rows())
    {
      if affiliate >= |affiliates| || !affiliates[affiliate].hasPixKey || !affiliates[affiliate].active {
        return None;
      }
      ghost var db := Rows();
      var saved := commissions;
      ghost var draft := Draft(db, affiliate, p);
      var items, total := PreviewPeriod(affiliate, p);
      Agreement.FreshDraft(db, affiliate, EligibleDeposits(db, affiliate, p));
      if |items| == 0 || total <= 0 {
        commissions := saved;
        return None;
      }
      ghost var created := commissions;
      paid := ReserveListed(affiliate, items);
      assert B.ConfirmPeriod(db, affiliate, p) == ConfirmDraft(db, affiliate, draft);
      assert ConfirmDraft(db, affiliate, draft).Confirmed? && ConfirmDraft(db, affiliate, draft).amount == total;
      assert commissions == ConfirmDraft(db, affiliate, draft).db.commissions;
      assert withdrawals == ConfirmDraft(db, affiliate, draft).db.withdrawals;
    }

    /**
     * confirmPeriod from the row locks on, on whatever other calls have made of the listed rows since: refused when one
     * of them is no longer open, otherwise they are all reserved under one new withdrawal of their total.
     */
    method ReserveListed(affiliate: nat, items: seq<nat>) returns (paid: Option<int>)
      requires forall k :: 0 <= k < |items| ==> items[k] < |commissions|
      modifies this`commissions, this`withdrawals
      ensures paid.None? <==> exists k :: 0 <= k < |items| && !old(commissions)[items[k]].status.Open?
      ensures paid.None? ==> Rows() == old(Rows())
      ensures paid.Some? ==>
                && paid.value == AmountsOf(old(commissions), items)
                && withdrawals == old(withdrawals) + [Withdrawal(AffiliateCommission(affiliate), paid.value)]
                && |commissions| == |old(commissions)|
                && forall j :: 0 <= j < |commissions| ==>
                     commissions[j] == if j in items then Reserve(old(commissions)[j], |old(withdrawals)|) else old(commissions)[j]
    {
      var total, k := 0, 0;
      while k < |items|
        invariant k <= |items| && total == AmountsOf(commissions, items[..k])
        invariant forall l :: 0 <= l < k ==> commissions[items[l]].status.Open?
      {
        if !commissions[items[k]].status.Open? {
          return None;
        }
        assert items[..k + 1][..k] == items[..k];
        total := total + commissions[items[k]].amount;
        k := k + 1;
      }
      assert items[..k] == items;
      var w := |withdrawals|;
      withdrawals := withdrawals + [Withdrawal(AffiliateCommission(affiliate), total)];
      var i := 0;
      while i < |commissions|
        invariant i <= |commissions| == |old(commissions)|
        invariant withdrawals == old(withdrawals) + [Withdrawal(AffiliateCommission(affiliate), total)]
        invariant forall j :: 0 <= j < i ==> commissions[j] == if j in items then Reserve(old(commissions)[j], w) else old(commissions)[j]
        invariant forall j :: i <= j < |commissions| ==> commissions[j] == old(commissions)[j]
      {
        if i in items {
          commissions := commissions[i := Reserve(commissions[i], w)];
        }
        i := i + 1;
      }
      return Some(total);
    }

    method ConfirmAll(p: Period) returns (created: seq<Payment>)
      modifies this`commissions, this`withdrawals
      ensures B.ConfirmAll(old(Rows()), p, |affiliates|) == Batch(Rows(), created)
    {
      ghost var db := Rows();
      created := [];
      var a := 0;
      while a < |affiliates|
        invariant a <= |affiliates| && Rows() == db.(commissions := commissions, withdrawals := withdrawals)
        invariant B.ConfirmAll(db, p, a) == Batch(Rows(), created)
      {
        if affiliates[a].active && affiliates[a].hasPixKey {
          var paid := ConfirmPeriod(a, p);
          if paid.Some? {
            created := created + [Payment(a, paid.value)];
          }
        }
        a := a + 1;
      }
    }

    /** update ... where withdrawal_id and status = reserved */
    method ReleaseCommissions(w: nat)
      modifies this`commissions
      ensures Rows() == Release(old(Rows()), w)
    {
      if w >= |withdrawals| || withdrawals[w].source.Player? {
        return;
      }
      var i := 0;
      while i < |commissions|
        invariant i <= |commissions| == |old(commissions)|
        invariant forall j :: 0 <= j < i ==> commissions[j] == Released(old(commissions)[j], w)
        invariant forall j :: i <= j < |commissions| ==> commissions[j] == old(commissions)[j]
      {
        if commissions[i].withdrawal == Some(w) && commissions[i].status.Reserved? {
          commissions := commissions[i := commissions[i].(status := Open, withdrawal := None)];
        }
        i := i + 1;
      }
    }

    method MarkCommissionsPaid(w: nat)
      modifies this`commissions
      ensures Rows() == MarkPaid(old(Rows()), w)
    {
      if w >= |withdrawals| || withdrawals[w].source.Player? {
        return;
      }
      var i := 0;
      while i < |commissions|
        invariant i <= |commissions| == |old(commissions)|
        invariant forall j :: 0 <= j < i ==> commissions[j] == MarkedPaid(old(commissions)[j], w)
        invariant forall j :: i <= j < |commissions| ==> commissions[j] == old(commissions)[j]
      {
        if commissions[i].withdrawal == Some(w) && commissions[i].status.Reserved? {
          commissions := commissions[i := commissions[i].(status := PaidOut)];
        }
        i := i + 1;
      }
    }
  }

  /** The amounts of the listed rows. */
  function AmountsOf(rows: seq<Commission>, items: seq<nat>): int
    requires forall k :: 0 <= k < |items| ==> items[k] < |rows|
  {
    if items == [] then 0 else AmountsOf(rows, items[..|items| - 1]) + rows[items[|items| - 1]].amount
  }

  lemma {:induction false} AmountsOfOlder(rows: seq<Commission>, row: Commission, items: seq<nat>)
    requires forall k :: 0 <= k < |items| ==> items[k] < |rows|
    ensures AmountsOf(rows + [row], items) == AmountsOf(rows, items)
  {
    if items != [] {
      AmountsOfOlder(rows, row, items[..|items| - 1]);
    }
  }

  /** What the preview loop has listed and created after the deposits `seen`. */
  ghost predicate SeenSoFar(db: Db, affiliate: nat, seen: seq<nat>, rows: seq<Commission>, items: seq<nat>, total: int)
    requires affiliate < |db.affiliates| && forall j :: 0 <= j < |seen| ==> seen[j] < |db.deposits|
  {
    var draft := DraftOf(db, affiliate, seen);
    && rows == db.commissions + Agreement.NewRows(db, affiliate, seen)
    && |items| == |draft| && total == DraftTotal(db.commissions, draft)
    && ListsExactly(items, rows, draft, |db.commissions|)
    && (forall j :: 0 <= j < |items| ==> items[j] < |rows| && rows[items[j]].status.Open?)
    && total == AmountsOf(rows, items)
  }

  /** The listed rows are the draft's existing rows and the rows created since. */
  ghost predicate ListsExactly(items: seq<nat>, rows: seq<Commission>, draft: seq<Item>, firstNew: nat)
  {
    forall i: nat :: i in items <==> i < |rows| && Covered(draft, firstNew, i)
  }

  /** The rows created so far belong to deposits already visited, so the look-up still sees the old table. */
  lemma NotYetCreated(db: Db, affiliate: nat, ids: seq<nat>, k: nat)
    requires affiliate < |db.affiliates| && forall j :: 0 <= j < |ids| ==> ids[j] < |db.deposits|
    requires forall i, j :: 0 <= i < j < |ids| ==> ids[i] != ids[j]
    requires k < |ids|
    ensures Find(db.commissions + Agreement.NewRows(db, affiliate, ids[..k]), ids[k]) == Find(db.commissions, ids[k])
  {
    var rows := Agreement.NewRows(db, affiliate, ids[..k]);
    forall i | 0 <= i < |rows|
      ensures rows[i].deposit != ids[k]
    {
      Agreement.NewRowsSound(db, affiliate, ids[..k], i);
    }
    Agreement.FindAfterAppend(db.commissions, rows, ids[k]);
  }

  /** What one more deposit adds to the draft, its total and the rows to create. */
  lemma LoopStep(db: Db, affiliate: nat, ids: seq<nat>, k: nat)
    requires affiliate < |db.affiliates| && forall j :: 0 <= j < |ids| ==> ids[j] < |db.deposits|
    requires k < |ids|
    ensures var item := ItemOf(db, affiliate, ids[k]);
            && DraftOf(db, affiliate, ids[..k + 1])
                 == DraftOf(db, affiliate, ids[..k]) + (if item.Some? then [item.value] else [])
            && DraftTotal(db.commissions, DraftOf(db, affiliate, ids[..k + 1]))
                 == DraftTotal(db.commissions, DraftOf(db, affiliate, ids[..k]))
                    + (if item.Some? then ItemAmount(db.commissions, item.value) else 0)
            && Agreement.NewRows(db, affiliate, ids[..k + 1])
                 == Agreement.NewRows(db, affiliate, ids[..k])
                    + (if item.Some? && item.value.Missing? then [item.value.commission] else [])
  {
    assert ids[..k + 1][..k] == ids[..k];
  }

  /** One more deposit: nothing, an existing row, or a row to create. */
  lemma SeenOneMore(db: Db, affiliate: nat, ids: seq<nat>, k: nat, rows: seq<Commission>, items: seq<nat>, total: int)
    requires affiliate < |db.affiliates| && forall j :: 0 <= j < |ids| ==> ids[j] < |db.deposits|
    requires k < |ids| && SeenSoFar(db, affiliate, ids[..k], rows, items, total)
    ensures match ItemOf(db, affiliate, ids[k])
            case None => SeenSoFar(db, affiliate, ids[..k + 1], rows, items, total)
            case Some(Existing(c)) =>
              SeenSoFar(db, affiliate, ids[..k + 1], rows, items + [c], total + db.commissions[c].amount)
            case Some(Missing(row)) =>
              SeenSoFar(db, affiliate, ids[..k + 1], rows + [row], items + [|rows|], total + row.amount)
  {
    var n, draft, item := |db.commissions|, DraftOf(db, affiliate, ids[..k]), ItemOf(db, affiliate, ids[k]);
    LoopStep(db, affiliate, ids, k);
    match item
    case None => assert DraftOf(db, affiliate, ids[..k + 1]) == draft;
    case Some(Existing(c)) => ListOneMore(items, c, rows, rows, draft, item.value, n);
    case Some(Missing(row)) =>
      ListOneMore(items, |rows|, rows, rows + [row], draft, item.value, n);
      AmountsOfOlder(rows, row, items);
  }

  /** What a visit of a deposit does to the rows, and which row it lists. */
  ghost predicate Visited(db: Db, affiliate: nat, deposit: nat, rows: seq<Commission>, listed: Option<nat>)
    requires affiliate < |db.affiliates| && deposit < |db.deposits|
  {
    match Find(db.commissions, deposit)
    case Some(c) =>
      && rows == db.commissions
      && listed == if rows[c].status.Open? && rows[c].affiliate == affiliate then Some(c) else None
    case None =>
      var row := NewCommission(db, affiliate, deposit);
      if row.amount > 0 then rows == db.commissions + [row] && listed == Some(|db.commissions|)
      else rows == db.commissions && listed == None
  }

  lemma SeenAfterVisit(db: Db, affiliate: nat, ids: seq<nat>, k: nat, rows: seq<Commission>, items: seq<nat>, total: int,
                       rows': seq<Commission>, listed: Option<nat>)
    requires affiliate < |db.affiliates| && forall j :: 0 <= j < |ids| ==> ids[j] < |db.deposits|
    requires forall i, j :: 0 <= i < j < |ids| ==> ids[i] != ids[j]
    requires k < |ids| && SeenSoFar(db, affiliate, ids[..k], rows, items, total)
    requires Visited(db.(commissions := rows), affiliate, ids[k], rows', listed)
    ensures if listed.None? then SeenSoFar(db, affiliate, ids[..k + 1], rows', items, total)
            else listed.value < |rows'|
                 && SeenSoFar(db, affiliate, ids[..k + 1], rows', items + [listed.value], total + rows'[listed.value].amount)
  {
    NotYetCreated(db, affiliate, ids, k);
    SeenOneMore(db, affiliate, ids, k, rows, items, total);
    assert NewCommission(db.(commissions := rows), affiliate, ids[k]) == NewCommission(db, affiliate, ids[k]);
  }

  lemma ListOneMore(items: seq<nat>, x: nat, rows: seq<Commission>, rows': seq<Commission>, draft: seq<Item>, item: Item, n: nat)
    requires ListsExactly(items, rows, draft, n) && n <= |rows|
    requires if item.Existing? then item.row == x < n && rows' == rows else x == |rows| && |rows'| == |rows| + 1
    ensures ListsExactly(items + [x], rows', draft + [item], n)
  {
    forall i: nat
      ensures i in items + [x] <==> i < |rows'| && Covered(draft + [item], n, i)
    {
      assert (draft + [item])[|draft|] == item;
      if k :| 0 <= k < |draft| && draft[k] == Existing(i) {
        assert (draft + [item])[k] == Existing(i);
      }
    }
  }
}
