/**
 * Every commission is paid at most once: the links between commissions and withdrawals, under confirmation,
 * release and payment in any order.
 */
module CommissionInvariant {
  import opened Numbers
  import opened Sums
  import opened Books
  import opened Agreement

  ghost function LinkedAmount(w: nat): Commission -> int
  {
    (c: Commission) => if c.withdrawal == Some(w) then c.amount else 0
  }

  ghost predicate NoneLinked(commissions: seq<Commission>, w: nat)
  {
    forall i :: 0 <= i < |commissions| ==> commissions[i].withdrawal != Some(w)
  }

  ghost predicate CommissionOk(db: Db, c: Commission)
  {
    && c.amount > 0 && c.deposit < |db.deposits| && WasPaid(db.deposits[c.deposit])
    && (c.withdrawal.None? <==> c.status.Open?)
    && (c.withdrawal.Some? ==> c.withdrawal.value < |db.withdrawals|
                               && db.withdrawals[c.withdrawal.value].source == AffiliateCommission(c.affiliate))
  }

  /** The commissions of one withdrawal move together. */
  ghost predicate OneFate(commissions: seq<Commission>)
  {
    forall i, j :: 0 <= i < |commissions| && 0 <= j < |commissions| && commissions[i].withdrawal.Some?
                   && commissions[i].withdrawal == commissions[j].withdrawal
                   ==> commissions[i].status == commissions[j].status
  }

  /** A withdrawal is backed by exactly its amount in commissions, or by none once it is released. */
  ghost predicate Backed(db: Db, w: nat)
    requires w < |db.withdrawals|
  {
    db.withdrawals[w].source.AffiliateCommission? ==>
      && db.withdrawals[w].amount > 0
      && (Sum(db.commissions, LinkedAmount(w)) == db.withdrawals[w].amount || NoneLinked(db.commissions, w))
  }

  ghost predicate CommissionsOk(db: Db)
  {
    && OneRowPerDeposit(db.commissions)
    && (forall i :: 0 <= i < |db.commissions| ==> CommissionOk(db, db.commissions[i]))
    && OneFate(db.commissions)
    && (forall w :: 0 <= w < |db.withdrawals| ==> Backed(db, w))
  }

  // --------------------------------------------------------------- fates

  /** Some commission of the withdrawal has been paid out; by OneFate, all of them. */
  ghost predicate IsPaidOut(db: Db, w: nat)
  {
    exists i :: 0 <= i < |db.commissions| && db.commissions[i].withdrawal == Some(w) && db.commissions[i].status.PaidOut?
  }

  ghost predicate IsReleased(db: Db, w: nat)
  {
    w < |db.withdrawals| && NoneLinked(db.commissions, w)
  }

  /** Paid rows are frozen, withdrawals are never changed, and a released one is never linked again. */
  ghost predicate CommissionsGrow(db: Db, db': Db)
  {
    && |db.commissions| <= |db'.commissions| && db.withdrawals <= db'.withdrawals
    && (forall i :: 0 <= i < |db.commissions| ==>
          && (db.commissions[i].status.PaidOut? ==> db'.commissions[i] == db.commissions[i])
          && db'.commissions[i].(status := db.commissions[i].status, withdrawal := db.commissions[i].withdrawal) == db.commissions[i])
    && (forall w: nat :: IsReleased(db, w) ==> IsReleased(db', w))
  }

  lemma CommissionsGrowTransitive(a: Db, b: Db, c: Db)
    requires CommissionsGrow(a, b) && CommissionsGrow(b, c)
    ensures CommissionsGrow(a, c)
  {
  }

  // --------------------------------------------------- new, unlinked rows

  ghost predicate NewRowOk(db: Db, row: Commission)
  {
    row.status.Open? && row.withdrawal.None? && CommissionOk(db, row)
  }

  lemma UnlinkedRowsDoNotCount(commissions: seq<Commission>, rows: seq<Commission>, w: nat)
    requires forall i :: 0 <= i < |rows| ==> rows[i].withdrawal.None?
    ensures Sum(commissions + rows, LinkedAmount(w)) == Sum(commissions, LinkedAmount(w))
    ensures NoneLinked(commissions, w) ==> NoneLinked(commissions + rows, w)
  {
    SumAppend(commissions, rows, LinkedAmount(w));
    SumZero(rows, LinkedAmount(w));
  }

  /** Rows created open and unlinked, by a preview or by a settled deposit. */
  lemma NewRowsKeep(db: Db, rows: seq<Commission>)
    requires CommissionsOk(db) && OneRowPerDeposit(db.commissions + rows)
    requires forall i :: 0 <= i < |rows| ==> NewRowOk(db, rows[i])
    ensures var db' := db.(commissions := db.commissions + rows); CommissionsOk(db') && CommissionsGrow(db, db')
  {
    var db' := db.(commissions := db.commissions + rows);
    forall w | 0 <= w < |db'.withdrawals|
      ensures Backed(db', w)
    {
      assert Backed(db, w);
      UnlinkedRowsDoNotCount(db.commissions, rows, w);
    }
  }

  lemma PreviewKeepsCommissions(db: Db, affiliate: nat, p: Period)
    requires CommissionsOk(db) && affiliate < |db.affiliates|
    ensures CommissionsOk(PreviewPeriod(db, affiliate, p)) && CommissionsGrow(db, PreviewPeriod(db, affiliate, p))
  {
    var ids, rows := EligibleDeposits(db, affiliate, p), PreviewRows(db, affiliate, p);
    PreviewKeepsUnique(db, affiliate, p);
    EligibleDepositsExact(db, affiliate, p);
    forall i | 0 <= i < |rows|
      ensures NewRowOk(db, rows[i])
    {
      NewRowsSound(db, affiliate, ids, i);
    }
    NewRowsKeep(db, rows);
  }

  lemma AddCommissionKeeps(db: Db, affiliate: nat, deposit: nat)
    requires CommissionsOk(db) && affiliate < |db.affiliates|
    requires deposit < |db.deposits| && db.deposits[deposit].status.Paid?
    ensures CommissionsOk(AddCommission(db, affiliate, deposit)) && CommissionsGrow(db, AddCommission(db, affiliate, deposit))
  {
    var row := NewCommission(db, affiliate, deposit);
    if row.amount > 0 && Find(db.commissions, deposit).None? {
      NewRowsKeep(db, [row]);
    }
  }

  // -------------------------------------------------------- release and payment

  lemma ReleaseKeepsBacking(db: Db, w: nat, v: nat)
    requires OneFate(db.commissions) && v < |db.withdrawals| && Backed(db, v)
    requires forall i :: 0 <= i < |db.commissions| && db.commissions[i].withdrawal.Some? ==> !db.commissions[i].status.Open?
    ensures Backed(Release(db, w), v)
  {
    var db' := Release(db, w);
    if v != w || NoneLinked(db.commissions, w) {
      SumSame(db.commissions, LinkedAmount(v), db'.commissions, LinkedAmount(v));
    } else if !NoneLinked(db'.commissions, w) {
      // some commission of w is paid out, so all are, and the release touched none of them
      var i :| 0 <= i < |db'.commissions| && db'.commissions[i].withdrawal == Some(w);
      assert db'.commissions[i] == db.commissions[i];
      SumSame(db.commissions, LinkedAmount(v), db'.commissions, LinkedAmount(v));
    }
  }

  lemma ReleaseKeeps(db: Db, w: nat)
    requires CommissionsOk(db)
    ensures CommissionsOk(Release(db, w)) && CommissionsGrow(db, Release(db, w))
  {
    var db' := Release(db, w);
    if w < |db.withdrawals| && db.withdrawals[w].source.AffiliateCommission? {
      forall v | 0 <= v < |db'.withdrawals|
        ensures Backed(db', v)
      {
        ReleaseKeepsBacking(db, w, v);
      }
      forall i | 0 <= i < |db'.commissions|
        ensures CommissionOk(db', db'.commissions[i]) && db'.commissions[i].deposit == db.commissions[i].deposit
      {
        assert CommissionOk(db, db.commissions[i]);
      }
    }
  }

  lemma MarkPaidKeepsBacking(db: Db, w: nat, v: nat)
    requires v < |db.withdrawals| && Backed(db, v)
    ensures Backed(MarkPaid(db, w), v)
  {
    SumSame(db.commissions, LinkedAmount(v), MarkPaid(db, w).commissions, LinkedAmount(v));
  }

  lemma MarkPaidKeepsFate(commissions: seq<Commission>, commissions': seq<Commission>, w: nat)
    requires OneFate(commissions) && |commissions'| == |commissions|
    requires forall i :: 0 <= i < |commissions| ==> commissions'[i] == MarkedPaid(commissions[i], w)
    ensures OneFate(commissions')
  {
  }

  lemma MarkPaidKeeps(db: Db, w: nat)
    requires CommissionsOk(db)
    ensures CommissionsOk(MarkPaid(db, w)) && CommissionsGrow(db, MarkPaid(db, w))
  {
    var db' := MarkPaid(db, w);
    if w < |db.withdrawals| && db.withdrawals[w].source.AffiliateCommission? {
      forall v | 0 <= v < |db'.withdrawals|
        ensures Backed(db', v)
      {
        MarkPaidKeepsBacking(db, w, v);
      }
      MarkPaidKeepsFate(db.commissions, db'.commissions, w);
    }
  }

  /** The first of the two decides: after a release, a payment marks nothing, and after a payment nothing is released. */
  lemma FirstComeDecides(db: Db, w: nat)
    ensures MarkPaid(Release(db, w), w) == Release(db, w)
    ensures Release(MarkPaid(db, w), w) == MarkPaid(db, w)
  {
  }

  // ------------------------------------------------------------- confirmation

  /** A draft made earlier, possibly outdated by now. */
  ghost predicate DraftOk(db: Db, affiliate: nat, draft: seq<Item>)
  {
    && (forall k :: 0 <= k < |draft| ==> ItemOk(db, affiliate, draft[k]))
    && (forall k, l :: 0 <= k < l < |draft| ==> !SameItem(draft[k], draft[l]))
  }

  ghost predicate ItemOk(db: Db, affiliate: nat, item: Item)
  {
    match item
    case Existing(c) => c < |db.commissions| && db.commissions[c].affiliate == affiliate
    case Missing(row) => NewRowOk(db, row) && row.affiliate == affiliate
  }

  ghost predicate SameItem(a: Item, b: Item)
  {
    match (a, b)
    case (Existing(c), Existing(d)) => c == d
    case (Missing(c), Missing(d)) => c.deposit == d.deposit
    case _ => false
  }

  lemma {:induction false} DraftIsOk(db: Db, affiliate: nat, ids: seq<nat>)
    requires CommissionsOk(db) && affiliate < |db.affiliates|
    requires forall k :: 0 <= k < |ids| ==> ids[k] < |db.deposits| && db.deposits[ids[k]].status.Paid?
    requires forall k, l :: 0 <= k < l < |ids| ==> ids[k] != ids[l]
    ensures DraftOk(db, affiliate, DraftOf(db, affiliate, ids))
    ensures forall k :: 0 <= k < |DraftOf(db, affiliate, ids)| ==> ItemDeposit(db, DraftOf(db, affiliate, ids)[k]) in ids
  {
    if ids != [] {
      var n := |ids| - 1;
      DraftIsOk(db, affiliate, ids[..n]);
      var before := DraftOf(db, affiliate, ids[..n]);
      match ItemOf(db, affiliate, ids[n])
      case None =>
      case Some(item) =>
        forall k | 0 <= k < |before|
          ensures !SameItem(before[k], item) && ItemDeposit(db, before[k]) in ids
        {
          assert ItemDeposit(db, before[k]) in ids[..n];
        }
    }
  }

  ghost function ItemDeposit(db: Db, item: Item): nat
  {
    match item
    case Existing(c) => if c < |db.commissions| then db.commissions[c].deposit else 0
    case Missing(row) => row.deposit
  }

  lemma FreshDraftIsOk(db: Db, affiliate: nat, p: Period)
    requires CommissionsOk(db) && affiliate < |db.affiliates|
    ensures DraftOk(db, affiliate, Draft(db, affiliate, p))
  {
    var ids := EligibleDeposits(db, affiliate, p);
    EligibleDepositsExact(db, affiliate, p);
    forall k | 0 <= k < |ids|
      ensures db.deposits[ids[k]].status.Paid?
    {
      assert ids[k] in ids;
    }
    DraftIsOk(db, affiliate, ids);
  }

  /** The existing rows, with those of the draft reserved for w. */
  ghost function ReservedRows(commissions: seq<Commission>, draft: seq<Item>, w: nat): (r: seq<Commission>)
    ensures |r| == |commissions|
  {
    seq(|commissions|, i requires 0 <= i < |commissions| =>
      if Covered(draft, |commissions|, i) then Reserve(commissions[i], w) else commissions[i])
  }

  ghost function AllReserved(rows: seq<Commission>, w: nat): (r: seq<Commission>)
    ensures |r| == |rows|
  {
    seq(|rows|, i requires 0 <= i < |rows| => Reserve(rows[i], w))
  }

  /** The amounts reserved for a fresh withdrawal add up to the draft's total. */
  lemma {:induction false} ReservedSum(db: Db, affiliate: nat, draft: seq<Item>, w: nat)
    requires DraftOk(db, affiliate, draft) && NoneLinked(db.commissions, w)
    ensures Sum(ReservedRows(db.commissions, draft, w), LinkedAmount(w))
          + Sum(AllReserved(MissingRows(draft), w), LinkedAmount(w)) == DraftTotal(db.commissions, draft)
  {
    var rows := db.commissions;
    if draft == [] {
      SumZero(ReservedRows(rows, draft, w), LinkedAmount(w));
    } else {
      var n := |draft| - 1;
      var before, item := draft[..n], draft[n];
      assert DraftOk(db, affiliate, before);
      ReservedSum(db, affiliate, before, w);
      match item
      case Existing(c) =>
        assert MissingRows(draft) == MissingRows(before);
        ReserveOneMore(db, affiliate, draft, w);
      case Missing(row) =>
        SumSnoc(AllReserved(MissingRows(before), w), Reserve(row, w), LinkedAmount(w));
        assert AllReserved(MissingRows(draft), w) == AllReserved(MissingRows(before), w) + [Reserve(row, w)];
        MissingReservesNothing(rows, draft, w);
    }
  }

  lemma MissingReservesNothing(rows: seq<Commission>, draft: seq<Item>, w: nat)
    requires draft != [] && draft[|draft| - 1].Missing?
    ensures ReservedRows(rows, draft, w) == ReservedRows(rows, draft[..|draft| - 1], w)
  {
    assert forall i :: 0 <= i < |rows| ==> (Covered(draft, |rows|, i) <==> Covered(draft[..|draft| - 1], |rows|, i));
  }

  lemma ReserveOneMore(db: Db, affiliate: nat, draft: seq<Item>, w: nat)
    requires DraftOk(db, affiliate, draft) && NoneLinked(db.commissions, w)
    requires draft != [] && draft[|draft| - 1].Existing?
    ensures var n := |draft| - 1;
            Sum(ReservedRows(db.commissions, draft, w), LinkedAmount(w))
              == Sum(ReservedRows(db.commissions, draft[..n], w), LinkedAmount(w)) + db.commissions[draft[n].row].amount
  {
    var rows, n := db.commissions, |draft| - 1;
    var c := draft[n].row;
    assert ItemOk(db, affiliate, draft[n]);
    forall i | 0 <= i < |rows|
      ensures Covered(draft, |rows|, i) <==> Covered(draft[..n], |rows|, i) || i == c
    {
    }
    if k :| 0 <= k < n && draft[..n][k] == Existing(c) {
      assert SameItem(draft[k], draft[n]);
    }
    assert !Covered(draft[..n], |rows|, c);
    assert ReservedRows(rows, draft, w) == ReservedRows(rows, draft[..n], w)[c := Reserve(rows[c], w)];
    SumUpdate(ReservedRows(rows, draft[..n], w), c, Reserve(rows[c], w), LinkedAmount(w));
  }

  lemma {:induction false} MissingRowsOk(db: Db, affiliate: nat, draft: seq<Item>, i: nat)
    requires DraftOk(db, affiliate, draft) && i < |MissingRows(draft)|
    ensures exists k :: 0 <= k < |draft| && draft[k] == Missing(MissingRows(draft)[i])
  {
    var n := |draft| - 1;
    if i < |MissingRows(draft[..n])| {
      MissingRowsOk(db, affiliate, draft[..n], i);
      var k :| 0 <= k < n && draft[..n][k] == Missing(MissingRows(draft[..n])[i]);
      assert draft[k] == Missing(MissingRows(draft)[i]);
    } else {
      assert draft[n] == Missing(MissingRows(draft)[i]);
    }
  }

  lemma {:induction false} MissingRowsOnce(db: Db, affiliate: nat, draft: seq<Item>)
    requires DraftOk(db, affiliate, draft)
    ensures OneRowPerDeposit(MissingRows(draft))
  {
    if draft != [] {
      var n := |draft| - 1;
      var before := MissingRows(draft[..n]);
      MissingRowsOnce(db, affiliate, draft[..n]);
      if draft[n].Missing? {
        forall i | 0 <= i < |before|
          ensures before[i].deposit != draft[n].commission.deposit
        {
          MissingRowsOk(db, affiliate, draft[..n], i);
          var k :| 0 <= k < n && draft[..n][k] == Missing(before[i]);
          assert !SameItem(draft[k], draft[n]);
        }
      }
    }
  }

  /** The rows after a confirmation, in two parts. */
  lemma ConfirmedRows(db: Db, affiliate: nat, draft: seq<Item>)
    requires ConfirmDraft(db, affiliate, draft).Confirmed?
    ensures ConfirmDraft(db, affiliate, draft).db.commissions
         == ReservedRows(db.commissions, draft, |db.withdrawals|) + AllReserved(MissingRows(draft), |db.withdrawals|)
  {
  }

  lemma ConfirmKeepsUnique(db: Db, affiliate: nat, draft: seq<Item>)
    requires CommissionsOk(db) && DraftOk(db, affiliate, draft) && ConfirmDraft(db, affiliate, draft).Confirmed?
    ensures OneRowPerDeposit(ConfirmDraft(db, affiliate, draft).db.commissions)
  {
    var rows := MissingRows(draft);
    MissingRowsOnce(db, affiliate, draft);
    forall i, j | 0 <= i < |db.commissions| && 0 <= j < |rows|
      ensures db.commissions[i].deposit != rows[j].deposit
    {
      MissingRowsOk(db, affiliate, draft, j);
      var k :| 0 <= k < |draft| && draft[k] == Missing(rows[j]);
      assert Find(db.commissions, rows[j].deposit).None?;
    }
    ConfirmedRows(db, affiliate, draft);
  }

  /** A new withdrawal is worth the rows linked to it. */
  lemma NewWithdrawalIsBacked(db: Db, affiliate: nat, draft: seq<Item>)
    requires CommissionsOk(db) && DraftOk(db, affiliate, draft) && ConfirmDraft(db, affiliate, draft).Confirmed?
    ensures var db', w := ConfirmDraft(db, affiliate, draft).db, |db.withdrawals|;
            && Sum(db'.commissions, LinkedAmount(w)) == db'.withdrawals[w].amount > 0
            && !NoneLinked(db'.commissions, w)
  {
    var db', w := ConfirmDraft(db, affiliate, draft).db, |db.withdrawals|;
    ConfirmedRows(db, affiliate, draft);
    SumAppend(ReservedRows(db.commissions, draft, w), AllReserved(MissingRows(draft), w), LinkedAmount(w));
    ReservedSum(db, affiliate, draft, w) by {
      forall i | 0 <= i < |db.commissions|
        ensures db.commissions[i].withdrawal != Some(w)
      {
        assert CommissionOk(db, db.commissions[i]);
      }
    }
    if NoneLinked(db'.commissions, w) {
      SumZero(db'.commissions, LinkedAmount(w));
    }
  }

  lemma ConfirmKeepsBacking(db: Db, affiliate: nat, draft: seq<Item>, v: nat)
    requires CommissionsOk(db) && DraftOk(db, affiliate, draft) && ConfirmDraft(db, affiliate, draft).Confirmed?
    requires v <= |db.withdrawals|
    ensures Backed(ConfirmDraft(db, affiliate, draft).db, v)
  {
    var db', w := ConfirmDraft(db, affiliate, draft).db, |db.withdrawals|;
    var kept, created := ReservedRows(db.commissions, draft, w), AllReserved(MissingRows(draft), w);
    ConfirmedRows(db, affiliate, draft);
    SumAppend(kept, created, LinkedAmount(v));
    if v == w {
      NewWithdrawalIsBacked(db, affiliate, draft);
    } else {
      assert Backed(db, v);
      forall i | 0 <= i < |kept|
        ensures (kept[i].withdrawal == Some(v)) <==> (db.commissions[i].withdrawal == Some(v))
        ensures kept[i].amount == db.commissions[i].amount
      {
        if Covered(draft, |db.commissions|, i) {
          assert CommissionOk(db, db.commissions[i]);
        }
      }
      SumSame(db.commissions, LinkedAmount(v), kept, LinkedAmount(v));
      SumZero(created, LinkedAmount(v));
    }
  }

  /** A row after a confirmation: reserved for the new withdrawal if it was in the draft, else as it was. */
  lemma ConfirmedRow(db: Db, affiliate: nat, draft: seq<Item>, i: nat)
    requires CommissionsOk(db) && DraftOk(db, affiliate, draft) && ConfirmDraft(db, affiliate, draft).Confirmed?
    requires i < |ConfirmDraft(db, affiliate, draft).db.commissions|
    ensures var db', n, w := ConfirmDraft(db, affiliate, draft).db, |db.commissions|, |db.withdrawals|;
            && CommissionOk(db', db'.commissions[i])
            && (if i >= n || Covered(draft, n, i)
                then db'.commissions[i].withdrawal == Some(w) && db'.commissions[i].status.Reserved?
                     && (i < n ==> db.commissions[i].status.Open? && db'.commissions[i] == Reserve(db.commissions[i], w))
                else db'.commissions[i] == db.commissions[i] && db.commissions[i].withdrawal != Some(w))
  {
    var n, rows := |db.commissions|, MissingRows(draft);
    ConfirmedRows(db, affiliate, draft);
    if i < n {
      assert CommissionOk(db, db.commissions[i]);
    } else {
      MissingRowsOk(db, affiliate, draft, i - n);
      var k :| 0 <= k < |draft| && draft[k] == Missing(rows[i - n]);
      assert ItemOk(db, affiliate, draft[k]);
    }
  }

  /** A confirmation keeps the links, however long ago its draft was made: an outdated one is refused. */
  lemma ConfirmKeeps(db: Db, affiliate: nat, draft: seq<Item>)
    requires CommissionsOk(db) && DraftOk(db, affiliate, draft) && ConfirmDraft(db, affiliate, draft).Confirmed?
    ensures CommissionsOk(ConfirmDraft(db, affiliate, draft).db) && CommissionsGrow(db, ConfirmDraft(db, affiliate, draft).db)
  {
    var db' := ConfirmDraft(db, affiliate, draft).db;
    ConfirmKeepsUnique(db, affiliate, draft);
    forall v | 0 <= v < |db'.withdrawals|
      ensures Backed(db', v)
    {
      ConfirmKeepsBacking(db, affiliate, draft, v);
    }
    forall i | 0 <= i < |db'.commissions|
      ensures CommissionOk(db', db'.commissions[i])
    {
      ConfirmedRow(db, affiliate, draft, i);
    }
  }

  // ---------------------------------------------------------------- conservation

  ghost const PaidAmount: Commission -> int := (c: Commission) => if c.status.PaidOut? then c.amount else 0

  /** The paid commissions linked to withdrawals below n. */
  ghost function PaidBelow(n: nat): Commission -> int
  {
    (c: Commission) => if c.status.PaidOut? && c.withdrawal.Some? && c.withdrawal.value < n then c.amount else 0
  }

  /** The amounts of the withdrawals below n whose commissions have been paid out. */
  ghost function PaidWithdrawals(db: Db, n: nat): int
    requires n <= |db.withdrawals|
  {
    if n == 0 then 0
    else PaidWithdrawals(db, n - 1) + if IsPaidOut(db, n - 1) then db.withdrawals[n - 1].amount else 0
  }

  lemma {:induction false} PaidWithdrawalsSum(db: Db, n: nat)
    requires CommissionsOk(db) && n <= |db.withdrawals|
    ensures PaidWithdrawals(db, n) == Sum(db.commissions, PaidBelow(n))
  {
    if n == 0 {
      SumZero(db.commissions, PaidBelow(0));
    } else {
      var w := n - 1;
      var ofW := (c: Commission) => if c.status.PaidOut? && c.withdrawal == Some(w) then c.amount else 0;
      PaidWithdrawalsSum(db, w);
      SumOfSums(db.commissions, PaidBelow(w), ofW, PaidBelow(n));
      if IsPaidOut(db, w) {
        var i :| 0 <= i < |db.commissions| && db.commissions[i].withdrawal == Some(w) && db.commissions[i].status.PaidOut?;
        assert CommissionOk(db, db.commissions[i]) && Backed(db, w);
        SumSame(db.commissions, ofW, db.commissions, LinkedAmount(w));
      } else {
        SumZero(db.commissions, ofW);
      }
    }
  }

  /** The withdrawals whose commissions are marked paid are worth exactly the commissions marked paid. */
  lemma PayoutsMatchCommissions(db: Db)
    requires CommissionsOk(db)
    ensures PaidWithdrawals(db, |db.withdrawals|) == Sum(db.commissions, PaidAmount)
  {
    PaidWithdrawalsSum(db, |db.withdrawals|);
    forall i | 0 <= i < |db.commissions|
      ensures PaidAmount(db.commissions[i]) == PaidBelow(|db.withdrawals|)(db.commissions[i])
    {
      assert CommissionOk(db, db.commissions[i]);
    }
    SumSame(db.commissions, PaidAmount, db.commissions, PaidBelow(|db.withdrawals|));
  }
}
