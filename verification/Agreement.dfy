/** previewAll and confirmAll agree: what the preview promises is what the confirmation pays. */
module Agreement {
  import opened Numbers
  import opened Books

  // ------------------------------------------------------------ order by paid_at

  ghost predicate InRange(deposits: seq<Deposit>, ids: seq<nat>)
  {
    forall k :: 0 <= k < |ids| ==> ids[k] < |deposits|
  }

  ghost predicate Distinct(ids: seq<nat>)
  {
    forall i, j :: 0 <= i < j < |ids| ==> ids[i] != ids[j]
  }

  lemma {:induction false} InsertMembers(deposits: seq<Deposit>, ids: seq<nat>, id: nat, x: nat)
    requires id < |deposits| && InRange(deposits, ids)
    ensures x in InsertByPaidAt(deposits, ids, id) <==> x in ids || x == id
  {
    var n := |ids| - 1;
    if ids != [] && deposits[ids[n]].paidAt > deposits[id].paidAt {
      InsertMembers(deposits, ids[..n], id, x);
      assert x in ids <==> x in ids[..n] || x == ids[n];
    }
  }

  lemma {:induction false} InsertKeepsDistinct(deposits: seq<Deposit>, ids: seq<nat>, id: nat)
    requires id < |deposits| && InRange(deposits, ids) && Distinct(ids) && id !in ids
    ensures Distinct(InsertByPaidAt(deposits, ids, id))
  {
    var n := |ids| - 1;
    if ids != [] && deposits[ids[n]].paidAt > deposits[id].paidAt {
      InsertKeepsDistinct(deposits, ids[..n], id);
      InsertMembers(deposits, ids[..n], id, ids[n]);
    }
  }

  lemma {:induction false} EligibleMembers(db: Db, affiliate: nat, p: Period, n: nat, x: nat)
    requires n <= |db.deposits|
    ensures x in EligibleBelow(db, affiliate, p, n) <==> x < n && Eligible(db, affiliate, p, x)
  {
    if n > 0 {
      EligibleMembers(db, affiliate, p, n - 1, x);
      InsertMembers(db.deposits, EligibleBelow(db, affiliate, p, n - 1), n - 1, x);
    }
  }

  lemma DistinctNext(db: Db, affiliate: nat, p: Period, n: nat)
    requires n < |db.deposits| && Distinct(EligibleBelow(db, affiliate, p, n))
    ensures Eligible(db, affiliate, p, n) ==> Distinct(InsertByPaidAt(db.deposits, EligibleBelow(db, affiliate, p, n), n))
  {
    EligibleMembers(db, affiliate, p, n, n);
    InsertKeepsDistinct(db.deposits, EligibleBelow(db, affiliate, p, n), n);
  }

  lemma {:induction false} EligibleDistinct(db: Db, affiliate: nat, p: Period, n: nat)
    requires n <= |db.deposits|
    ensures Distinct(EligibleBelow(db, affiliate, p, n))
  {
    if n > 0 {
      var m: nat := n - 1;
      EligibleDistinct(db, affiliate, p, m);
      DistinctNext(db, affiliate, p, m);
    }
  }

  /** Each eligible deposit comes up exactly once, and nothing else does. */
  lemma EligibleDepositsExact(db: Db, affiliate: nat, p: Period)
    ensures var ids := EligibleDeposits(db, affiliate, p);
            && (forall i, j :: 0 <= i < j < |ids| ==> ids[i] != ids[j])
            && (forall id: nat :: id in ids <==> id < |db.deposits| && Eligible(db, affiliate, p, id))
  {
    EligibleDistinct(db, affiliate, p, |db.deposits|);
    forall id: nat
      ensures id in EligibleDeposits(db, affiliate, p) <==> id < |db.deposits| && Eligible(db, affiliate, p, id)
    {
      EligibleMembers(db, affiliate, p, |db.deposits|, id);
    }
  }

  ghost predicate SortedByPaidAt(deposits: seq<Deposit>, ids: seq<nat>)
  {
    && InRange(deposits, ids)
    && (forall i, j :: 0 <= i < j < |ids| ==> deposits[ids[i]].paidAt <= deposits[ids[j]].paidAt)
  }

  lemma {:induction false} InsertKeepsSorted(deposits: seq<Deposit>, ids: seq<nat>, id: nat)
    requires id < |deposits| && SortedByPaidAt(deposits, ids)
    ensures SortedByPaidAt(deposits, InsertByPaidAt(deposits, ids, id))
  {
    var n := |ids| - 1;
    if ids != [] && deposits[ids[n]].paidAt > deposits[id].paidAt {
      var rest := InsertByPaidAt(deposits, ids[..n], id);
      InsertKeepsSorted(deposits, ids[..n], id);
      forall j | 0 <= j < |rest|
        ensures deposits[rest[j]].paidAt <= deposits[ids[n]].paidAt
      {
        InsertMembers(deposits, ids[..n], id, rest[j]);
        assert rest[j] in rest;
        if rest[j] in ids[..n] {
          var k :| 0 <= k < n && ids[k] == rest[j];
        }
      }
    }
  }

  lemma SortedNext(db: Db, affiliate: nat, p: Period, n: nat)
    requires n < |db.deposits| && SortedByPaidAt(db.deposits, EligibleBelow(db, affiliate, p, n))
    ensures SortedByPaidAt(db.deposits, InsertByPaidAt(db.deposits, EligibleBelow(db, affiliate, p, n), n))
  {
    InsertKeepsSorted(db.deposits, EligibleBelow(db, affiliate, p, n), n);
  }

  /** The loop visits deposits in the order of their payment. */
  lemma {:induction false} EligibleSorted(db: Db, affiliate: nat, p: Period, n: nat)
    requires n <= |db.deposits|
    ensures SortedByPaidAt(db.deposits, EligibleBelow(db, affiliate, p, n))
  {
    if n > 0 {
      var m: nat := n - 1;
      EligibleSorted(db, affiliate, p, m);
      SortedNext(db, affiliate, p, m);
    }
  }

  // ---------------------------------------------------------- what a deposit contributes

  ghost predicate OneRowPerDeposit(commissions: seq<Commission>)
  {
    forall i, j :: 0 <= i < j < |commissions| ==> commissions[i].deposit != commissions[j].deposit
  }

  /** The amount a deposit adds to the affiliate's preview; none when it adds no line. */
  ghost function Contribution(db: Db, affiliate: nat, deposit: nat): Option<int>
    requires affiliate < |db.affiliates| && deposit < |db.deposits|
  {
    match ItemOf(db, affiliate, deposit)
    case None => None
    case Some(item) => Some(ItemAmount(db.commissions, item))
  }

  /** The same deposits, players and affiliates; only commissions and withdrawals may differ. */
  ghost predicate SameBasis(db: Db, db': Db)
  {
    db'.deposits == db.deposits && db'.referrers == db.referrers && db'.affiliates == db.affiliates
  }

  lemma {:induction false} SameEligible(db: Db, db': Db, affiliate: nat, p: Period, n: nat)
    requires SameBasis(db, db') && n <= |db.deposits|
    ensures EligibleBelow(db', affiliate, p, n) == EligibleBelow(db, affiliate, p, n)
  {
    if n > 0 {
      SameEligible(db, db', affiliate, p, n - 1);
    }
  }

  /** Equal contributions make equal counts and totals. */
  lemma {:induction false} SameContributionsSameDraft(db: Db, db': Db, affiliate: nat, ids: seq<nat>)
    requires SameBasis(db, db') && affiliate < |db.affiliates|
    requires forall k :: 0 <= k < |ids| ==> ids[k] < |db.deposits|
    requires forall k :: 0 <= k < |ids| ==> Contribution(db', affiliate, ids[k]) == Contribution(db, affiliate, ids[k])
    ensures |DraftOf(db', affiliate, ids)| == |DraftOf(db, affiliate, ids)|
    ensures DraftTotal(db'.commissions, DraftOf(db', affiliate, ids)) == DraftTotal(db.commissions, DraftOf(db, affiliate, ids))
  {
    if ids != [] {
      var last := ids[|ids| - 1];
      SameContributionsSameDraft(db, db', affiliate, ids[..|ids| - 1]);
      assert Contribution(db', affiliate, last) == Contribution(db, affiliate, last);
    }
  }

  // ------------------------------------------------------- finding rows after a change

  lemma {:induction false} FindUnique(commissions: seq<Commission>, i: nat)
    requires i < |commissions| && OneRowPerDeposit(commissions)
    ensures Find(commissions, commissions[i].deposit) == Some(i)
  {
  }

  lemma {:induction false} FindAfterAppend(rows: seq<Commission>, added: seq<Commission>, deposit: nat)
    ensures (forall i :: 0 <= i < |added| ==> added[i].deposit != deposit) ==> Find(rows + added, deposit) == Find(rows, deposit)
  {
    if added != [] {
      assert rows + added == (rows + added[..|added| - 1]) + [added[|added| - 1]];
      assert (rows + added)[..|rows + added| - 1] == rows + added[..|added| - 1];
      FindAfterAppend(rows, added[..|added| - 1], deposit);
    } else {
      assert rows + added == rows;
    }
  }

  /** The row a preview creates for the deposit: open, unlinked, and the only one of that deposit. */
  ghost predicate IsNewRow(db: Db, affiliate: nat, row: Commission)
    requires affiliate < |db.affiliates|
  {
    && row.deposit < |db.deposits| && row == NewCommission(db, affiliate, row.deposit)
    && row.amount > 0 && Find(db.commissions, row.deposit).None?
  }

  function NewRows(db: Db, affiliate: nat, ids: seq<nat>): seq<Commission>
    requires affiliate < |db.affiliates| && forall k :: 0 <= k < |ids| ==> ids[k] < |db.deposits|
  {
    MissingRows(DraftOf(db, affiliate, ids))
  }

  lemma {:induction false} NewRowsSound(db: Db, affiliate: nat, ids: seq<nat>, i: nat)
    requires affiliate < |db.affiliates| && forall k :: 0 <= k < |ids| ==> ids[k] < |db.deposits|
    requires i < |NewRows(db, affiliate, ids)|
    ensures IsNewRow(db, affiliate, NewRows(db, affiliate, ids)[i]) && NewRows(db, affiliate, ids)[i].deposit in ids
  {
    var n := |ids| - 1;
    if i < |NewRows(db, affiliate, ids[..n])| {
      NewRowsSound(db, affiliate, ids[..n], i);
    }
  }

  lemma {:induction false} NewRowsDistinct(db: Db, affiliate: nat, ids: seq<nat>, i: nat, j: nat)
    requires affiliate < |db.affiliates| && forall k :: 0 <= k < |ids| ==> ids[k] < |db.deposits|
    requires forall k, l :: 0 <= k < l < |ids| ==> ids[k] != ids[l]
    requires i < j < |NewRows(db, affiliate, ids)|
    ensures NewRows(db, affiliate, ids)[i].deposit != NewRows(db, affiliate, ids)[j].deposit
  {
    var n := |ids| - 1;
    if j < |NewRows(db, affiliate, ids[..n])| {
      NewRowsDistinct(db, affiliate, ids[..n], i, j);
    } else {
      NewRowsSound(db, affiliate, ids[..n], i);
    }
  }

  // ------------------------------------------------------------------ interference

  /** Whatever changed, it changed no commission of a deposit that belongs to another affiliate's players. */
  ghost predicate OnlyFor(db: Db, db': Db, affiliate: nat)
  {
    && SameBasis(db, db')
    && forall d: nat :: d < |db.deposits| && !(db.deposits[d].user in db.referrers && db.referrers[db.deposits[d].user] == affiliate)
         ==> SameRow(db, db', d)
  }

  ghost predicate SameRow(db: Db, db': Db, d: nat)
  {
    var c := Find(db.commissions, d);
    Find(db'.commissions, d) == c && (c.Some? ==> db'.commissions[c.value] == db.commissions[c.value])
  }

  lemma SameRowSameContribution(db: Db, db': Db, affiliate: nat, d: nat)
    requires SameBasis(db, db') && affiliate < |db.affiliates| && d < |db.deposits| && SameRow(db, db', d)
    ensures Contribution(db', affiliate, d) == Contribution(db, affiliate, d)
  {
  }

  /** The rows a preview creates. */
  function PreviewRows(db: Db, affiliate: nat, p: Period): seq<Commission>
    requires affiliate < |db.affiliates|
  {
    NewRows(db, affiliate, EligibleDeposits(db, affiliate, p))
  }

  /** The unique index on deposit_id holds after a preview. */
  lemma PreviewKeepsUnique(db: Db, affiliate: nat, p: Period)
    requires affiliate < |db.affiliates| && OneRowPerDeposit(db.commissions)
    ensures OneRowPerDeposit(PreviewPeriod(db, affiliate, p).commissions)
  {
    var ids, rows := EligibleDeposits(db, affiliate, p), PreviewRows(db, affiliate, p);
    EligibleDepositsExact(db, affiliate, p);
    forall i, j | 0 <= i < j < |rows|
      ensures rows[i].deposit != rows[j].deposit
    {
      NewRowsDistinct(db, affiliate, ids, i, j);
    }
    forall j | 0 <= j < |rows|
      ensures Find(db.commissions, rows[j].deposit).None?
    {
      NewRowsSound(db, affiliate, ids, j);
    }
  }

  /** A preview changes no contribution of its own affiliate, and no row of any other: it is idempotent. */
  lemma PreviewKeepsContribution(db: Db, affiliate: nat, p: Period, d: nat)
    requires affiliate < |db.affiliates| && d < |db.deposits| && OneRowPerDeposit(db.commissions)
    ensures var db' := PreviewPeriod(db, affiliate, p);
            && Contribution(db', affiliate, d) == Contribution(db, affiliate, d)
            && (Eligible(db, affiliate, p, d) || SameRow(db, db', d))
  {
    var ids, rows := EligibleDeposits(db, affiliate, p), PreviewRows(db, affiliate, p);
    if i :| 0 <= i < |rows| && rows[i].deposit == d {
      EligibleDepositsExact(db, affiliate, p);
      NewRowsSound(db, affiliate, ids, i);
      PreviewKeepsUnique(db, affiliate, p);
      CreatedRowContributes(db, affiliate, p, i);
    } else {
      FindAfterAppend(db.commissions, rows, d);
      SameRowSameContribution(db, PreviewPeriod(db, affiliate, p), affiliate, d);
    }
  }

  /** A created row adds what its deposit added while the row was missing. */
  lemma CreatedRowContributes(db: Db, affiliate: nat, p: Period, i: nat)
    requires affiliate < |db.affiliates| && i < |PreviewRows(db, affiliate, p)|
    requires IsNewRow(db, affiliate, PreviewRows(db, affiliate, p)[i])
    requires OneRowPerDeposit(PreviewPeriod(db, affiliate, p).commissions)
    ensures var d := PreviewRows(db, affiliate, p)[i].deposit;
            Contribution(PreviewPeriod(db, affiliate, p), affiliate, d) == Contribution(db, affiliate, d)
  {
    FindUnique(PreviewPeriod(db, affiliate, p).commissions, |db.commissions| + i);
  }

  lemma PreviewIsOnlyFor(db: Db, affiliate: nat, p: Period)
    requires affiliate < |db.affiliates| && OneRowPerDeposit(db.commissions)
    ensures OnlyFor(db, PreviewPeriod(db, affiliate, p), affiliate)
    ensures forall d: nat :: d < |db.deposits| ==>
              Contribution(PreviewPeriod(db, affiliate, p), affiliate, d) == Contribution(db, affiliate, d)
  {
    forall d: nat | d < |db.deposits|
      ensures Contribution(PreviewPeriod(db, affiliate, p), affiliate, d) == Contribution(db, affiliate, d)
      ensures Eligible(db, affiliate, p, d) || SameRow(db, PreviewPeriod(db, affiliate, p), d)
    {
      PreviewKeepsContribution(db, affiliate, p, d);
    }
  }

  /** A confirmation reserves and creates rows of its own affiliate's players only. */
  lemma ConfirmIsOnlyFor(db: Db, affiliate: nat, p: Period)
    requires affiliate < |db.affiliates| && OneRowPerDeposit(db.commissions)
    requires ConfirmPeriod(db, affiliate, p).Confirmed?
    ensures OnlyFor(db, ConfirmPeriod(db, affiliate, p).db, affiliate)
    ensures OneRowPerDeposit(ConfirmPeriod(db, affiliate, p).db.commissions)
  {
    var db' := ConfirmPeriod(db, affiliate, p).db;
    var mid := PreviewPeriod(db, affiliate, p);
    var draft := Draft(db, affiliate, p);
    PreviewIsOnlyFor(db, affiliate, p);
    PreviewKeepsUnique(db, affiliate, p);
    forall i | 0 <= i < |mid.commissions|
      ensures db'.commissions[i].deposit == mid.commissions[i].deposit
    {
    }
    forall d: nat | d < |db.deposits| && !(db.deposits[d].user in db.referrers && db.referrers[db.deposits[d].user] == affiliate)
      ensures SameRow(db, db', d)
    {
      assert SameRow(db, mid, d);
      SameFind(mid.commissions, db'.commissions, d);
      var c := Find(db.commissions, d);
      if c.Some? {
        NotInDraft(db, affiliate, EligibleDeposits(db, affiliate, p), c.value) by {
          EligibleDepositsExact(db, affiliate, p);
        }
        assert !Covered(draft, |db.commissions|, c.value);
      }
    }
  }

  lemma {:induction false} SameFind(a: seq<Commission>, b: seq<Commission>, d: nat)
    requires |a| == |b| && forall i :: 0 <= i < |a| ==> a[i].deposit == b[i].deposit
    ensures Find(a, d) == Find(b, d)
  {
    if a != [] {
      SameFind(a[..|a| - 1], b[..|b| - 1], d);
    }
  }

  /** A row whose deposit is not visited is not in the draft. */
  lemma {:induction false} NotInDraft(db: Db, affiliate: nat, ids: seq<nat>, c: nat)
    requires affiliate < |db.affiliates| && forall k :: 0 <= k < |ids| ==> ids[k] < |db.deposits|
    requires c < |db.commissions| && db.commissions[c].deposit !in ids
    ensures forall k :: 0 <= k < |DraftOf(db, affiliate, ids)| ==> DraftOf(db, affiliate, ids)[k] != Existing(c)
  {
    if ids != [] {
      NotInDraft(db, affiliate, ids[..|ids| - 1], c);
    }
  }

  // ------------------------------------------------------------------ agreement

  /** Another affiliate's preview line is untouched by what happens only for `other`. */
  lemma RowSurvives(db: Db, db': Db, affiliate: nat, other: nat, p: Period)
    requires affiliate < |db.affiliates| && affiliate != other && OnlyFor(db, db', other)
    ensures RowFor(db', affiliate, p) == RowFor(db, affiliate, p)
  {
    var ids := EligibleDeposits(db, affiliate, p);
    EligibleDepositsExact(db, affiliate, p);
    SameEligible(db, db', affiliate, p, |db.deposits|);
    forall k | 0 <= k < |ids|
      ensures Contribution(db', affiliate, ids[k]) == Contribution(db, affiliate, ids[k])
    {
      assert ids[k] in ids;
      SameRowSameContribution(db, db', affiliate, ids[k]);
    }
    SameContributionsSameDraft(db, db', affiliate, ids);
  }

  /** Previewing twice shows the same line. */
  lemma PreviewIsIdempotent(db: Db, affiliate: nat, p: Period)
    requires affiliate < |db.affiliates| && OneRowPerDeposit(db.commissions)
    ensures RowFor(PreviewPeriod(db, affiliate, p), affiliate, p) == RowFor(db, affiliate, p)
  {
    var db' := PreviewPeriod(db, affiliate, p);
    PreviewIsOnlyFor(db, affiliate, p);
    SameEligible(db, db', affiliate, p, |db.deposits|);
    SameContributionsSameDraft(db, db', affiliate, EligibleDeposits(db, affiliate, p));
  }

  lemma RowAfterPreview(db: Db, affiliate: nat, other: nat, p: Period)
    requires affiliate < |db.affiliates| && other < |db.affiliates| && OneRowPerDeposit(db.commissions)
    ensures RowFor(PreviewPeriod(db, other, p), affiliate, p) == RowFor(db, affiliate, p)
  {
    if affiliate == other {
      PreviewIsIdempotent(db, affiliate, p);
    } else {
      PreviewIsOnlyFor(db, other, p);
      RowSurvives(db, PreviewPeriod(db, other, p), affiliate, other, p);
    }
  }

  /** Every affiliate of id n or more would be shown the same line. */
  ghost predicate SameLines(db: Db, db': Db, p: Period, n: nat)
    requires db'.affiliates == db.affiliates
  {
    forall a: nat :: n <= a < |db.affiliates| ==> RowFor(db', a, p) == RowFor(db, a, p)
  }

  lemma PreviewKeepsLines(db: Db, other: nat, p: Period)
    requires other < |db.affiliates| && OneRowPerDeposit(db.commissions)
    ensures SameLines(db, PreviewPeriod(db, other, p), p, 0)
  {
    forall a: nat | a < |db.affiliates|
      ensures RowFor(PreviewPeriod(db, other, p), a, p) == RowFor(db, a, p)
    {
      RowAfterPreview(db, a, other, p);
    }
  }

  lemma PreviewOneMore(db: Db, mid: Db, a: nat, p: Period)
    requires SameBasis(db, mid) && SameLines(db, mid, p, 0) && a < |mid.affiliates| && OneRowPerDeposit(mid.commissions)
    ensures var db' := PreviewPeriod(mid, a, p);
            SameBasis(db, db') && SameLines(db, db', p, 0) && OneRowPerDeposit(db'.commissions)
  {
    PreviewKeepsUnique(mid, a, p);
    PreviewKeepsLines(mid, a, p);
  }

  /** previewAll leaves every affiliate's line as it was. */
  lemma {:induction false} PreviewAllKeepsLines(db: Db, p: Period, n: nat)
    requires n <= |db.affiliates| && OneRowPerDeposit(db.commissions)
    ensures OneRowPerDeposit(PreviewAll(db, p, n).db.commissions) && SameBasis(db, PreviewAll(db, p, n).db)
    ensures SameLines(db, PreviewAll(db, p, n).db, p, 0)
  {
    if n == 0 {
      assert PreviewAll(db, p, n).db == db;
    } else {
      PreviewAllKeepsLines(db, p, n - 1);
      if db.affiliates[n - 1].active {
        PreviewOneMore(db, PreviewAll(db, p, n - 1).db, n - 1, p);
      }
    }
  }

  /** What a preview promises to pay: its confirmable lines. */
  function Promised(rows: seq<PreviewRow>): seq<Payment>
  {
    if rows == [] then []
    else
      var last := rows[|rows| - 1];
      Promised(rows[..|rows| - 1]) + if last.canConfirm then [Payment(last.affiliate, last.total)] else []
  }

  /** A fresh draft is never outdated, so an undisturbed confirmation pays exactly its preview line. */
  lemma ConfirmPaysItsRow(db: Db, affiliate: nat, p: Period)
    requires affiliate < |db.affiliates| && db.affiliates[affiliate].active
    ensures ConfirmPeriod(db, affiliate, p).Confirmed? <==> RowFor(db, affiliate, p).canConfirm
    ensures ConfirmPeriod(db, affiliate, p).Confirmed? ==>
              ConfirmPeriod(db, affiliate, p).amount == RowFor(db, affiliate, p).total
  {
    FreshDraft(db, affiliate, EligibleDeposits(db, affiliate, p));
  }

  lemma {:induction false} FreshDraft(db: Db, affiliate: nat, ids: seq<nat>)
    requires affiliate < |db.affiliates| && forall k :: 0 <= k < |ids| ==> ids[k] < |db.deposits|
    ensures !Outdated(db, DraftOf(db, affiliate, ids))
  {
    if ids != [] {
      FreshDraft(db, affiliate, ids[..|ids| - 1]);
      var before := DraftOf(db, affiliate, ids[..|ids| - 1]);
      var draft := DraftOf(db, affiliate, ids);
      forall k | 0 <= k < |before|
        ensures draft[k] == before[k]
      {
      }
    }
  }

  /** One confirmation leaves the lines of all other affiliates. */
  lemma ConfirmKeepsLines(db: Db, affiliate: nat, p: Period)
    requires affiliate < |db.affiliates| && OneRowPerDeposit(db.commissions)
    requires ConfirmPeriod(db, affiliate, p).Confirmed?
    ensures var db' := ConfirmPeriod(db, affiliate, p).db;
            db'.affiliates == db.affiliates && SameLines(db, db', p, affiliate + 1)
  {
    var db' := ConfirmPeriod(db, affiliate, p).db;
    ConfirmIsOnlyFor(db, affiliate, p);
    forall a: nat | affiliate + 1 <= a < |db.affiliates|
      ensures RowFor(db', a, p) == RowFor(db, a, p)
    {
      RowSurvives(db, db', a, affiliate, p);
    }
  }

  lemma ConfirmOneMore(db: Db, mid: Db, a: nat, p: Period)
    requires mid.affiliates == db.affiliates && SameLines(db, mid, p, a) && OneRowPerDeposit(mid.commissions)
    requires a < |mid.affiliates| && ConfirmPeriod(mid, a, p).Confirmed?
    ensures var db' := ConfirmPeriod(mid, a, p).db;
            db'.affiliates == db.affiliates && SameLines(db, db', p, a + 1) && OneRowPerDeposit(db'.commissions)
  {
    ConfirmIsOnlyFor(mid, a, p);
    ConfirmKeepsLines(mid, a, p);
  }

  /** Every confirmation on the way leaves the lines of the affiliates still to come. */
  lemma {:induction false} ConfirmAllKeepsLines(db: Db, p: Period, n: nat)
    requires n <= |db.affiliates| && OneRowPerDeposit(db.commissions)
    ensures OneRowPerDeposit(ConfirmAll(db, p, n).db.commissions)
    ensures SameLines(db, ConfirmAll(db, p, n).db, p, n)
  {
    if n == 0 {
      assert ConfirmAll(db, p, n).db == db;
    } else {
      ConfirmAllKeepsLines(db, p, n - 1);
      if ConfirmPeriod(ConfirmAll(db, p, n - 1).db, n - 1, p).Confirmed? {
        ConfirmOneMore(db, ConfirmAll(db, p, n - 1).db, n - 1, p);
      }
    }
  }

  /** At its turn, each affiliate's line is the same on the previewing and on the confirming side. */
  lemma LinesAgree(db: Db, before: Db, p: Period, n: nat)
    requires before.affiliates == db.affiliates && n < |db.affiliates| && SameLines(before, db, p, 0)
    requires OneRowPerDeposit(db.commissions) && OneRowPerDeposit(before.commissions)
    ensures RowFor(PreviewAll(before, p, n).db, n, p) == RowFor(ConfirmAll(db, p, n).db, n, p)
  {
    PreviewAllKeepsLines(before, p, n);
    ConfirmAllKeepsLines(db, p, n);
    assert RowFor(db, n, p) == RowFor(before, n, p);
  }

  lemma ConfirmPays(db: Db, a: nat, p: Period, row: PreviewRow)
    requires a < |db.affiliates| && db.affiliates[a].active && row == RowFor(db, a, p)
    ensures ConfirmPeriod(db, a, p).Confirmed? <==> row.canConfirm
    ensures ConfirmPeriod(db, a, p).Confirmed? ==> Payment(a, ConfirmPeriod(db, a, p).amount) == Payment(row.affiliate, row.total)
  {
    ConfirmPaysItsRow(db, a, p);
  }

  lemma {:induction false} ConfirmAllPaysTheRows(db: Db, before: Db, p: Period, n: nat)
    requires before.affiliates == db.affiliates && n <= |db.affiliates|
    requires OneRowPerDeposit(db.commissions) && OneRowPerDeposit(before.commissions)
    requires SameLines(before, db, p, 0)
    ensures ConfirmAll(db, p, n).created == Promised(PreviewAll(before, p, n).rows)
  {
    if n > 0 {
      var m: nat := n - 1;
      ConfirmAllPaysTheRows(db, before, p, m);
      PaysTheNextRow(db, before, p, m);
    }
  }

  lemma PaysTheNextRow(db: Db, before: Db, p: Period, n: nat)
    requires before.affiliates == db.affiliates && n < |db.affiliates|
    requires OneRowPerDeposit(db.commissions) && OneRowPerDeposit(before.commissions)
    requires SameLines(before, db, p, 0)
    requires ConfirmAll(db, p, n).created == Promised(PreviewAll(before, p, n).rows)
    ensures ConfirmAll(db, p, n + 1).created == Promised(PreviewAll(before, p, n + 1).rows)
  {
    var row := PaysOneMore(db, before, p, n);
  }

  lemma PaysOneMore(db: Db, before: Db, p: Period, n: nat) returns (row: PreviewRow)
    requires before.affiliates == db.affiliates && n < |db.affiliates|
    requires OneRowPerDeposit(db.commissions) && OneRowPerDeposit(before.commissions)
    requires SameLines(before, db, p, 0)
    ensures PreviewAll(before, p, n + 1).rows == PreviewAll(before, p, n).rows + (if db.affiliates[n].active then [row] else [])
    ensures ConfirmAll(db, p, n + 1).created == ConfirmAll(db, p, n).created
              + (if db.affiliates[n].active && row.canConfirm then [Payment(row.affiliate, row.total)] else [])
  {
    row := RowFor(PreviewAll(before, p, n).db, n, p);
    if db.affiliates[n].active {
      LinesAgree(db, before, p, n);
      ConfirmPays(ConfirmAll(db, p, n).db, n, p, row);
    }
  }

  /** The withdrawals of these payments, in order. */
  function WithdrawalsOf(payments: seq<Payment>): seq<Withdrawal>
  {
    if payments == [] then []
    else
      var last := payments[|payments| - 1];
      WithdrawalsOf(payments[..|payments| - 1]) + [Withdrawal(AffiliateCommission(last.affiliate), last.amount)]
  }

  lemma {:induction false} PreviewAllCreatesNoWithdrawals(db: Db, p: Period, n: nat)
    requires n <= |db.affiliates|
    ensures PreviewAll(db, p, n).db.withdrawals == db.withdrawals
  {
    if n > 0 {
      PreviewAllCreatesNoWithdrawals(db, p, n - 1);
    }
  }

  lemma ConfirmAddsOne(db: Db, a: nat, p: Period)
    ensures var c := ConfirmPeriod(db, a, p);
            c.Confirmed? ==> c.db.withdrawals == db.withdrawals + [Withdrawal(AffiliateCommission(a), c.amount)]
  {
  }

  lemma NextOneIsAWithdrawal(db: Db, p: Period, n: nat)
    requires n < |db.affiliates|
    requires ConfirmAll(db, p, n).db.withdrawals == db.withdrawals + WithdrawalsOf(ConfirmAll(db, p, n).created)
    ensures ConfirmAll(db, p, n + 1).db.withdrawals == db.withdrawals + WithdrawalsOf(ConfirmAll(db, p, n + 1).created)
  {
    var before := ConfirmAll(db, p, n);
    ConfirmAddsOne(before.db, n, p);
    var c := ConfirmPeriod(before.db, n, p);
    if c.Confirmed? {
      assert ConfirmAll(db, p, n + 1) == Batch(c.db, before.created + [Payment(n, c.amount)]);
    } else {
      assert ConfirmAll(db, p, n + 1) == before;
    }
  }

  /** Each payment created is one new withdrawal row, and there are no others. */
  lemma {:induction false} CreatedAreWithdrawals(db: Db, p: Period, n: nat)
    requires n <= |db.affiliates|
    ensures ConfirmAll(db, p, n).db.withdrawals == db.withdrawals + WithdrawalsOf(ConfirmAll(db, p, n).created)
  {
    if n > 0 {
      var m: nat := n - 1;
      CreatedAreWithdrawals(db, p, m);
      NextOneIsAWithdrawal(db, p, m);
    }
  }

  /**
   * Confirming right after previewing pays exactly what the preview promised: the same affiliates, in the same
   * order, with the same amounts, one new withdrawal row each. Confirming without a preview pays the same.
   */
  lemma PreviewAgreesWithConfirm(db: Db, p: Period)
    requires OneRowPerDeposit(db.commissions)
    ensures var shown := PreviewAll(db, p, |db.affiliates|);
            && ConfirmAll(shown.db, p, |db.affiliates|).created == Promised(shown.rows)
            && ConfirmAll(shown.db, p, |db.affiliates|).db.withdrawals == db.withdrawals + WithdrawalsOf(Promised(shown.rows))
            && ConfirmAll(db, p, |db.affiliates|).created == Promised(shown.rows)
  {
    PreviewAllCreatesNoWithdrawals(db, p, |db.affiliates|);
    CreatedAreWithdrawals(PreviewAll(db, p, |db.affiliates|).db, p, |db.affiliates|);
    var shown := PreviewAll(db, p, |db.affiliates|);
    PreviewAllKeepsLines(db, p, |db.affiliates|);
    ConfirmAllPaysTheRows(shown.db, db, p, |db.affiliates|);
    ConfirmAllPaysTheRows(db, db, p, |db.affiliates|);
  }
}
