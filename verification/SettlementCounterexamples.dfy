/**
 * Two runs from an empty house in which one commission of 10.00 costs 20.00: in the first a rejected withdrawal is paid
 * and its commission is confirmed again, in the second no withdrawal is rejected and one is paid twice.
 */
module SettlementCounterexamples {
  import opened Numbers
  import opened Sums
  import opened Books
  import opened DepositInvariant
  import opened CommissionInvariant
  import opened SettlementRuns
  import opened SettlementPayouts

  const PLAN := FeePlan(0, 0)
  const MONTH := Period(0, 10)

  /** One deposit earns one commission, two confirmations list it, the first commits, and its payout gets no answer in time. */
  const OPENING: seq<Step> := [
    AddDeposit(7, 10000, None), Notify(0, None, 5), BeginConfirm(1, 0, MONTH), BeginConfirm(2, 0, MONTH), CommitConfirm(1),
    BeginPay(3, 0), Accept(3), FailPay(3)]

  /** The withdrawal is rejected and then reported paid; the second confirmation commits, and its withdrawal is paid too. */
  const REJECTED: seq<Step> := [
    Reject(0), TransferDone(0), CommitConfirm(2), BeginPay(4, 1), Accept(4), FinishPay(4, true)]

  /** Or: it is paid again; the first transfer is reported, and then the second call comes back. */
  const REPEATED: seq<Step> := [BeginPay(4, 0), Accept(4), TransferDone(0), FinishPay(4, true)]

  function Row(status: CommissionStatus, withdrawal: Option<nat>): Commission
  {
    Commission(0, 0, 10000, 1000, status, withdrawal)
  }

  function Out(w: nat): Entry { Entry(WithdrawalOut, 1000, w) }

  function Books0(row: Commission, withdrawals: nat, outs: seq<Entry>): Db
  {
    Db([Deposit(7, 10000, Paid, 5, Some(0), Some(10000), None)], map[7 := 10000], map[7 := 0], [Affiliate(1000, true, true)],
       map[], [Entry(DepositIn, 10000, 0)] + outs, [row],
       seq(withdrawals, i requires 0 <= i < withdrawals => Withdrawal(AffiliateCommission(0), 1000)), [7])
  }

  function Listed(): Confirming { Confirming(0, [Existing(0)]) }

  function Idle(db: Db, confirming: map<nat, Confirming>): State { State(db, confirming, map[], [], [], map[]) }

  function Empty(): State
  {
    Idle(Db([], map[7 := 0], map[7 := 0], [Affiliate(1000, true, true)], map[], [], [], [], []), map[])
  }

  /** The state before step k of the opening. */
  function Opening(k: nat): State
    requires k <= 8
  {
    var open, reserved := Books0(Row(Open, None), 0, []), Books0(Row(Reserved, Some(0)), 1, []);
    var second := map[2 := Listed()];
    match k
    case 0 => Empty()
    case 1 => Empty().(db := Empty().db.(deposits := [Deposit(7, 10000, Pending, 0, None, None, None)]))
    case 2 => Idle(open, map[])
    case 3 => Idle(open, map[1 := Listed()])
    case 4 => Idle(open, map[1 := Listed(), 2 := Listed()])
    case 5 => State(reserved, second, map[], [NEW_PAYOUT], [], map[])
    case 6 => State(reserved, second, map[], [Payout(PayoutApproved, None)], [], map[3 := Paying(0, None)])
    case 7 => State(reserved, second, map[], [Payout(PayoutApproved, None)], [0], map[3 := Paying(0, Some(0))])
    case _ => State(reserved, second, map[], [NEW_PAYOUT], [0], map[])
  }

  /** The state before step k of the run with the rejection. */
  function Rejecting(k: nat): State
    requires k <= 6
  {
    var open := Books0(Row(Open, None), 1, []);
    var again := Books0(Row(Reserved, Some(1)), 2, [Out(0)]);
    var gone := Payout(PayoutPaid, None);
    match k
    case 0 => Opening(8)
    case 1 => State(open, map[2 := Listed()], map[], [Payout(PayoutRejected, None)], [0], map[])
    case 2 => State(Books0(Row(Open, None), 1, [Out(0)]), map[2 := Listed()], map[], [gone], [0], map[])
    case 3 => State(again, map[], map[], [gone, NEW_PAYOUT], [0], map[])
    case 4 => State(again, map[], map[], [gone, Payout(PayoutApproved, None)], [0], map[4 := Paying(1, None)])
    case 5 => State(again, map[], map[], [gone, Payout(PayoutApproved, None)], [0, 1], map[4 := Paying(1, Some(1))])
    case _ => State(Books0(Row(PaidOut, Some(1)), 2, [Out(0), Out(1)]), map[], map[], [gone, Payout(PayoutPaid, Some(1))], [0, 1], map[])
  }

  /** The state before step k of the run that pays again. */
  function Repeating(k: nat): State
    requires k <= 4
  {
    var reserved, second := Books0(Row(Reserved, Some(0)), 1, []), map[2 := Listed()];
    match k
    case 0 => Opening(8)
    case 1 => State(reserved, second, map[], [Payout(PayoutApproved, None)], [0], map[4 := Paying(0, None)])
    case 2 => State(reserved, second, map[], [Payout(PayoutApproved, None)], [0, 0], map[4 := Paying(0, Some(1))])
    case 3 => State(Books0(Row(PaidOut, Some(0)), 1, [Out(0)]), second, map[], [Payout(PayoutPaid, None)], [0, 0], map[4 := Paying(0, Some(1))])
    case _ => State(Books0(Row(PaidOut, Some(0)), 1, [Out(0), Out(0)]), second, map[], [Payout(PayoutPaid, Some(1))], [0, 0], map[])
  }

  lemma DepositStep()
    ensures Next(PLAN, Opening(0), OPENING[0]) == Opening(1)
  {
  }

  lemma EarningStep()
    ensures Next(PLAN, Opening(1), OPENING[1]) == Opening(2)
  {
  }

  lemma TheDraft()
    ensures Draft(Books0(Row(Open, None), 0, []), 0, MONTH) == [Existing(0)]
  {
    var db := Books0(Row(Open, None), 0, []);
    assert EligibleBelow(db, 0, MONTH, 0) == [];
    assert EligibleBelow(db, 0, MONTH, 1) == [0];
    assert Find(db.commissions, 0) == Some(0);
    assert DraftOf(db, 0, [0][..0]) == [];
  }

  lemma ListingSteps(k: nat)
    requires 2 <= k < 4
    ensures Next(PLAN, Opening(k), OPENING[k]) == Opening(k + 1)
  {
    TheDraft();
  }

  lemma CommitOne(withdrawals: nat, outs: seq<Entry>)
    ensures ConfirmDraft(Books0(Row(Open, None), withdrawals, outs), 0, [Existing(0)])
         == Confirmed(Books0(Row(Reserved, Some(withdrawals)), withdrawals + 1, outs), withdrawals, 1000)
  {
    var db, draft: seq<Item> := Books0(Row(Open, None), withdrawals, outs), [Existing(0)];
    assert draft[..0] == [];
    assert MissingRows([]) == [] && DraftTotal(db.commissions, []) == 0;
    assert db.commissions + MissingRows(draft) == [Row(Open, None)];
    assert Covered(draft, 1, 0) by { assert draft[0] == Existing(0); }
    assert ConfirmDraft(db, 0, draft).db.commissions == [Row(Reserved, Some(withdrawals))];
    assert ConfirmDraft(db, 0, draft).db.withdrawals == Books0(Row(Open, None), withdrawals + 1, outs).withdrawals;
  }

  lemma CommitStep()
    ensures Next(PLAN, Opening(4), OPENING[4]) == Opening(5)
  {
    CommitOne(0, []);
  }

  lemma PayingSteps(k: nat)
    requires 5 <= k < 8
    ensures Next(PLAN, Opening(k), OPENING[k]) == Opening(k + 1)
  {
  }

  lemma BookOne(row: Commission, withdrawals: nat, outs: seq<Entry>, w: nat)
    requires w < withdrawals
    ensures BookPayment(Books0(row, withdrawals, outs), w) == Books0(MarkedPaid(row, w), withdrawals, outs + [Out(w)])
  {
  }

  lemma RejectedTransferDone()
    ensures Next(PLAN, Rejecting(1), REJECTED[1]) == Rejecting(2)
  {
    BookOne(Row(Open, None), 1, [], 0);
  }

  lemma SecondCommit()
    ensures Next(PLAN, Rejecting(2), REJECTED[2]) == Rejecting(3)
  {
    CommitOne(1, [Out(0)]);
  }

  lemma SecondPayment()
    ensures Next(PLAN, Rejecting(5), REJECTED[5]) == Rejecting(6)
  {
    BookOne(Row(Reserved, Some(1)), 2, [Out(0)], 1);
  }

  lemma OtherRejectingSteps(k: nat)
    requires k == 0 || k == 3 || k == 4
    ensures Next(PLAN, Rejecting(k), REJECTED[k]) == Rejecting(k + 1)
  {
  }

  lemma RepeatedTransferDone()
    ensures Next(PLAN, Repeating(2), REPEATED[2]) == Repeating(3)
  {
    BookOne(Row(Reserved, Some(0)), 1, [], 0);
  }

  lemma RepeatedPayment()
    ensures Next(PLAN, Repeating(3), REPEATED[3]) == Repeating(4)
  {
    BookOne(Row(PaidOut, Some(0)), 1, [Out(0)], 0);
  }

  lemma OtherRepeatingSteps(k: nat)
    requires k < 2
    ensures Next(PLAN, Repeating(k), REPEATED[k]) == Repeating(k + 1)
  {
  }

  lemma {:induction false} OpeningRun(j: nat, k: nat)
    requires j <= k <= 8
    ensures Run(PLAN, Opening(j), OPENING[j..k]) == Opening(k)
    decreases k - j
  {
    if j < k {
      if j == 0 { DepositStep(); } else if j == 1 { EarningStep(); } else if j < 4 { ListingSteps(j); } else if j == 4 { CommitStep(); }
      else { PayingSteps(j); }
      OpeningRun(j + 1, k);
      assert OPENING[j..k][1..] == OPENING[j + 1..k];
    }
  }

  lemma {:induction false} RejectingRun(j: nat, k: nat)
    requires j <= k <= 6
    ensures Run(PLAN, Rejecting(j), REJECTED[j..k]) == Rejecting(k)
    decreases k - j
  {
    if j < k {
      if j == 1 { RejectedTransferDone(); } else if j == 2 { SecondCommit(); } else if j == 5 { SecondPayment(); }
      else { OtherRejectingSteps(j); }
      RejectingRun(j + 1, k);
      assert REJECTED[j..k][1..] == REJECTED[j + 1..k];
    }
  }

  lemma {:induction false} RepeatingRun(j: nat)
    requires j <= 4
    ensures Run(PLAN, Repeating(j), REPEATED[j..]) == Repeating(4)
    decreases 4 - j
  {
    if j < 4 {
      if j == 2 { RepeatedTransferDone(); } else if j == 3 { RepeatedPayment(); } else { OtherRepeatingSteps(j); }
      RepeatingRun(j + 1);
      assert REPEATED[j..][1..] == REPEATED[j + 1..];
    }
  }

  /** From an empty house to a withdrawal whose transfer was made although its call failed. */
  lemma TheOpening()
    ensures Initial(Empty()) && Run(PLAN, Empty(), OPENING) == Opening(8)
  {
    OpeningRun(0, 8);
    assert OPENING[0..8] == OPENING;
  }

  /** One commission of 10.00 is paid out on a rejected withdrawal, confirmed again, and paid out once more. */
  lemma ARejectedWithdrawalIsPaid()
    ensures Initial(Empty()) && Run(PLAN, Empty(), OPENING) == Rejecting(0)
    ensures Run(PLAN, Rejecting(0), REJECTED) == Rejecting(6)
    ensures Earned(Rejecting(6).db) == 1000 && PaidToAffiliates(Rejecting(6).db) == 2000
  {
    TheOpening();
    RejectingRun(0, 6);
    assert REJECTED[0..6] == REJECTED;
    RejectedAmounts();
  }

  lemma RejectedAmounts()
    ensures Earned(Rejecting(6).db) == 1000 && PaidToAffiliates(Rejecting(6).db) == 2000
  {
    TwoOutflows(Row(PaidOut, Some(1)), 2, 0, 1);
  }

  /** No withdrawal is ever rejected, and one commission of 10.00 is paid out twice on the same one. */
  lemma AWithdrawalIsPaidTwice()
    ensures Initial(Empty()) && Run(PLAN, Empty(), OPENING) == Repeating(0)
    ensures Run(PLAN, Repeating(0), REPEATED) == Repeating(4)
    ensures Earned(Repeating(4).db) == 1000 && PaidToAffiliates(Repeating(4).db) == 2000 && Repeating(4).transfers == [0, 0]
  {
    TheOpening();
    RepeatingRun(0);
    assert REPEATED[0..] == REPEATED;
    RepeatedAmounts();
  }

  lemma RepeatedAmounts()
    ensures Earned(Repeating(4).db) == 1000 && PaidToAffiliates(Repeating(4).db) == 2000
  {
    TwoOutflows(Row(PaidOut, Some(0)), 1, 0, 0);
  }

  lemma TwoOutflows(row: Commission, withdrawals: nat, v: nat, w: nat)
    requires v < withdrawals && w < withdrawals && row.status.PaidOut? && row.amount == 1000
    ensures var db := Books0(row, withdrawals, [Out(v), Out(w)]); Earned(db) == 1000 && PaidToAffiliates(db) == 2000
  {
    var db := Books0(row, withdrawals, [Out(v), Out(w)]);
    SumSnoc([], row, PaidAmount);
    assert [] + [row] == db.commissions;
    var f, e := ToAffiliates(db.withdrawals), Entry(DepositIn, 10000, 0);
    SumSnoc([], e, f);
    SumSnoc([] + [e], Out(v), f);
    SumSnoc([] + [e] + [Out(v)], Out(w), f);
    assert [] + [e] + [Out(v)] + [Out(w)] == db.entries;
  }

  /** Both drafts are listed, the first commits, its withdrawal is rejected, and the second, unchanged, commits too. */
  lemma AStaleDraftGoesThrough()
    ensures Initial(Empty()) && Run(PLAN, Empty(), OPENING[..4]) == Opening(4)
    ensures Opening(4).confirming == map[1 := Listed(), 2 := Listed()]
    ensures Run(PLAN, Opening(4), OPENING[4..]) == Rejecting(0) && Next(PLAN, Rejecting(0), Reject(0)) == Rejecting(1)
    ensures ConfirmDraft(Rejecting(1).db, 0, Listed().draft).Confirmed?
  {
    OpeningRun(0, 4);
    assert OPENING[0..4] == OPENING[..4];
    OpeningRun(4, 8);
    assert OPENING[4..8] == OPENING[4..];
    OtherRejectingSteps(0);
    CommitOne(1, []);
  }
}
