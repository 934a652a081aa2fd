/**
 * The payout service's statuses and transfers: who may move a withdrawal from where to where, when an outflow is booked,
 * and, over whole runs, that nothing is booked for a withdrawal unless the provider has made a transfer for it.
 */
module SettlementTransfers {
  import opened Numbers
  import opened Books
  import opened DepositInvariant
  import opened SettlementRuns

  /** The payViaPix that has this answer is for this withdrawal. */
  ghost predicate AnsweredFor(s: State, pid: nat, w: nat)
  {
    pid in s.paying && s.paying[pid].withdrawal == w && s.paying[pid].transfer.Some?
  }

  ghost predicate TransferFor(s: State, t: nat, w: nat)
  {
    t < |s.transfers| && s.transfers[t] == w
  }

  /** Every change of a withdrawal's status, with the step that makes it and the status it starts from. */
  lemma StatusMoves(plan: FeePlan, s: State, step: Step, w: nat)
    requires Aligned(s) && w < |s.payouts|
    ensures w < |Next(plan, s, step).payouts|
    ensures var before, after := s.payouts[w].status, Next(plan, s, step).payouts[w].status;
            after != before ==>
              match after
              case PayoutRejected => before.PayoutPending? && step == Reject(w)
              case PayoutApproved =>
                || (step.BeginPay? && step.w == w && before.PayoutPending? && s.payouts[w].transfer.None?)
                || (step.FinishPay? && !step.done && AnsweredFor(s, step.pid, w))
              case PayoutPaid =>
                || (step.FinishPay? && step.done && AnsweredFor(s, step.pid, w))
                || (step.TransferDone? && TransferFor(s, step.t, w))
              case PayoutPending =>
                || (step.FailPay? && step.pid in s.paying && s.paying[step.pid].withdrawal == w)
                || (step.TransferFailed? && TransferFor(s, step.t, w) && before.PayoutApproved?
                    && Next(plan, s, step).payouts[w].transfer.None?)
  {
  }

  /** A rejection goes through exactly for pending withdrawals, and only then touches commissions. */
  lemma RejectsPendingOnly(plan: FeePlan, s: State, w: nat)
    requires Aligned(s) && w < |s.payouts|
    ensures var s' := Next(plan, s, Reject(w));
            if s.payouts[w].status.PayoutPending? then s'.payouts[w].status.PayoutRejected? else s' == s
  {
  }

  /** A payout goes on to the provider exactly for withdrawals that are pending or approved and have no transfer yet. */
  lemma PaysWithoutATransferOnly(plan: FeePlan, s: State, pid: nat, w: nat)
    requires Aligned(s) && w < |s.payouts| && pid !in s.paying
    ensures var s', p := Next(plan, s, BeginPay(pid, w)), s.payouts[w];
            && w < |s'.payouts|
            && (pid in s'.paying <==> (p.status.PayoutPending? || p.status.PayoutApproved?) && p.transfer.None?)
            && (pid in s'.paying ==> s'.payouts[w] == p.(status := PayoutApproved) && s'.paying[pid] == Paying(w, None))
            && (pid !in s'.paying ==> s'.payouts[w] == p)
  {
  }

  /** The provider's question before it pays out gives a withdrawal without a transfer that transfer, and nothing else. */
  lemma ValidationRemembersTheTransfer(plan: FeePlan, s: State, t: nat, w: nat)
    requires Aligned(s) && w < |s.payouts|
    ensures var s' := Next(plan, s, ValidateTransfer(t));
            && s' == s.(payouts := s'.payouts) && |s'.payouts| == |s.payouts|
            && s'.payouts[w] == if TransferFor(s, t, w) && s.payouts[w].transfer.None?
                                then s.payouts[w].(transfer := Some(t)) else s.payouts[w]
  {
  }

  /** A transfer is made for the withdrawal that its call approved, once for each call. */
  lemma AcceptsOnce(plan: FeePlan, s: State, pid: nat)
    requires Aligned(s)
    ensures var s' := Next(plan, s, Accept(pid));
            if pid in s.paying && s.paying[pid].transfer.None? then
              && s'.transfers == s.transfers + [s.paying[pid].withdrawal]
              && s'.paying == s.paying[pid := Paying(s.paying[pid].withdrawal, Some(|s.transfers|))]
            else s' == s
  {
  }

  /** An answer ends the call, a failure whatever the provider did, a success once there is a transfer. */
  lemma AnswersEndTheCall(plan: FeePlan, s: State, pid: nat, done: bool)
    requires Aligned(s) && pid in s.paying
    ensures pid !in Next(plan, s, FailPay(pid)).paying
    ensures pid !in Next(plan, s, FinishPay(pid, done)).paying <==> s.paying[pid].transfer.Some?
  {
  }

  /** An outflow of the withdrawal's amount is booked exactly by an answer that it is done, and by a notice of that if it is not yet paid. */
  lemma BooksExactlyWhen(plan: FeePlan, s: State, step: Step, start: map<nat, int>, w: nat)
    requires Inv(s, start) && w < |s.db.withdrawals|
    ensures var books := || (step.FinishPay? && step.done && AnsweredFor(s, step.pid, w))
                         || (step.TransferDone? && TransferFor(s, step.t, w) && !s.payouts[w].status.PayoutPaid?);
            var entries' := NextDb(plan, s, step).entries;
            if books then entries' == s.db.entries + [Entry(WithdrawalOut, s.db.withdrawals[w].amount, w)]
            else |s.db.entries| <= |entries'|
                 && forall i :: |s.db.entries| <= i < |entries'| ==> !(entries'[i].kind.WithdrawalOut? && entries'[i].reference == w)
  {
    if step.Notify? && Settleable(s.db, step.id) {
      CreateTouchesNoDeposit(Settled(plan, s.db, step.id, step.gatewayNet, step.now), step.id);
    }
  }

  // ------------------------------------------------------------------ over runs

  /** The transfers that calls and withdrawals refer to were made for them, and so was one for every outflow. */
  ghost predicate TransfersBack(s: State)
  {
    && (forall pid :: pid in s.paying && s.paying[pid].transfer.Some? ==>
          TransferFor(s, s.paying[pid].transfer.value, s.paying[pid].withdrawal))
    && (forall w :: 0 <= w < |s.payouts| && s.payouts[w].transfer.Some? ==> TransferFor(s, s.payouts[w].transfer.value, w))
    && (forall i :: 0 <= i < |s.db.entries| && s.db.entries[i].kind.WithdrawalOut? ==> s.db.entries[i].reference in s.transfers)
  }

  lemma NewEntriesAreBacked(plan: FeePlan, s: State, step: Step, start: map<nat, int>, i: nat)
    requires Inv(s, start) && TransfersBack(s)
    requires i < |NextDb(plan, s, step).entries| && NextDb(plan, s, step).entries[i].kind.WithdrawalOut?
    ensures NextDb(plan, s, step).entries[i].reference in s.transfers
  {
    if step.Notify? && Settleable(s.db, step.id) {
      CreateTouchesNoDeposit(Settled(plan, s.db, step.id, step.gatewayNet, step.now), step.id);
    } else if PaidBy(s, step).Some? {
      var w := PaidBy(s, step).value;
      assert NextDb(plan, s, step).entries == s.db.entries + [Entry(WithdrawalOut, s.db.withdrawals[w].amount, w)];
      if step.FinishPay? {
        assert TransferFor(s, s.paying[step.pid].transfer.value, w);
      }
    }
  }

  lemma CallsStayBacked(plan: FeePlan, s: State, step: Step)
    requires TransfersBack(s) && Aligned(s)
    ensures var s' := Next(plan, s, step);
            && s.transfers <= s'.transfers
            && forall pid :: pid in s'.paying && s'.paying[pid].transfer.Some? ==>
                 TransferFor(s', s'.paying[pid].transfer.value, s'.paying[pid].withdrawal)
  {
  }

  lemma ColumnsStayBacked(plan: FeePlan, s: State, step: Step, w: nat)
    requires TransfersBack(s) && Aligned(s) && w < |Next(plan, s, step).payouts|
    ensures var s' := Next(plan, s, step);
            s'.payouts[w].transfer.Some? ==> TransferFor(s', s'.payouts[w].transfer.value, w)
  {
    CallsStayBacked(plan, s, step);
  }

  lemma StepBacks(plan: FeePlan, s: State, step: Step, start: map<nat, int>)
    requires Inv(s, start) && TransfersBack(s)
    ensures TransfersBack(Next(plan, s, step))
  {
    var s' := Next(plan, s, step);
    CallsStayBacked(plan, s, step);
    forall w | 0 <= w < |s'.payouts| && s'.payouts[w].transfer.Some?
      ensures TransferFor(s', s'.payouts[w].transfer.value, w)
    {
      ColumnsStayBacked(plan, s, step, w);
    }
    forall i | 0 <= i < |s'.db.entries| && s'.db.entries[i].kind.WithdrawalOut?
      ensures s'.db.entries[i].reference in s'.transfers
    {
      NewEntriesAreBacked(plan, s, step, start, i);
    }
  }

  lemma {:induction false} RunBacks(plan: FeePlan, s: State, steps: seq<Step>, start: map<nat, int>)
    requires Inv(s, start) && TransfersBack(s)
    ensures TransfersBack(Run(plan, s, steps))
    decreases |steps|
  {
    if steps != [] {
      StepKeeps(plan, s, steps[0], start);
      StepBacks(plan, s, steps[0], start);
      RunBacks(plan, Next(plan, s, steps[0]), steps[1..], start);
    }
  }

  /** After any run: for every outflow in the ledger the provider has made a transfer for that withdrawal. */
  lemma NoOutflowWithoutATransfer(plan: FeePlan, s: State, steps: seq<Step>, i: nat)
    requires Initial(s)
    ensures var end := Run(plan, s, steps);
            i < |end.db.entries| && end.db.entries[i].kind.WithdrawalOut? ==> end.db.entries[i].reference in end.transfers
  {
    InitialInv(s);
    RunBacks(plan, s, steps, s.db.balances);
  }
}
