/**
 * What is paid out, and when a withdrawal loses its commissions. A payment can reach a withdrawal that was released:
 * the transfer looks failed, the withdrawal is rejected, and then the provider reports it done. And it can reach one
 * that was paid: a payout call that comes back late writes its own status over PAID. Either way affiliates get more
 * than their commissions are worth.
 */
module SettlementPayouts {
  import opened Numbers
  import opened Sums
  import opened Books
  import opened Agreement
  import opened DepositInvariant
  import opened CommissionInvariant
  import opened SettlementRuns

  ghost predicate OfAffiliate(db: Db, w: nat)
  {
    w < |db.withdrawals| && db.withdrawals[w].source.AffiliateCommission?
  }

  // ------------------------------------------------------------ one step and the links

  /** Linked rows are as they were, and no other row is paid. */
  ghost predicate LinksUntouched(db: Db, db': Db)
  {
    && |db.commissions| <= |db'.commissions|
    && (forall i :: 0 <= i < |db.commissions| && db.commissions[i].withdrawal.Some? ==>
          db'.commissions[i] == db.commissions[i])
    && (forall i :: 0 <= i < |db'.commissions| && db'.commissions[i].status.PaidOut? ==>
          i < |db.commissions| && db'.commissions[i] == db.commissions[i])
  }

  lemma PreviewTouchesNoLink(db: Db, affiliate: nat, p: Period)
    requires CommissionsOk(db) && affiliate < |db.affiliates|
    ensures LinksUntouched(db, PreviewPeriod(db, affiliate, p))
  {
    var draft := Draft(db, affiliate, p);
    FreshDraftIsOk(db, affiliate, p);
    forall i | 0 <= i < |MissingRows(draft)|
      ensures !MissingRows(draft)[i].status.PaidOut?
    {
      MissingRowsOk(db, affiliate, draft, i);
      var k :| 0 <= k < |draft| && draft[k] == Missing(MissingRows(draft)[i]);
      assert ItemOk(db, affiliate, draft[k]);
    }
  }

  lemma ConfirmTouchesNoLink(db: Db, c: Confirming)
    requires CommissionsOk(db) && DraftOnce(db, c) && ConfirmDraft(db, c.affiliate, c.draft).Confirmed?
    ensures LinksUntouched(db, ConfirmDraft(db, c.affiliate, c.draft).db)
  {
  }

  lemma NotifyTouchesNoLink(plan: FeePlan, db: Db, id: nat, gatewayNet: Option<int>, now: int)
    ensures LinksUntouched(db, SettlePaid(plan, db, id, gatewayNet, now))
    ensures SettlePaid(plan, db, id, gatewayNet, now).withdrawals == db.withdrawals
  {
  }

  lemma OtherStepsTouchNoLink(plan: FeePlan, s: State, step: Step, start: map<nat, int>)
    requires Inv(s, start) && !step.Reject? && PaidBy(s, step).None?
    ensures LinksUntouched(s.db, NextDb(plan, s, step))
  {
    if step.Notify? {
      NotifyTouchesNoLink(plan, s.db, step.id, step.gatewayNet, step.now);
    } else if step.ShowPreview? && step.affiliate < |s.db.affiliates| {
      PreviewTouchesNoLink(s.db, step.affiliate, step.p);
    } else if step.CommitConfirm? && NextDb(plan, s, step) != s.db {
      ConfirmTouchesNoLink(s.db, s.confirming[step.pid]);
    }
  }

  /** The step gives the commissions of w back. */
  ghost predicate Frees(s: State, step: Step, w: nat)
  {
    && step == Reject(w) && OfAffiliate(s.db, w) && Known(s, w) && s.payouts[w].status.PayoutPending?
    && !IsPaidOut(s.db, w)
  }

  lemma RejectFreesNothingElse(s: State, v: nat, i: nat, w: nat)
    requires CommissionsOk(s.db) && i < |s.db.commissions| && s.db.commissions[i].withdrawal == Some(w) && !Frees(s, Reject(v), w)
    requires Known(s, v) && s.payouts[v].status.PayoutPending?
    ensures Release(s.db, v).commissions[i] == s.db.commissions[i]
  {
    assert CommissionOk(s.db, s.db.commissions[i]);
    if v == w {
      var k :| 0 <= k < |s.db.commissions| && s.db.commissions[k].withdrawal == Some(w) && s.db.commissions[k].status.PaidOut?;
      assert s.db.commissions[i].status == s.db.commissions[k].status;
    }
  }

  /** Commission i stays linked to w unless the step frees w. */
  lemma RowStaysLinked(plan: FeePlan, s: State, step: Step, start: map<nat, int>, i: nat, w: nat)
    requires Inv(s, start) && i < |s.db.commissions| && s.db.commissions[i].withdrawal == Some(w) && !Frees(s, step, w)
    ensures i < |NextDb(plan, s, step).commissions| && NextDb(plan, s, step).commissions[i].withdrawal == Some(w)
  {
    assert CommissionOk(s.db, s.db.commissions[i]);
    if step.Reject? {
      if Known(s, step.w) && s.payouts[step.w].status.PayoutPending? { RejectFreesNothingElse(s, step.w, i, w); }
    } else if PaidBy(s, step).None? {
      OtherStepsTouchNoLink(plan, s, step, start);
    }
  }

  /** A withdrawal loses its links exactly by a step that frees it. */
  lemma LinksAreLostByRelease(plan: FeePlan, s: State, step: Step, start: map<nat, int>, w: nat)
    requires Inv(s, start) && OfAffiliate(s.db, w)
    ensures NoneLinked(Next(plan, s, step).db.commissions, w) <==> NoneLinked(s.db.commissions, w) || Frees(s, step, w)
  {
    StepKeeps(plan, s, step, start);
    if NoneLinked(s.db.commissions, w) {
      assert IsReleased(s.db, w);
    } else if !Frees(s, step, w) {
      var i :| 0 <= i < |s.db.commissions| && s.db.commissions[i].withdrawal == Some(w);
      RowStaysLinked(plan, s, step, start, i, w);
    }
  }

  /** An affiliate's withdrawal is born linked. */
  lemma BornLinked(plan: FeePlan, s: State, step: Step, start: map<nat, int>, w: nat)
    requires Inv(s, start) && |s.db.withdrawals| <= w && OfAffiliate(NextDb(plan, s, step), w)
    ensures !NoneLinked(NextDb(plan, s, step).commissions, w)
  {
    if step.CommitConfirm? && step.pid in s.confirming {
      var c := s.confirming[step.pid];
      if ConfirmDraft(s.db, c.affiliate, c.draft).Confirmed? {
        NewWithdrawalIsBacked(s.db, c.affiliate, c.draft);
      }
    } else if !step.RequestWithdrawal? {
      NoNewWithdrawal(plan, s, step);
    }
  }

  lemma NoNewWithdrawal(plan: FeePlan, s: State, step: Step)
    requires !step.CommitConfirm? && !step.RequestWithdrawal?
    ensures NextDb(plan, s, step).withdrawals == s.db.withdrawals
  {
    if step.Notify? {
      NotifyTouchesNoLink(plan, s.db, step.id, step.gatewayNet, step.now);
    }
  }

  // ----------------------------------------------------- released withdrawals, over runs

  ghost predicate FreedAlong(plan: FeePlan, s: State, steps: seq<Step>, w: nat)
    decreases |steps|
  {
    steps != [] && (Frees(s, steps[0], w) || FreedAlong(plan, Next(plan, s, steps[0]), steps[1..], w))
  }

  lemma {:induction false} LinkedUntilFreed(plan: FeePlan, s: State, steps: seq<Step>, start: map<nat, int>, w: nat)
    requires Inv(s, start) && OfAffiliate(Run(plan, s, steps).db, w)
    ensures NoneLinked(Run(plan, s, steps).db.commissions, w)
       <==> IsReleased(s.db, w) || FreedAlong(plan, s, steps, w)
    decreases |steps|
  {
    if steps != [] {
      var next := Next(plan, s, steps[0]);
      StepKeeps(plan, s, steps[0], start);
      RunKeeps(plan, next, steps[1..], start);
      LinkedUntilFreed(plan, next, steps[1..], start, w);
      if w < |s.db.withdrawals| {
        LinksAreLostByRelease(plan, s, steps[0], start, w);
      } else if w < |next.db.withdrawals| {
        BornLinked(plan, s, steps[0], start, w);
      }
    }
  }

  /**
   * After any run an affiliate's withdrawal is worth exactly its linked commissions, unless a rejection of the run
   * reached it before its commissions were marked paid; then, and only then, it has none.
   */
  lemma UnreleasedAreBacked(plan: FeePlan, s: State, steps: seq<Step>, w: nat)
    requires Initial(s) && OfAffiliate(Run(plan, s, steps).db, w)
    ensures var db := Run(plan, s, steps).db;
            && (FreedAlong(plan, s, steps, w) <==> NoneLinked(db.commissions, w))
            && (!FreedAlong(plan, s, steps, w) ==> Sum(db.commissions, LinkedAmount(w)) == db.withdrawals[w].amount > 0)
  {
    InitialInv(s);
    RunKeeps(plan, s, steps, s.db.balances);
    LinkedUntilFreed(plan, s, steps, s.db.balances, w);
    assert Backed(Run(plan, s, steps).db, w);
  }

  // ---------------------------------------------------------- confirmations in flight

  /** What a commit of a draft in flight comes to: it is refused exactly when it is empty or outdated. */
  lemma CommitIsRefused(db: Db, c: Confirming)
    requires CommissionsOk(db) && DraftOnce(db, c)
    ensures ConfirmDraft(db, c.affiliate, c.draft).Refused? <==> c.draft == [] || Outdated(db, c.draft)
  {
    DraftIsWorth(db, c, |c.draft|);
    assert c.draft[..|c.draft|] == c.draft;
  }

  lemma {:induction false} DraftIsWorth(db: Db, c: Confirming, n: nat)
    requires CommissionsOk(db) && DraftOnce(db, c) && n <= |c.draft|
    ensures DraftTotal(db.commissions, c.draft[..n]) >= n
  {
    if n > 0 {
      DraftIsWorth(db, c, n - 1);
      assert c.draft[..n][..n - 1] == c.draft[..n - 1];
      assert OldItemOk(db, c.affiliate, c.draft[n - 1]);
      if c.draft[n - 1].Existing? {
        assert CommissionOk(db, db.commissions[c.draft[n - 1].row]);
      }
    }
  }

  lemma {:induction false} RowLinkedUntilFreed(plan: FeePlan, s: State, steps: seq<Step>, start: map<nat, int>, i: nat, w: nat)
    requires Inv(s, start) && i < |s.db.commissions| && s.db.commissions[i].withdrawal == Some(w)
    requires !FreedAlong(plan, s, steps, w)
    ensures var db := Run(plan, s, steps).db; i < |db.commissions| && db.commissions[i].withdrawal == Some(w)
    decreases |steps|
  {
    if steps != [] {
      StepKeeps(plan, s, steps[0], start);
      RowStaysLinked(plan, s, steps[0], start, i, w);
      RowLinkedUntilFreed(plan, Next(plan, s, steps[0]), steps[1..], start, i, w);
    }
  }

  /**
   * Two confirmations in flight that list the same commission c. The first commits; whatever happens before the second
   * does, the second is refused exactly when a row it lists is no longer open or one it would create exists by then;
   * and c alone sees to that as long as the first one's withdrawal is not released.
   */
  lemma OverlapOverRuns(plan: FeePlan, s: State, steps: seq<Step>, start: map<nat, int>, a: nat, b: nat, c: nat)
    requires Inv(s, start) && a in s.confirming && b in s.confirming
    requires Existing(c) in s.confirming[a].draft && Existing(c) in s.confirming[b].draft
    requires ConfirmDraft(s.db, s.confirming[a].affiliate, s.confirming[a].draft).Confirmed?
    requires var end := Run(plan, Next(plan, s, CommitConfirm(a)), steps);
             b in end.confirming && end.confirming[b] == s.confirming[b]
    ensures var mid := Next(plan, s, CommitConfirm(a));
            var end, second := Run(plan, mid, steps), s.confirming[b];
            && (ConfirmDraft(end.db, second.affiliate, second.draft).Refused? <==> Outdated(end.db, second.draft))
            && (!FreedAlong(plan, mid, steps, |s.db.withdrawals|) ==> Outdated(end.db, second.draft))
  {
    var mid := CommitOf(plan, s, start, a, c);
    RunKeeps(plan, mid, steps, start);
    DraftInFlight(plan, mid, steps, start, b);
    LaterCommit(plan, mid, steps, start, s.confirming[b], c, |s.db.withdrawals|);
  }

  /** The first commit, and what it leaves of the shared commission. */
  lemma CommitOf(plan: FeePlan, s: State, start: map<nat, int>, a: nat, c: nat) returns (mid: State)
    requires Inv(s, start) && a in s.confirming && Existing(c) in s.confirming[a].draft
    requires ConfirmDraft(s.db, s.confirming[a].affiliate, s.confirming[a].draft).Confirmed?
    ensures mid == Next(plan, s, CommitConfirm(a)) && Inv(mid, start)
    ensures c < |mid.db.commissions| && mid.db.commissions[c].withdrawal == Some(|s.db.withdrawals|)
  {
    mid := Next(plan, s, CommitConfirm(a));
    StepKeeps(plan, s, CommitConfirm(a), start);
  }

  lemma DraftInFlight(plan: FeePlan, mid: State, steps: seq<Step>, start: map<nat, int>, b: nat)
    requires Inv(mid, start) && b in Run(plan, mid, steps).confirming
    ensures DraftOnce(Run(plan, mid, steps).db, Run(plan, mid, steps).confirming[b])
  {
    RunKeeps(plan, mid, steps, start);
  }

  lemma LaterCommit(plan: FeePlan, mid: State, steps: seq<Step>, start: map<nat, int>, second: Confirming, c: nat, w: nat)
    requires Inv(mid, start) && c < |mid.db.commissions| && mid.db.commissions[c].withdrawal == Some(w)
    requires Existing(c) in second.draft && DraftOnce(Run(plan, mid, steps).db, second)
    ensures var db := Run(plan, mid, steps).db;
            ConfirmDraft(db, second.affiliate, second.draft).Refused? <==> Outdated(db, second.draft)
    ensures !FreedAlong(plan, mid, steps, w) ==> Outdated(Run(plan, mid, steps).db, second.draft)
  {
    RunKeeps(plan, mid, steps, start);
    CommitIsRefused(Run(plan, mid, steps).db, second);
    if !FreedAlong(plan, mid, steps, w) {
      RowLinkedUntilFreed(plan, mid, steps, start, c, w);
    }
  }

  // ------------------------------------------------------------------ payments, over runs

  /** The ledger has an outflow for this withdrawal. */
  ghost predicate HasPayment(db: Db, w: nat)
  {
    exists i :: 0 <= i < |db.entries| && db.entries[i].kind.WithdrawalOut? && db.entries[i].reference == w
  }

  /** How often the withdrawal was paid. */
  ghost function Payments(db: Db, w: nat): int
  {
    Sum(db.entries, IsEntry(WithdrawalOut, w))
  }

  ghost function ToAffiliates(withdrawals: seq<Withdrawal>): Entry -> int
  {
    (e: Entry) =>
      if e.kind.WithdrawalOut? && e.reference < |withdrawals| && withdrawals[e.reference].source.AffiliateCommission?
      then e.amount else 0
  }

  /** What the ledger has paid to affiliates. */
  ghost function PaidToAffiliates(db: Db): int
  {
    Sum(db.entries, ToAffiliates(db.withdrawals))
  }

  /** What the commissions marked paid are worth. */
  ghost function Earned(db: Db): int
  {
    Sum(db.commissions, PaidAmount)
  }

  /** A paid affiliate withdrawal had its commissions marked, or was released; and nothing else has marked commissions. */
  ghost predicate PaymentsOk(db: Db)
  {
    && (forall w: nat :: HasPayment(db, w) && OfAffiliate(db, w) ==> IsPaidOut(db, w) || IsReleased(db, w))
    && (forall w: nat :: IsPaidOut(db, w) ==> HasPayment(db, w))
  }

  /** The step pays an affiliate on a withdrawal that has lost its commissions, or has been paid already. */
  ghost predicate PaysInVain(s: State, step: Step)
  {
    && PaidBy(s, step).Some? && OfAffiliate(s.db, PaidBy(s, step).value)
    && (IsReleased(s.db, PaidBy(s, step).value) || HasPayment(s.db, PaidBy(s, step).value))
  }

  lemma PaidOutOnlyByPayment(plan: FeePlan, s: State, step: Step, start: map<nat, int>, w: nat)
    requires Inv(s, start) && IsPaidOut(NextDb(plan, s, step), w)
    ensures IsPaidOut(s.db, w) || PaidBy(s, step) == Some(w)
  {
    var db' := NextDb(plan, s, step);
    var i :| 0 <= i < |db'.commissions| && db'.commissions[i].withdrawal == Some(w) && db'.commissions[i].status.PaidOut?;
    if !step.Reject? && PaidBy(s, step).None? {
      OtherStepsTouchNoLink(plan, s, step, start);
    }
    if i < |s.db.commissions| && s.db.commissions[i] == db'.commissions[i] {
      assert IsPaidOut(s.db, w);
    }
  }

  /** The ledger after a step: an expiry or a preview leaves it alone, a settlement books no outflow on a withdrawal. */
  lemma OutflowsAfter(plan: FeePlan, s: State, step: Step, start: map<nat, int>, w: nat)
    requires Inv(s, start)
    ensures Payments(NextDb(plan, s, step), w) == Payments(s.db, w) + (if PaidBy(s, step) == Some(w) then 1 else 0)
  {
    if PaidBy(s, step).Some? {
      var v := PaidBy(s, step).value;
      SumSnoc(s.db.entries, Entry(WithdrawalOut, s.db.withdrawals[v].amount, v), IsEntry(WithdrawalOut, w));
    } else if step.Notify? && Settleable(s.db, step.id) {
      SettlementBooksNoOutflow(plan, s.db, step.id, step.gatewayNet, step.now, start, IsEntry(WithdrawalOut, w));
    }
  }

  lemma SettlementBooksNoOutflow(plan: FeePlan, db: Db, id: nat, gatewayNet: Option<int>, now: int, start: map<nat, int>, f: Entry -> int)
    requires DepositsOk(db, start) && Settleable(db, id)
    requires forall e: Entry :: !e.kind.WithdrawalOut? ==> f(e) == 0
    ensures Sum(SettlePaid(plan, db, id, gatewayNet, now).entries, f) == Sum(db.entries, f)
  {
    var d := db.deposits[id];
    var fee := ResolveFee(plan, Max(0, d.amount), gatewayNet).fee;
    CreateTouchesNoDeposit(Settled(plan, db, id, gatewayNet, now), id);
    SumAppend(db.entries, EntriesOf(id, d.amount, fee), f);
    EntriesSum(id, d.amount, fee, f);
  }

  lemma {:induction false} CountedMeansThere(entries: seq<Entry>, w: nat)
    ensures Sum(entries, IsEntry(WithdrawalOut, w)) >= 0
    ensures Sum(entries, IsEntry(WithdrawalOut, w)) >= 1
       <==> exists i :: 0 <= i < |entries| && entries[i].kind.WithdrawalOut? && entries[i].reference == w
  {
    if entries != [] {
      var n := |entries| - 1;
      CountedMeansThere(entries[..n], w);
      assert entries == entries[..n] + [entries[n]];
      if i :| 0 <= i < n && entries[..n][i].kind.WithdrawalOut? && entries[..n][i].reference == w {
        assert entries[i].kind.WithdrawalOut? && entries[i].reference == w;
      }
    }
  }

  lemma HasPaymentAfter(plan: FeePlan, s: State, step: Step, start: map<nat, int>, w: nat)
    requires Inv(s, start)
    ensures HasPayment(NextDb(plan, s, step), w) <==> HasPayment(s.db, w) || PaidBy(s, step) == Some(w)
  {
    OutflowsAfter(plan, s, step, start, w);
    CountedMeansThere(s.db.entries, w);
    CountedMeansThere(NextDb(plan, s, step).entries, w);
  }

  /** Every step keeps payments and marked commissions in line. */
  lemma StepKeepsPayments(plan: FeePlan, s: State, step: Step, start: map<nat, int>)
    requires Inv(s, start) && PaymentsOk(s.db)
    ensures PaymentsOk(NextDb(plan, s, step))
  {
    var db' := NextDb(plan, s, step);
    StepKeepsRows(plan, s, step, start);
    forall w: nat | HasPayment(db', w) && OfAffiliate(db', w)
      ensures IsPaidOut(db', w) || IsReleased(db', w)
    {
      HasPaymentAfter(plan, s, step, start, w);
      assert db'.withdrawals[w] == s.db.withdrawals[w];
    }
    forall w: nat | IsPaidOut(db', w)
      ensures HasPayment(db', w)
    {
      PaidOutOnlyByPayment(plan, s, step, start, w);
      HasPaymentAfter(plan, s, step, start, w);
    }
  }

  // ----------------------------------------------------------------- amounts

  /** A payment marks commissions worth its amount, unless the withdrawal has none left to mark. */
  lemma EarnedByPayment(db: Db, w: nat)
    requires CommissionsOk(db) && w < |db.withdrawals|
    ensures Earned(BookPayment(db, w)) == Earned(db)
              + if OfAffiliate(db, w) && !IsReleased(db, w) && !IsPaidOut(db, w) then db.withdrawals[w].amount else 0
  {
    var db' := BookPayment(db, w);
    if OfAffiliate(db, w) && !IsReleased(db, w) && !IsPaidOut(db, w) {
      var marked := (c: Commission) => PaidAmount(MarkedPaid(c, w));
      forall i | 0 <= i < |db.commissions|
        ensures marked(db.commissions[i]) == PaidAmount(db.commissions[i]) + LinkedAmount(w)(db.commissions[i])
      {
        assert CommissionOk(db, db.commissions[i]);
      }
      SumOfSums(db.commissions, PaidAmount, LinkedAmount(w), marked);
      SumSame(db.commissions, marked, db'.commissions, PaidAmount);
      assert Backed(db, w);
    } else {
      NothingLeftToMark(db, w);
    }
  }

  lemma NothingLeftToMark(db: Db, w: nat)
    requires CommissionsOk(db) && w < |db.withdrawals| && (!OfAffiliate(db, w) || IsReleased(db, w) || IsPaidOut(db, w))
    ensures Earned(BookPayment(db, w)) == Earned(db)
  {
    var db' := BookPayment(db, w);
    forall i | 0 <= i < |db.commissions|
      ensures PaidAmount(db'.commissions[i]) == PaidAmount(db.commissions[i])
    {
      assert CommissionOk(db, db.commissions[i]);
      if IsPaidOut(db, w) && db.commissions[i].withdrawal == Some(w) {
        var k :| 0 <= k < |db.commissions| && db.commissions[k].withdrawal == Some(w) && db.commissions[k].status.PaidOut?;
        assert db.commissions[i].status == db.commissions[k].status;
      }
    }
    SumSame(db.commissions, PaidAmount, db'.commissions, PaidAmount);
  }

  lemma EarnedOtherwise(plan: FeePlan, s: State, step: Step, start: map<nat, int>)
    requires Inv(s, start) && PaidBy(s, step).None?
    ensures Earned(NextDb(plan, s, step)) == Earned(s.db)
  {
    var db, db' := s.db, NextDb(plan, s, step);
    if step.Reject? {
      SumSame(db.commissions, PaidAmount, db'.commissions, PaidAmount);
    } else {
      OtherStepsTouchNoLink(plan, s, step, start);
      UntouchedEarnTheSame(db, db');
    }
  }

  lemma UntouchedEarnTheSame(db: Db, db': Db)
    requires CommissionsOk(db) && LinksUntouched(db, db')
    ensures Earned(db') == Earned(db)
  {
    var n := |db.commissions|;
    forall i | 0 <= i < n
      ensures PaidAmount(db'.commissions[i]) == PaidAmount(db.commissions[i])
    {
      assert CommissionOk(db, db.commissions[i]);
    }
    assert db'.commissions == db'.commissions[..n] + db'.commissions[n..];
    SumAppend(db'.commissions[..n], db'.commissions[n..], PaidAmount);
    SumSame(db.commissions, PaidAmount, db'.commissions[..n], PaidAmount);
    forall i | 0 <= i < |db'.commissions[n..]|
      ensures PaidAmount(db'.commissions[n..][i]) == 0
    {
      assert db'.commissions[n..][i] == db'.commissions[n + i];
    }
    SumZero(db'.commissions[n..], PaidAmount);
  }

  lemma PaidToAffiliatesAfter(plan: FeePlan, s: State, step: Step, start: map<nat, int>)
    requires Inv(s, start)
    ensures PaidToAffiliates(NextDb(plan, s, step)) == PaidToAffiliates(s.db)
              + if PaidBy(s, step).Some? && OfAffiliate(s.db, PaidBy(s, step).value)
                then s.db.withdrawals[PaidBy(s, step).value].amount else 0
  {
    var db, db' := s.db, NextDb(plan, s, step);
    AtMostOneWithdrawal(plan, s, step);
    SameOutflows(db, db');
    if PaidBy(s, step).Some? {
      var w := PaidBy(s, step).value;
      SumSnoc(db.entries, Entry(WithdrawalOut, db.withdrawals[w].amount, w), ToAffiliates(db.withdrawals));
    } else if step.Notify? && Settleable(db, step.id) {
      SettlementBooksNoOutflow(plan, db, step.id, step.gatewayNet, step.now, start, ToAffiliates(db'.withdrawals));
    }
  }

  lemma SameOutflows(db: Db, db': Db)
    requires LedgerOk(db) && db.withdrawals <= db'.withdrawals
    ensures Sum(db.entries, ToAffiliates(db'.withdrawals)) == Sum(db.entries, ToAffiliates(db.withdrawals))
  {
    forall i | 0 <= i < |db.entries|
      ensures ToAffiliates(db'.withdrawals)(db.entries[i]) == ToAffiliates(db.withdrawals)(db.entries[i])
    {
      assert EntryOk(db, db.entries[i]);
    }
    SumSame(db.entries, ToAffiliates(db'.withdrawals), db.entries, ToAffiliates(db.withdrawals));
  }

  /** What affiliates got beyond their commissions grows exactly by the payments made in vain. */
  lemma StepExcess(plan: FeePlan, s: State, step: Step, start: map<nat, int>)
    requires Inv(s, start) && PaymentsOk(s.db)
    ensures PaidToAffiliates(NextDb(plan, s, step)) - Earned(NextDb(plan, s, step))
         == PaidToAffiliates(s.db) - Earned(s.db)
            + if PaysInVain(s, step) then s.db.withdrawals[PaidBy(s, step).value].amount else 0
    ensures PaysInVain(s, step) ==> s.db.withdrawals[PaidBy(s, step).value].amount > 0
  {
    PaidToAffiliatesAfter(plan, s, step, start);
    if PaidBy(s, step).Some? {
      EarnedByPayment(s.db, PaidBy(s, step).value);
      assert Backed(s.db, PaidBy(s, step).value);
    } else {
      EarnedOtherwise(plan, s, step, start);
    }
  }

  ghost predicate SomePaysInVain(plan: FeePlan, s: State, steps: seq<Step>)
    decreases |steps|
  {
    steps != [] && (PaysInVain(s, steps[0]) || SomePaysInVain(plan, Next(plan, s, steps[0]), steps[1..]))
  }

  lemma {:induction false} ExcessAlong(plan: FeePlan, s: State, steps: seq<Step>, start: map<nat, int>)
    requires Inv(s, start) && PaymentsOk(s.db)
    ensures var before, after := PaidToAffiliates(s.db) - Earned(s.db),
                                 PaidToAffiliates(Run(plan, s, steps).db) - Earned(Run(plan, s, steps).db);
            after >= before && (after == before <==> !SomePaysInVain(plan, s, steps))
    decreases |steps|
  {
    if steps != [] {
      StepKeeps(plan, s, steps[0], start);
      StepKeepsPayments(plan, s, steps[0], start);
      StepExcess(plan, s, steps[0], start);
      ExcessAlong(plan, Next(plan, s, steps[0]), steps[1..], start);
    }
  }

  /**
   * What the ledger has paid to affiliates is at least what their paid commissions are worth, and equal to it if and only
   * if no payment of the run met a withdrawal of theirs that had been released or already paid.
   */
  lemma PayoutsMatchExactlyWhen(plan: FeePlan, s: State, steps: seq<Step>)
    requires Initial(s)
    ensures var db := Run(plan, s, steps).db;
            PaidToAffiliates(db) >= Earned(db) && (PaidToAffiliates(db) == Earned(db) <==> !SomePaysInVain(plan, s, steps))
  {
    InitialInv(s);
    assert PaymentsOk(s.db);
    ExcessAlong(plan, s, steps, s.db.balances);
  }

  // ------------------------------------------------------------ paid at most once

  ghost predicate PaidOnce(db: Db)
  {
    forall w: nat :: w < |db.withdrawals| ==> Payments(db, w) <= 1
  }

  /** Each withdrawal was paid once if its status says so, and never otherwise. */
  ghost predicate PayoutTells(s: State)
    requires Aligned(s)
  {
    forall w: nat :: w < |s.db.withdrawals| ==> TellsOf(s, w)
  }

  ghost predicate PaysAgain(s: State, step: Step)
  {
    PaidBy(s, step).Some? && HasPayment(s.db, PaidBy(s, step).value)
  }

  /** A payout call comes back to a withdrawal whose status says paid, and writes over it. */
  ghost predicate WritesOverPaid(s: State, step: Step)
  {
    && (step.FailPay? || step.FinishPay?) && step.pid in s.paying && (step.FinishPay? ==> s.paying[step.pid].transfer.Some?)
    && Known(s, s.paying[step.pid].withdrawal) && s.payouts[s.paying[step.pid].withdrawal].status.PayoutPaid?
  }

  lemma NoPaymentsYet(s: State, start: map<nat, int>, w: nat)
    requires Inv(s, start) && w >= |s.db.withdrawals|
    ensures Payments(s.db, w) == 0
  {
    CountedMeansThere(s.db.entries, w);
  }

  lemma StepPaidOnce(plan: FeePlan, s: State, step: Step, start: map<nat, int>)
    requires Inv(s, start)
    ensures PaidOnce(NextDb(plan, s, step)) <==> PaidOnce(s.db) && !PaysAgain(s, step)
  {
    var db' := NextDb(plan, s, step);
    AtMostOneWithdrawal(plan, s, step);
    forall w: nat
      ensures Payments(db', w) == Payments(s.db, w) + (if PaidBy(s, step) == Some(w) then 1 else 0)
      ensures w >= |s.db.withdrawals| ==> Payments(db', w) == 0
      ensures HasPayment(s.db, w) <==> Payments(s.db, w) >= 1
    {
      OutflowsAfter(plan, s, step, start, w);
      CountedMeansThere(s.db.entries, w);
      if w >= |s.db.withdrawals| { NoPaymentsYet(s, start, w); }
    }
  }

  /** The payout status of one withdrawal after a step. */
  lemma PayoutStatusAfter(plan: FeePlan, s: State, step: Step, start: map<nat, int>, w: nat)
    requires Inv(s, start) && w < |s.db.withdrawals|
    ensures w < |Next(plan, s, step).payouts|
    ensures (if Next(plan, s, step).payouts[w].status.PayoutPaid? then 1 else 0)
         == (if s.payouts[w].status.PayoutPaid? then 1 else 0)
            + (if PaidBy(s, step) == Some(w) then 1 else 0)
            - (if WritesOverPaid(s, step) && s.paying[step.pid].withdrawal == w then 1 else 0)
  {
  }

  lemma PaymentsAtLeastStatus(s: State, start: map<nat, int>, w: nat)
    requires Inv(s, start) && w < |s.db.withdrawals| && StatusNotAhead(s)
    ensures Payments(s.db, w) >= (if s.payouts[w].status.PayoutPaid? then 1 else 0)
  {
    CountedMeansThere(s.db.entries, w);
  }

  /** What says paid has been paid. */
  ghost predicate StatusNotAhead(s: State)
    requires Aligned(s)
  {
    forall w: nat :: w < |s.db.withdrawals| && s.payouts[w].status.PayoutPaid? ==> HasPayment(s.db, w)
  }

  lemma StepStatusNotAhead(plan: FeePlan, s: State, step: Step, start: map<nat, int>)
    requires Inv(s, start) && StatusNotAhead(s)
    ensures Aligned(Next(plan, s, step)) && StatusNotAhead(Next(plan, s, step))
  {
    var s' := Next(plan, s, step);
    StepKeeps(plan, s, step, start);
    forall w: nat | w < |s'.db.withdrawals| && s'.payouts[w].status.PayoutPaid?
      ensures HasPayment(s'.db, w)
    {
      HasPaymentAfter(plan, s, step, start, w);
      if w < |s.db.withdrawals| {
        PayoutStatusAfter(plan, s, step, start, w);
      }
    }
  }

  /** By how much payments are ahead of the status changes only by writing over a paid one. */
  lemma AheadAfter(plan: FeePlan, s: State, step: Step, start: map<nat, int>, w: nat)
    requires Inv(s, start) && w < |s.db.withdrawals|
    ensures w < |Next(plan, s, step).payouts|
    ensures Payments(NextDb(plan, s, step), w) - (if Next(plan, s, step).payouts[w].status.PayoutPaid? then 1 else 0)
         == Payments(s.db, w) - (if s.payouts[w].status.PayoutPaid? then 1 else 0)
            + (if WritesOverPaid(s, step) && s.paying[step.pid].withdrawal == w then 1 else 0)
  {
    OutflowsAfter(plan, s, step, start, w);
    PayoutStatusAfter(plan, s, step, start, w);
  }

  lemma NewPayoutTells(plan: FeePlan, s: State, step: Step, start: map<nat, int>, w: nat)
    requires Inv(s, start) && |s.db.withdrawals| <= w < |NextDb(plan, s, step).withdrawals|
    ensures w < |Next(plan, s, step).payouts|
    ensures Payments(NextDb(plan, s, step), w) == 0 && !Next(plan, s, step).payouts[w].status.PayoutPaid?
  {
    OutflowsAfter(plan, s, step, start, w);
    NoPaymentsYet(s, start, w);
  }

  /** The claim of PayoutTells about one withdrawal. */
  ghost predicate TellsOf(s: State, w: nat)
    requires w < |s.payouts|
  {
    Payments(s.db, w) == (if s.payouts[w].status.PayoutPaid? then 1 else 0)
  }

  lemma TellsOfAfter(plan: FeePlan, s: State, step: Step, start: map<nat, int>, w: nat)
    requires Inv(s, start) && StatusNotAhead(s) && w < |s.db.withdrawals|
    ensures w < |Next(plan, s, step).payouts|
    ensures TellsOf(Next(plan, s, step), w)
       <==> TellsOf(s, w) && !(WritesOverPaid(s, step) && s.paying[step.pid].withdrawal == w)
  {
    AheadAfter(plan, s, step, start, w);
    PaymentsAtLeastStatus(s, start, w);
  }

  lemma StepPayoutTells(plan: FeePlan, s: State, step: Step, start: map<nat, int>)
    requires Inv(s, start) && StatusNotAhead(s)
    ensures Aligned(Next(plan, s, step))
    ensures PayoutTells(Next(plan, s, step)) <==> PayoutTells(s) && !WritesOverPaid(s, step)
  {
    var s' := Next(plan, s, step);
    StepKeeps(plan, s, step, start);
    forall w: nat | w < |s.db.withdrawals|
      ensures TellsOf(s', w) <==> TellsOf(s, w) && !(WritesOverPaid(s, step) && s.paying[step.pid].withdrawal == w)
    {
      TellsOfAfter(plan, s, step, start, w);
    }
    forall w: nat | |s.db.withdrawals| <= w < |s'.db.withdrawals|
      ensures TellsOf(s', w)
    {
      NewPayoutTells(plan, s, step, start, w);
    }
    if WritesOverPaid(s, step) {
      assert !TellsOf(s', s.paying[step.pid].withdrawal);
    } else if !PayoutTells(s) {
      var w: nat :| w < |s.db.withdrawals| && !TellsOf(s, w);
      assert !TellsOf(s', w);
    }
  }

  ghost predicate SomePaysAgain(plan: FeePlan, s: State, steps: seq<Step>)
    decreases |steps|
  {
    steps != [] && (PaysAgain(s, steps[0]) || SomePaysAgain(plan, Next(plan, s, steps[0]), steps[1..]))
  }

  ghost predicate SomeWritesOverPaid(plan: FeePlan, s: State, steps: seq<Step>)
    decreases |steps|
  {
    steps != [] && (WritesOverPaid(s, steps[0]) || SomeWritesOverPaid(plan, Next(plan, s, steps[0]), steps[1..]))
  }

  lemma {:induction false} PaidOnceAlong(plan: FeePlan, s: State, steps: seq<Step>, start: map<nat, int>)
    requires Inv(s, start)
    ensures PaidOnce(Run(plan, s, steps).db) <==> PaidOnce(s.db) && !SomePaysAgain(plan, s, steps)
    decreases |steps|
  {
    if steps != [] {
      StepKeeps(plan, s, steps[0], start);
      StepPaidOnce(plan, s, steps[0], start);
      PaidOnceAlong(plan, Next(plan, s, steps[0]), steps[1..], start);
    }
  }

  lemma {:induction false} PayoutTellsAlong(plan: FeePlan, s: State, steps: seq<Step>, start: map<nat, int>)
    requires Inv(s, start) && StatusNotAhead(s)
    ensures Aligned(Run(plan, s, steps))
    ensures PayoutTells(Run(plan, s, steps)) <==> PayoutTells(s) && !SomeWritesOverPaid(plan, s, steps)
    decreases |steps|
  {
    if steps != [] {
      StepKeeps(plan, s, steps[0], start);
      StepStatusNotAhead(plan, s, steps[0], start);
      StepPayoutTells(plan, s, steps[0], start);
      PayoutTellsAlong(plan, Next(plan, s, steps[0]), steps[1..], start);
    }
  }

  /** After any run no withdrawal was paid twice, if and only if no payment met one that had been paid. */
  lemma WithdrawalsPaidOnce(plan: FeePlan, s: State, steps: seq<Step>)
    requires Initial(s)
    ensures PaidOnce(Run(plan, s, steps).db) <==> !SomePaysAgain(plan, s, steps)
  {
    InitialInv(s);
    PaidOnceAlong(plan, s, steps, s.db.balances);
  }

  /**
   * After any run every withdrawal was paid once if its status says paid, and never otherwise, if and only if no payout
   * call came back to a paid withdrawal and wrote its own status over it.
   */
  lemma LateCallsAreTheOnlyCause(plan: FeePlan, s: State, steps: seq<Step>)
    requires Initial(s)
    ensures Aligned(Run(plan, s, steps))
    ensures PayoutTells(Run(plan, s, steps)) <==> !SomeWritesOverPaid(plan, s, steps)
  {
    InitialInv(s);
    PayoutTellsAlong(plan, s, steps, s.db.balances);
  }
}
