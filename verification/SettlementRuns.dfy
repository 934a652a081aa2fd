/**
 * Deposits, commissions and their withdrawals over whole runs: payment notifications, expiries, previews, confirmations,
 * rejections and payouts in any order and any number. A call that gives up the database between two statements is in
 * flight: a confirmation between its preview and its locks, an expiry between its look at the deposit and its write, a
 * payout between its approval and the provider's answer.
 */
module SettlementRuns {
  import opened Numbers
  import opened Sums
  import opened Books
  import opened Agreement
  import opened DepositInvariant
  import opened CommissionInvariant

  /** A confirmPeriod that has made its preview and waits for the row locks. */
  datatype Confirming = Confirming(affiliate: nat, draft: seq<Item>)

  datatype PayoutStatus = PayoutPending | PayoutApproved | PayoutPaid | PayoutRejected

  /** The columns of a withdrawal that the payout service writes. */
  datatype Payout = Payout(status: PayoutStatus, transfer: Option<nat>)

  /** A payViaPix that has approved its withdrawal and talks to the provider; the transfer once the provider has made one. */
  datatype Paying = Paying(withdrawal: nat, transfer: Option<nat>)

  /** `transfers` are the provider's: the withdrawal that each was made for, which it carries as its reference. */
  datatype State = State(
    db: Db,
    confirming: map<nat, Confirming>,
    expiring: map<nat, nat>,
    payouts: seq<Payout>,
    transfers: seq<nat>,
    paying: map<nat, Paying>)

  datatype Step =
    | AddDeposit(user: nat, amount: int, bonusCode: Option<nat>)
    | BeginExpire(pid: nat, id: nat)
    | CommitExpire(pid: nat)
    | Notify(id: nat, gatewayNet: Option<int>, now: int)
    | ShowPreview(affiliate: nat, p: Period)
    | BeginConfirm(pid: nat, affiliate: nat, p: Period)
    | CommitConfirm(pid: nat)
    | Reject(w: nat)
    | BeginPay(pid: nat, w: nat)             // payViaPix up to its call of the provider
    | Accept(pid: nat)                       // the provider makes the transfer
    | FailPay(pid: nat)                      // payViaPix got no answer, or one without an id
    | FinishPay(pid: nat, done: bool)        // payViaPix got its answer
    | TransferDone(t: nat)                   // webhook
    | TransferFailed(t: nat)                 // webhook
    | ValidateTransfer(t: nat)               // the provider asks before it pays out
    | Refer(user: nat, affiliate: nat)
    | EditAffiliate(affiliate: nat, row: Affiliate)
    | RequestWithdrawal(amount: int)

  const NEW_PAYOUT := Payout(PayoutPending, None)

  predicate Known(s: State, w: nat)
  {
    w < |s.payouts| && w < |s.db.withdrawals|
  }

  function WithStatus(s: State, w: nat, status: PayoutStatus): State
    requires w < |s.payouts|
  {
    s.(payouts := s.payouts[w := s.payouts[w].(status := status)])
  }

  /** The withdrawal that the step marks paid, if it does: markPaid looks at the status again, under its lock. */
  function PaidBy(s: State, step: Step): Option<nat>
  {
    match step
    case FinishPay(pid, done) =>
      if done && pid in s.paying && s.paying[pid].transfer.Some? && Known(s, s.paying[pid].withdrawal)
      then Some(s.paying[pid].withdrawal) else None
    case TransferDone(t) =>
      if t < |s.transfers| && Known(s, s.transfers[t]) && !s.payouts[s.transfers[t]].status.PayoutPaid?
      then Some(s.transfers[t]) else None
    case _ => None
  }

  /** What a step does to the rows. */
  function NextDb(plan: FeePlan, s: State, step: Step): Db
  {
    var db := s.db;
    match step
    case AddDeposit(user, amount, bonusCode) =>
      if amount <= 0 || user !in db.balances then db
      else db.(deposits := db.deposits + [Deposit(user, amount, Pending, 0, None, None, bonusCode)])
    case CommitExpire(pid) =>
      if pid in s.expiring && s.expiring[pid] < |db.deposits| then WriteExpired(db, s.expiring[pid]) else db
    case Notify(id, gatewayNet, now) => SettlePaid(plan, db, id, gatewayNet, now)
    case ShowPreview(affiliate, p) => if affiliate < |db.affiliates| then PreviewPeriod(db, affiliate, p) else db
    case CommitConfirm(pid) =>
      if pid !in s.confirming then db
      else
        var c := ConfirmDraft(db, s.confirming[pid].affiliate, s.confirming[pid].draft);
        if c.Confirmed? then c.db else db
    case Reject(w) => if Known(s, w) && s.payouts[w].status.PayoutPending? then Release(db, w) else db
    case FinishPay(_, _) => if PaidBy(s, step).Some? then BookPayment(db, PaidBy(s, step).value) else db
    case TransferDone(_) => if PaidBy(s, step).Some? then BookPayment(db, PaidBy(s, step).value) else db
    case Refer(user, affiliate) => db.(referrers := db.referrers[user := affiliate])
    case EditAffiliate(affiliate, row) =>
      if affiliate < |db.affiliates| then db.(affiliates := db.affiliates[affiliate := row]) else db
    case RequestWithdrawal(amount) =>
      if amount <= 0 then db else db.(withdrawals := db.withdrawals + [Withdrawal(Player, amount)])
    case _ => db
  }

  /** What it does to the payout columns, once new withdrawals have theirs. */
  function NextPayouts(s: State, step: Step): seq<Payout>
  {
    match step
    case Reject(w) =>
      if Known(s, w) && s.payouts[w].status.PayoutPending? then WithStatus(s, w, PayoutRejected).payouts else s.payouts
    case BeginPay(pid, w) => if MayPay(s, pid, w) then WithStatus(s, w, PayoutApproved).payouts else s.payouts
    case FailPay(pid) =>
      if pid in s.paying && Known(s, s.paying[pid].withdrawal)
      then WithStatus(s, s.paying[pid].withdrawal, PayoutPending).payouts else s.payouts
    case FinishPay(pid, done) =>
      if pid in s.paying && s.paying[pid].transfer.Some? && Known(s, s.paying[pid].withdrawal)
      then s.payouts[s.paying[pid].withdrawal := Payout(if done then PayoutPaid else PayoutApproved, s.paying[pid].transfer)]
      else s.payouts
    case TransferDone(t) =>
      if PaidBy(s, step).Some? then WithStatus(s, PaidBy(s, step).value, PayoutPaid).payouts else s.payouts
    case TransferFailed(t) =>
      if t < |s.transfers| && Known(s, s.transfers[t]) && s.payouts[s.transfers[t]].status.PayoutApproved?
      then s.payouts[s.transfers[t] := NEW_PAYOUT] else s.payouts
    case ValidateTransfer(t) =>
      if t < |s.transfers| && Known(s, s.transfers[t]) && s.payouts[s.transfers[t]].transfer.None?
      then s.payouts[s.transfers[t] := s.payouts[s.transfers[t]].(transfer := Some(t))] else s.payouts
    case _ => s.payouts
  }

  /** payViaPix goes on: the withdrawal is pending or approved, and has no transfer yet. */
  predicate MayPay(s: State, pid: nat, w: nat)
  {
    && pid !in s.paying && Known(s, w)
    && (s.payouts[w].status.PayoutPending? || s.payouts[w].status.PayoutApproved?) && s.payouts[w].transfer.None?
  }

  function NextConfirming(s: State, step: Step): map<nat, Confirming>
  {
    match step
    case BeginConfirm(pid, affiliate, p) =>
      if pid in s.confirming || !IsActive(s.db, affiliate) || !s.db.affiliates[affiliate].hasPixKey then s.confirming
      else s.confirming[pid := Confirming(affiliate, Draft(s.db, affiliate, p))]
    case CommitConfirm(pid) => s.confirming - {pid}
    case _ => s.confirming
  }

  function NextExpiring(s: State, step: Step): map<nat, nat>
  {
    match step
    case BeginExpire(pid, id) =>
      if pid in s.expiring || id >= |s.db.deposits| || !s.db.deposits[id].status.Pending? then s.expiring
      else s.expiring[pid := id]
    case CommitExpire(pid) => s.expiring - {pid}
    case _ => s.expiring
  }

  function NextTransfers(s: State, step: Step): seq<nat>
  {
    match step
    case Accept(pid) =>
      if pid !in s.paying || s.paying[pid].transfer.Some? then s.transfers else s.transfers + [s.paying[pid].withdrawal]
    case _ => s.transfers
  }

  function NextPaying(s: State, step: Step): map<nat, Paying>
  {
    match step
    case BeginPay(pid, w) => if MayPay(s, pid, w) then s.paying[pid := Paying(w, None)] else s.paying
    case Accept(pid) =>
      if pid !in s.paying || s.paying[pid].transfer.Some? then s.paying
      else s.paying[pid := s.paying[pid].(transfer := Some(|s.transfers|))]
    case FailPay(pid) => s.paying - {pid}
    case FinishPay(pid, _) => if pid in s.paying && s.paying[pid].transfer.Some? then s.paying - {pid} else s.paying
    case _ => s.paying
  }

  function Next(plan: FeePlan, s: State, step: Step): State
  {
    var db' := NextDb(plan, s, step);
    State(
      db',
      NextConfirming(s, step),
      NextExpiring(s, step),
      NextPayouts(s, step) + (if |db'.withdrawals| > |s.db.withdrawals| then [NEW_PAYOUT] else []),
      NextTransfers(s, step),
      NextPaying(s, step))
  }

  /** A deposit of a positive amount by a user there is arrives last, pending, with neither fee nor net. */
  lemma DepositArrivesPending(plan: FeePlan, s: State, user: nat, amount: int, bonusCode: Option<nat>)
    ensures var deposits' := Next(plan, s, AddDeposit(user, amount, bonusCode)).db.deposits;
            if amount > 0 && user in s.db.balances then
              && |deposits'| == |s.db.deposits| + 1 && s.db.deposits <= deposits'
              && var d := deposits'[|s.db.deposits|];
                 d.user == user && d.amount == amount && d.bonusCode == bonusCode && d.status.Pending? && d.fee.None? && d.net.None?
            else deposits' == s.db.deposits
  {
  }

  /** After a preview of an affiliate nothing it lists is missing: previewing again adds no rows. */
  lemma PreviewLeavesNothingMissing(plan: FeePlan, s: State, affiliate: nat, p: Period, start: map<nat, int>)
    requires Inv(s, start) && affiliate < |s.db.affiliates|
    ensures var s' := Next(plan, s, ShowPreview(affiliate, p));
            && s'.db == PreviewPeriod(s.db, affiliate, p) && s' == s.(db := s'.db)
            && RowFor(s'.db, affiliate, p) == RowFor(s.db, affiliate, p)
  {
    PreviewIsIdempotent(s.db, affiliate, p);
  }

  /** An expiry goes on to the provider exactly for deposits it finds pending. */
  lemma ExpiryBeginsExactlyWhen(plan: FeePlan, s: State, pid: nat, id: nat)
    requires pid !in s.expiring
    ensures var s' := Next(plan, s, BeginExpire(pid, id));
            && s'.db == s.db
            && s'.expiring == if id < |s.db.deposits| && s.db.deposits[id].status.Pending? then s.expiring[pid := id] else s.expiring
  {
  }

  /** A confirmation makes its draft exactly for active affiliates with a key; the draft lists what is due by then. */
  lemma ConfirmationBeginsExactlyWhen(plan: FeePlan, s: State, pid: nat, affiliate: nat, p: Period)
    requires pid !in s.confirming
    ensures var s' := Next(plan, s, BeginConfirm(pid, affiliate, p));
            && s'.db == s.db
            && s'.confirming
                 == if affiliate < |s.db.affiliates| && s.db.affiliates[affiliate].active && s.db.affiliates[affiliate].hasPixKey
                    then s.confirming[pid := Confirming(affiliate, Draft(s.db, affiliate, p))] else s.confirming
  {
  }

  /** Either call ends with its write, which is made once. */
  lemma CommitsEndTheCall(plan: FeePlan, s: State, pid: nat)
    ensures pid !in Next(plan, s, CommitExpire(pid)).expiring && pid !in Next(plan, s, CommitConfirm(pid)).confirming
  {
  }

  function Run(plan: FeePlan, s: State, steps: seq<Step>): State
    decreases |steps|
  {
    if steps == [] then s else Run(plan, Next(plan, s, steps[0]), steps[1..])
  }

  ghost predicate Inv(s: State, start: map<nat, int>)
  {
    && DepositsOk(s.db, start) && CommissionsOk(s.db) && Aligned(s)
    && forall pid :: pid in s.confirming ==> DraftOnce(s.db, s.confirming[pid])
  }

  /** Every withdrawal has its payout columns, and calls and transfers refer to withdrawals and deposits there are. */
  ghost predicate Aligned(s: State)
  {
    && |s.payouts| == |s.db.withdrawals|
    && (forall pid :: pid in s.expiring ==> s.expiring[pid] < |s.db.deposits|)
    && (forall t :: 0 <= t < |s.transfers| ==> s.transfers[t] < |s.db.withdrawals|)
    && (forall pid :: pid in s.paying ==> s.paying[pid].withdrawal < |s.db.withdrawals|)
  }

  /** The draft of a confirmation in flight: its rows exist or were creatable when it was made, each listed once. */
  ghost predicate DraftOnce(db: Db, c: Confirming)
  {
    && (forall k :: 0 <= k < |c.draft| ==> OldItemOk(db, c.affiliate, c.draft[k]))
    && (forall k, l :: 0 <= k < l < |c.draft| ==> !SameItem(c.draft[k], c.draft[l]))
  }

  ghost predicate OldItemOk(db: Db, affiliate: nat, item: Item)
  {
    match item
    case Existing(c) => c < |db.commissions| && db.commissions[c].affiliate == affiliate
    case Missing(row) =>
      row.affiliate == affiliate && row.status.Open? && row.withdrawal.None? && row.amount > 0
      && row.deposit < |db.deposits| && WasPaid(db.deposits[row.deposit])
  }

  ghost predicate Grows(db: Db, db': Db)
  {
    DepositsGrow(db, db') && CommissionsGrow(db, db')
  }

  lemma DraftSurvives(db: Db, db': Db, c: Confirming)
    requires Grows(db, db') && DraftOnce(db, c)
    ensures DraftOnce(db', c)
  {
  }

  /** Only the commission tables are looked at by the commission invariant, besides which deposits are paid. */
  lemma DepositsOnlyGrow(db: Db, db': Db)
    requires CommissionsOk(db) && db'.commissions == db.commissions && db'.withdrawals == db.withdrawals
    requires DepositsGrow(db, db')
    ensures CommissionsOk(db') && CommissionsGrow(db, db')
  {
    forall i | 0 <= i < |db'.commissions|
      ensures CommissionOk(db', db'.commissions[i])
    {
      assert CommissionOk(db, db.commissions[i]);
    }
    forall w | 0 <= w < |db'.withdrawals|
      ensures Backed(db', w)
    {
      assert Backed(db, w);
    }
  }

  lemma NotifyKeeps(plan: FeePlan, db: Db, id: nat, gatewayNet: Option<int>, now: int, start: map<nat, int>)
    requires DepositsOk(db, start) && CommissionsOk(db)
    ensures var db' := SettlePaid(plan, db, id, gatewayNet, now);
            DepositsOk(db', start) && CommissionsOk(db') && Grows(db, db')
  {
    var db' := SettlePaid(plan, db, id, gatewayNet, now);
    SettleKeepsDeposits(plan, db, id, gatewayNet, now, start);
    if Settleable(db, id) {
      var mid := Settled(plan, db, id, gatewayNet, now);
      DepositsOnlyGrow(db, mid);
      CreateKeeps(mid, id);
    }
  }

  lemma CreateKeeps(db: Db, id: nat)
    requires CommissionsOk(db) && id < |db.deposits| && db.deposits[id].status.Paid?
    ensures CommissionsOk(CreateFromDeposit(db, id)) && CommissionsGrow(db, CreateFromDeposit(db, id))
  {
    var d := db.deposits[id];
    if d.user in db.referrers && IsActive(db, db.referrers[d.user]) {
      AddCommissionKeeps(db, db.referrers[d.user], id);
    } else if d.bonusCode.Some? && d.bonusCode.value in db.codes && IsActive(db, db.codes[d.bonusCode.value]) {
      var affiliate := db.codes[d.bonusCode.value];
      var referred := if d.user in db.referrers then db else db.(referrers := db.referrers[d.user := affiliate]);
      DepositsOnlyGrow(db, referred);
      AddCommissionKeeps(referred, affiliate, id);
    }
  }

  /** The commit of an earlier draft; a draft that is still acceptable satisfies what a fresh one does. */
  lemma CommitKeeps(db: Db, c: Confirming, start: map<nat, int>)
    requires DepositsOk(db, start) && CommissionsOk(db) && DraftOnce(db, c)
    requires ConfirmDraft(db, c.affiliate, c.draft).Confirmed?
    ensures var db' := ConfirmDraft(db, c.affiliate, c.draft).db;
            DepositsOk(db', start) && CommissionsOk(db') && Grows(db, db')
  {
    var db' := ConfirmDraft(db, c.affiliate, c.draft).db;
    ConfirmKeeps(db, c.affiliate, c.draft);
    CommissionsDoNotMatter(db, db', start);
  }

  lemma PlayerWithdrawalKeeps(db: Db, amount: int)
    requires CommissionsOk(db)
    ensures var db' := db.(withdrawals := db.withdrawals + [Withdrawal(Player, amount)]);
            CommissionsOk(db') && CommissionsGrow(db, db')
  {
    var db' := db.(withdrawals := db.withdrawals + [Withdrawal(Player, amount)]);
    forall w | 0 <= w < |db'.withdrawals|
      ensures Backed(db', w)
    {
      if w < |db.withdrawals| { assert Backed(db, w); }
    }
  }

  lemma BookPaymentKeeps(db: Db, w: nat, start: map<nat, int>)
    requires DepositsOk(db, start) && CommissionsOk(db) && w < |db.withdrawals|
    ensures var db' := BookPayment(db, w); DepositsOk(db', start) && CommissionsOk(db') && Grows(db, db')
  {
    MarkPaidKeeps(db, w);
    DepositsOnlyGrow(MarkPaid(db, w), BookPayment(db, w));
  }

  lemma ConfirmStepKeeps(plan: FeePlan, s: State, step: Step, start: map<nat, int>)
    requires Inv(s, start) && (step.ShowPreview? || step.CommitConfirm?)
    ensures var db' := NextDb(plan, s, step); DepositsOk(db', start) && CommissionsOk(db') && Grows(s.db, db')
  {
    if step.ShowPreview? {
      if step.affiliate < |s.db.affiliates| {
        PreviewKeepsCommissions(s.db, step.affiliate, step.p);
        CommissionsDoNotMatter(s.db, PreviewPeriod(s.db, step.affiliate, step.p), start);
      }
    } else if step.pid in s.confirming {
      var c := s.confirming[step.pid];
      if ConfirmDraft(s.db, c.affiliate, c.draft).Confirmed? {
        CommitKeeps(s.db, c, start);
      }
    }
  }

  lemma PayoutStepKeeps(plan: FeePlan, s: State, step: Step, start: map<nat, int>)
    requires Inv(s, start) && (step.Reject? || step.FinishPay? || step.TransferDone?)
    ensures var db' := NextDb(plan, s, step); DepositsOk(db', start) && CommissionsOk(db') && Grows(s.db, db')
  {
    if step.Reject? {
      ReleaseKeeps(s.db, step.w);
      CommissionsDoNotMatter(s.db, Release(s.db, step.w), start);
    } else if PaidBy(s, step).Some? {
      BookPaymentKeeps(s.db, PaidBy(s, step).value, start);
    }
  }

  lemma AdminStepKeeps(plan: FeePlan, s: State, step: Step, start: map<nat, int>)
    requires Inv(s, start) && (step.RequestWithdrawal? || step.Refer? || step.EditAffiliate?) && NextDb(plan, s, step) != s.db
    ensures var db' := NextDb(plan, s, step); DepositsOk(db', start) && CommissionsOk(db') && Grows(s.db, db')
  {
    var db, db' := s.db, NextDb(plan, s, step);
    CommissionsDoNotMatter(db, db', start);
    if step.RequestWithdrawal? { PlayerWithdrawalKeeps(db, step.amount); } else { DepositsOnlyGrow(db, db'); }
  }

  lemma DepositStepKeeps(plan: FeePlan, s: State, step: Step, start: map<nat, int>)
    requires Inv(s, start) && (step.AddDeposit? || step.CommitExpire?) && NextDb(plan, s, step) != s.db
    ensures var db' := NextDb(plan, s, step); DepositsOk(db', start) && CommissionsOk(db') && Grows(s.db, db')
  {
    var db, db' := s.db, NextDb(plan, s, step);
    if step.AddDeposit? {
      AddDepositKeeps(db, Deposit(step.user, step.amount, Pending, 0, None, None, step.bonusCode), start);
    } else {
      WriteExpiredKeeps(db, s.expiring[step.pid], start);
    }
    DepositsOnlyGrow(db, db');
  }

  lemma StepKeepsRows(plan: FeePlan, s: State, step: Step, start: map<nat, int>)
    requires Inv(s, start)
    ensures var db' := NextDb(plan, s, step); DepositsOk(db', start) && CommissionsOk(db') && Grows(s.db, db')
  {
    var db, db' := s.db, NextDb(plan, s, step);
    if db' != db {
      match step
      case AddDeposit(_, _, _) => DepositStepKeeps(plan, s, step, start);
      case CommitExpire(_) => DepositStepKeeps(plan, s, step, start);
      case Notify(id, gatewayNet, now) => NotifyKeeps(plan, db, id, gatewayNet, now, start);
      case ShowPreview(_, _) => ConfirmStepKeeps(plan, s, step, start);
      case CommitConfirm(_) => ConfirmStepKeeps(plan, s, step, start);
      case Reject(_) => PayoutStepKeeps(plan, s, step, start);
      case FinishPay(_, _) => PayoutStepKeeps(plan, s, step, start);
      case TransferDone(_) => PayoutStepKeeps(plan, s, step, start);
      case _ => AdminStepKeeps(plan, s, step, start);
    }
  }

  /** A step adds at most one withdrawal, and leaves the source and the amount of those there are. */
  lemma AtMostOneWithdrawal(plan: FeePlan, s: State, step: Step)
    ensures var db' := NextDb(plan, s, step);
            s.db.withdrawals <= db'.withdrawals && |db'.withdrawals| <= |s.db.withdrawals| + 1
  {
    if step.Notify? && Settleable(s.db, step.id) {
      CreateTouchesNoDeposit(Settled(plan, s.db, step.id, step.gatewayNet, step.now), step.id);
    }
  }

  lemma StepKeepsAligned(plan: FeePlan, s: State, step: Step, start: map<nat, int>)
    requires Inv(s, start) && Grows(s.db, NextDb(plan, s, step))
    ensures Aligned(Next(plan, s, step))
  {
    AtMostOneWithdrawal(plan, s, step);
    assert |NextPayouts(s, step)| == |s.payouts|;
  }

  lemma StepKeeps(plan: FeePlan, s: State, step: Step, start: map<nat, int>)
    requires Inv(s, start)
    ensures Inv(Next(plan, s, step), start) && Grows(s.db, Next(plan, s, step).db)
  {
    var s' := Next(plan, s, step);
    StepKeepsRows(plan, s, step, start);
    StepKeepsAligned(plan, s, step, start);
    forall pid | pid in s'.confirming
      ensures DraftOnce(s'.db, s'.confirming[pid])
    {
      if pid in s.confirming && s'.confirming[pid] == s.confirming[pid] {
        DraftSurvives(s.db, s'.db, s.confirming[pid]);
      } else {
        FreshDraftIsOk(s.db, step.affiliate, step.p);
        NewDraftOnce(s.db, s'.confirming[pid]);
      }
    }
  }

  lemma NewDraftOnce(db: Db, c: Confirming)
    requires DraftOk(db, c.affiliate, c.draft)
    ensures DraftOnce(db, c)
  {
    forall k | 0 <= k < |c.draft|
      ensures OldItemOk(db, c.affiliate, c.draft[k])
    {
      assert ItemOk(db, c.affiliate, c.draft[k]);
    }
  }

  /**
   * Along every run the invariants hold; deposits keep their owner, their amount and the fact that they were paid, paid
   * commissions are frozen, and a withdrawal without commissions stays so.
   */
  lemma {:induction false} RunKeeps(plan: FeePlan, s: State, steps: seq<Step>, start: map<nat, int>)
    requires Inv(s, start)
    ensures Inv(Run(plan, s, steps), start) && Grows(s.db, Run(plan, s, steps).db)
    decreases |steps|
  {
    if steps != [] {
      var next := Next(plan, s, steps[0]);
      StepKeeps(plan, s, steps[0], start);
      RunKeeps(plan, next, steps[1..], start);
      CommissionsGrowTransitive(s.db, next.db, Run(plan, s, steps).db);
    }
  }

  // --------------------------------------------------------------- main results

  /** No deposits, commissions or withdrawals yet. */
  ghost predicate Initial(s: State)
  {
    && s.db.deposits == [] && s.db.entries == [] && s.db.commissions == [] && s.db.withdrawals == []
    && s.db.signupBonuses == [] && s.confirming == map[] && s.expiring == map[]
    && s.payouts == [] && s.transfers == [] && s.paying == map[]
  }

  lemma InitialInv(s: State)
    requires Initial(s)
    ensures Inv(s, s.db.balances)
  {
  }

  /**
   * After any run: a commission is linked iff it is reserved or paid, to one existing withdrawal of its own
   * affiliate; every affiliate withdrawal with links is worth exactly its linked commissions; and the withdrawals
   * whose commissions are marked paid are worth exactly those commissions. What was really paid out, and which
   * withdrawals lose their links, is the matter of SettlementPayouts.
   */
  lemma CommissionsArePaidOnce(plan: FeePlan, s: State, steps: seq<Step>)
    requires Initial(s)
    ensures var db := Run(plan, s, steps).db;
            && OneRowPerDeposit(db.commissions)
            && (forall i :: 0 <= i < |db.commissions| ==> CommissionOk(db, db.commissions[i]))
            && (forall w :: 0 <= w < |db.withdrawals| ==> Backed(db, w))
            && PaidWithdrawals(db, |db.withdrawals|) == Sum(db.commissions, PaidAmount)
  {
    InitialInv(s);
    RunKeeps(plan, s, steps, s.db.balances);
    PayoutsMatchCommissions(Run(plan, s, steps).db);
  }

  /**
   * For commissions the first of release and payment decides for good: whatever happens in between, those of a withdrawal
   * paid at one point of a run are never released later, and those released are never marked paid for it later.
   */
  lemma FirstComeDecidesForGood(plan: FeePlan, s: State, steps: seq<Step>, start: map<nat, int>, w: nat)
    requires Inv(s, start)
    ensures Inv(Run(plan, s, steps), start)
    ensures IsPaidOut(s.db, w) ==> Release(Run(plan, s, steps).db, w) == Run(plan, s, steps).db
    ensures IsReleased(s.db, w) ==> MarkPaid(Run(plan, s, steps).db, w) == Run(plan, s, steps).db
  {
    RunKeeps(plan, s, steps, start);
    PaidStaysPaid(s.db, Run(plan, s, steps).db, w);
    ReleasedStaysReleased(s.db, Run(plan, s, steps).db, w);
  }

  lemma PaidStaysPaid(db: Db, db': Db, w: nat)
    requires CommissionsGrow(db, db') && CommissionsOk(db')
    ensures IsPaidOut(db, w) ==> Release(db', w) == db'
  {
    if IsPaidOut(db, w) {
      var i :| 0 <= i < |db.commissions| && db.commissions[i].withdrawal == Some(w) && db.commissions[i].status.PaidOut?;
      assert db'.commissions[i] == db.commissions[i];
      assert Release(db', w).commissions == db'.commissions;
    }
  }

  lemma ReleasedStaysReleased(db: Db, db': Db, w: nat)
    requires CommissionsGrow(db, db')
    ensures IsReleased(db, w) ==> MarkPaid(db', w) == db'
  {
    if IsReleased(db, w) {
      assert MarkPaid(db', w).commissions == db'.commissions;
    }
  }

  /** Two confirmations of overlapping drafts: at most one of them goes through. */
  lemma OverlappingConfirmations(db: Db, a: Confirming, b: Confirming, c: nat)
    requires Existing(c) in a.draft && Existing(c) in b.draft
    requires ConfirmDraft(db, a.affiliate, a.draft).Confirmed?
    ensures ConfirmDraft(ConfirmDraft(db, a.affiliate, a.draft).db, b.affiliate, b.draft).Refused?
  {
  }
}
