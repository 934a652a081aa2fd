/**
 * Deposits, the finance ledger, affiliate commissions and their withdrawals, as database rows. Money is whole
 * hundredths, percentages are hundredths of a percent, ids are positions.
 */
module Books {
  import opened Numbers

  // ------------------------------------------------------------------ rows

  datatype DepositStatus = Pending | Paid | Expired | Cancelled

  datatype Deposit = Deposit(
    user: nat,
    amount: int,
    status: DepositStatus,
    paidAt: int,
    fee: Option<int>,
    net: Option<int>,
    bonusCode: Option<nat>)

  datatype EntryKind = DepositIn | GatewayFeeOut | WithdrawalOut

  /** `reference` is the deposit, or for WithdrawalOut the withdrawal, that the entry is booked for. */
  datatype Entry = Entry(kind: EntryKind, amount: int, reference: nat)

  datatype Affiliate = Affiliate(percent: nat, active: bool, hasPixKey: bool)

  datatype CommissionStatus = Open | Reserved | PaidOut

  datatype Commission = Commission(
    affiliate: nat,
    deposit: nat,
    base: int,
    amount: int,
    status: CommissionStatus,
    withdrawal: Option<nat>)

  datatype Source = Player | AffiliateCommission(affiliate: nat)

  datatype Withdrawal = Withdrawal(source: Source, amount: int)

  /** signupBonuses lists the users the affiliate-signup branch ran for, in order. */
  datatype Db = Db(
    deposits: seq<Deposit>,
    balances: map<nat, int>,
    referrers: map<nat, nat>,
    affiliates: seq<Affiliate>,
    codes: map<nat, nat>,
    entries: seq<Entry>,
    commissions: seq<Commission>,
    withdrawals: seq<Withdrawal>,
    signupBonuses: seq<nat>)

  // ------------------------------------------------------------- commissions

  /** The commission of a deposit; deposit_id is unique. */
  function Find(commissions: seq<Commission>, deposit: nat): (r: Option<nat>)
    ensures r.Some? ==> r.value < |commissions| && commissions[r.value].deposit == deposit
    ensures r.None? ==> forall i :: 0 <= i < |commissions| ==> commissions[i].deposit != deposit
  {
    if commissions == [] then None
    else if commissions[|commissions| - 1].deposit == deposit then Some(|commissions| - 1)
    else Find(commissions[..|commissions| - 1], deposit)
  }

  /** The net amount if known, else the gross amount less a plausible fee. */
  function CommissionBase(d: Deposit): int
  {
    if d.net.Some? && d.net.value > 0 then d.net.value
    else if d.fee.Some? && 0 < d.fee.value < d.amount then d.amount - d.fee.value
    else d.amount
  }

  /** round(base * (percent / 100), 2) */
  function CommissionAmount(base: int, percent: nat): int
  {
    if base <= 0 then 0 else RoundedQuotient(base * percent, 10000)
  }

  function NewCommission(db: Db, affiliate: nat, deposit: nat): Commission
    requires affiliate < |db.affiliates| && deposit < |db.deposits|
  {
    var base := CommissionBase(db.deposits[deposit]);
    Commission(affiliate, deposit, base, CommissionAmount(base, db.affiliates[affiliate].percent), Open, None)
  }

  predicate IsActive(db: Db, affiliate: nat)
  {
    affiliate < |db.affiliates| && db.affiliates[affiliate].active
  }

  /** createFromDeposit: the player's own affiliate, else the one behind the deposit's code, else nobody. */
  function CreateFromDeposit(db: Db, deposit: nat): Db
    requires deposit < |db.deposits|
  {
    var d := db.deposits[deposit];
    if d.user in db.referrers && IsActive(db, db.referrers[d.user]) then
      AddCommission(db, db.referrers[d.user], deposit)
    else if d.bonusCode.Some? && d.bonusCode.value in db.codes && IsActive(db, db.codes[d.bonusCode.value]) then
      var affiliate := db.codes[d.bonusCode.value];
      AddCommission(if d.user in db.referrers then db else db.(referrers := db.referrers[d.user := affiliate]),
                    affiliate, deposit)
    else db
  }

  /** firstOrCreate by deposit_id, if the amount is positive. */
  function AddCommission(db: Db, affiliate: nat, deposit: nat): Db
    requires affiliate < |db.affiliates| && deposit < |db.deposits|
  {
    var row := NewCommission(db, affiliate, deposit);
    if row.amount <= 0 || Find(db.commissions, deposit).Some? then db
    else db.(commissions := db.commissions + [row])
  }

  // ---------------------------------------------------------------- deposits

  /** The configured PIX fee: a percentage and a fixed part. */
  datatype FeePlan = FeePlan(percent: int, fixed: int)

  function PixFee(plan: FeePlan, gross: nat): int
  {
    Min(gross, RoundedQuotient(gross * Max(0, plan.percent), 10000) + Max(0, plan.fixed))
  }

  datatype Fee = Fee(fee: int, net: int)

  /** Prefer the gateway's net value; otherwise the configured fee. */
  function ResolveFee(plan: FeePlan, gross: nat, gatewayNet: Option<int>): Fee
  {
    if gatewayNet.Some? && gatewayNet.value >= 0 then
      var net := Min(gross, gatewayNet.value);
      Fee(Max(0, gross - net), net)
    else
      var fee := PixFee(plan, gross);
      Fee(fee, Max(0, gross - fee))
  }

  /** Some deposit of this user other than `except` is paid. */
  predicate PaidBefore(deposits: seq<Deposit>, user: nat, except: nat)
  {
    exists i :: 0 <= i < |deposits| && i != except && deposits[i].user == user && deposits[i].status.Paid?
  }

  predicate Settleable(db: Db, id: nat)
  {
    id < |db.deposits| && (db.deposits[id].status.Pending? || db.deposits[id].status.Expired?)
    && db.deposits[id].user in db.balances
  }

  function Credited(balances: map<nat, int>, user: nat, amount: int): map<nat, int>
    requires user in balances
  {
    if amount <= 0 then balances else balances[user := balances[user] + amount]
  }

  function PaidRow(d: Deposit, f: Fee, now: int): Deposit
  {
    d.(status := Paid, paidAt := now, fee := Some(f.fee), net := Some(f.net))
  }

  function EntriesOf(id: nat, gross: int, fee: int): seq<Entry>
  {
    [Entry(DepositIn, gross, id)] + if fee > 0 then [Entry(GatewayFeeOut, fee, id)] else []
  }

  /** settlePaid: credit, ledger, signup branch, commission, all in one transaction. */
  function SettlePaid(plan: FeePlan, db: Db, id: nat, gatewayNet: Option<int>, now: int): Db
  {
    if !Settleable(db, id) then db
    else
      var d := db.deposits[id];
      var f := ResolveFee(plan, Max(0, d.amount), gatewayNet);
      var firstReferred := !PaidBefore(db.deposits, d.user, id) && d.user in db.referrers;
      CreateFromDeposit(
        db.(balances := Credited(db.balances, d.user, d.amount),
            signupBonuses := db.signupBonuses + (if firstReferred then [d.user] else []),
            deposits := db.deposits[id := PaidRow(d, f, now)],
            entries := db.entries + EntriesOf(id, d.amount, f.fee)),
        id)
  }

  /** The deposit was paid at some time: settlePaid leaves its fee on the row, whatever status is written later. */
  predicate WasPaid(d: Deposit)
  {
    d.status.Paid? || d.fee.Some?
  }

  /** The expiry's last write: it looks at nothing. */
  function WriteExpired(db: Db, id: nat): Db
    requires id < |db.deposits|
  {
    db.(deposits := db.deposits[id := db.deposits[id].(status := Expired)])
  }

  // ------------------------------------------------------- preview and confirm

  /** From the first to the last millisecond of the period. */
  datatype Period = Period(from: int, to: int)

  function InsertByPaidAt(deposits: seq<Deposit>, ids: seq<nat>, id: nat): (r: seq<nat>)
    requires id < |deposits| && forall k :: 0 <= k < |ids| ==> ids[k] < |deposits|
    ensures forall k :: 0 <= k < |r| ==> r[k] < |deposits|
  {
    var n := |ids| - 1;
    if ids == [] || deposits[ids[n]].paidAt <= deposits[id].paidAt then ids + [id]
    else InsertByPaidAt(deposits, ids[..n], id) + [ids[n]]
  }

  predicate Eligible(db: Db, affiliate: nat, p: Period, id: nat)
    requires id < |db.deposits|
  {
    var d := db.deposits[id];
    d.status.Paid? && d.user in db.referrers && db.referrers[d.user] == affiliate && p.from <= d.paidAt <= p.to
  }

  /** The paid deposits of the affiliate's players in the period, by paid_at; ties in id order. */
  function EligibleBelow(db: Db, affiliate: nat, p: Period, n: nat): (ids: seq<nat>)
    requires n <= |db.deposits|
    ensures forall k :: 0 <= k < |ids| ==> ids[k] < |db.deposits|
  {
    if n == 0 then []
    else if Eligible(db, affiliate, p, n - 1) then InsertByPaidAt(db.deposits, EligibleBelow(db, affiliate, p, n - 1), n - 1)
    else EligibleBelow(db, affiliate, p, n - 1)
  }

  function EligibleDeposits(db: Db, affiliate: nat, p: Period): (ids: seq<nat>)
    ensures forall k :: 0 <= k < |ids| ==> ids[k] < |db.deposits|
  {
    EligibleBelow(db, affiliate, p, |db.deposits|)
  }

  /** A line of a preview: an open commission row, or one the preview has to create. */
  datatype Item = Existing(row: nat) | Missing(commission: Commission)

  /** What the preview loop makes of one deposit. */
  function ItemOf(db: Db, affiliate: nat, deposit: nat): Option<Item>
    requires affiliate < |db.affiliates| && deposit < |db.deposits|
  {
    match Find(db.commissions, deposit)
    case Some(c) =>
      if db.commissions[c].status.Open? && db.commissions[c].affiliate == affiliate then Some(Existing(c)) else None
    case None =>
      var row := NewCommission(db, affiliate, deposit);
      if row.amount <= 0 then None else Some(Missing(row))
  }

  function DraftOf(db: Db, affiliate: nat, ids: seq<nat>): seq<Item>
    requires affiliate < |db.affiliates| && forall k :: 0 <= k < |ids| ==> ids[k] < |db.deposits|
  {
    if ids == [] then []
    else
      var rest := DraftOf(db, affiliate, ids[..|ids| - 1]);
      match ItemOf(db, affiliate, ids[|ids| - 1])
      case None => rest
      case Some(item) => rest + [item]
  }

  /** The preview of one affiliate: its lines before the missing rows are created. */
  function Draft(db: Db, affiliate: nat, p: Period): seq<Item>
    requires affiliate < |db.affiliates|
  {
    DraftOf(db, affiliate, EligibleDeposits(db, affiliate, p))
  }

  function MissingRows(draft: seq<Item>): seq<Commission>
  {
    if draft == [] then []
    else
      var last := draft[|draft| - 1];
      MissingRows(draft[..|draft| - 1]) + if last.Missing? then [last.commission] else []
  }

  function ItemAmount(commissions: seq<Commission>, item: Item): int
  {
    match item
    case Existing(c) => if c < |commissions| then commissions[c].amount else 0
    case Missing(row) => row.amount
  }

  function DraftTotal(commissions: seq<Commission>, draft: seq<Item>): int
  {
    if draft == [] then 0
    else DraftTotal(commissions, draft[..|draft| - 1]) + ItemAmount(commissions, draft[|draft| - 1])
  }

  /** previewPeriod creates the missing rows. */
  function PreviewPeriod(db: Db, affiliate: nat, p: Period): Db
    requires affiliate < |db.affiliates|
  {
    db.(commissions := db.commissions + MissingRows(Draft(db, affiliate, p)))
  }

  datatype PreviewRow = PreviewRow(affiliate: nat, total: int, count: nat, canConfirm: bool)

  function RowFor(db: Db, affiliate: nat, p: Period): PreviewRow
    requires affiliate < |db.affiliates|
  {
    var draft := Draft(db, affiliate, p);
    var total := DraftTotal(db.commissions, draft);
    PreviewRow(affiliate, total, |draft|, |draft| > 0 && total > 0 && db.affiliates[affiliate].hasPixKey)
  }

  datatype Preview = Preview(db: Db, rows: seq<PreviewRow>)

  /** previewAll over the affiliates of id below n. */
  function PreviewAll(db: Db, p: Period, n: nat): (r: Preview)
    requires n <= |db.affiliates|
    ensures r.db.affiliates == db.affiliates
  {
    if n == 0 then Preview(db, [])
    else
      var before := PreviewAll(db, p, n - 1);
      if !db.affiliates[n - 1].active then before
      else Preview(PreviewPeriod(before.db, n - 1, p), before.rows + [RowFor(before.db, n - 1, p)])
  }

  /** The commissions a withdrawal of this draft reserves: its existing rows, and the rows it has just created. */
  function Covered(draft: seq<Item>, firstNew: nat, i: nat): bool
  {
    firstNew <= i || exists k :: 0 <= k < |draft| && draft[k] == Existing(i)
  }

  /** The rows after the lock: a draft row is gone, or another call created one of the missing rows. */
  predicate Outdated(db: Db, draft: seq<Item>)
  {
    exists k :: 0 <= k < |draft| &&
      match draft[k]
      case Existing(c) => !(c < |db.commissions| && db.commissions[c].status.Open?)
      case Missing(row) => Find(db.commissions, row.deposit).Some?
  }

  function Reserve(c: Commission, withdrawal: nat): Commission
  {
    c.(status := Reserved, withdrawal := Some(withdrawal))
  }

  datatype Confirmation = Confirmed(db: Db, withdrawal: nat, amount: int) | Refused

  /** confirmPeriod from the lock on: a refusal undoes everything, the created rows included. */
  function ConfirmDraft(db: Db, affiliate: nat, draft: seq<Item>): Confirmation
  {
    var total := DraftTotal(db.commissions, draft);
    if draft == [] || total <= 0 || Outdated(db, draft) then Refused
    else
      var firstNew, w := |db.commissions|, |db.withdrawals|;
      var rows := db.commissions + MissingRows(draft);
      Confirmed(
        db.(withdrawals := db.withdrawals + [Withdrawal(AffiliateCommission(affiliate), total)],
            commissions := seq(|rows|, i requires 0 <= i < |rows| =>
              if Covered(draft, firstNew, i) then Reserve(rows[i], w) else rows[i])),
        w, total)
  }

  /** confirmPeriod with no other call in between. */
  function ConfirmPeriod(db: Db, affiliate: nat, p: Period): Confirmation
  {
    if !IsActive(db, affiliate) || !db.affiliates[affiliate].hasPixKey then Refused
    else ConfirmDraft(db, affiliate, Draft(db, affiliate, p))
  }

  datatype Payment = Payment(affiliate: nat, amount: int)

  datatype Batch = Batch(db: Db, created: seq<Payment>)

  /** confirmAll over the affiliates of id below n. */
  function ConfirmAll(db: Db, p: Period, n: nat): (r: Batch)
    requires n <= |db.affiliates|
    ensures r.db.affiliates == db.affiliates
  {
    if n == 0 then Batch(db, [])
    else
      var before := ConfirmAll(db, p, n - 1);
      match ConfirmPeriod(before.db, n - 1, p)
      case Refused => before
      case Confirmed(db', _, amount) => Batch(db', before.created + [Payment(n - 1, amount)])
  }

  // ------------------------------------------------------ release and payment

  function Released(c: Commission, w: nat): Commission
  {
    if c.withdrawal == Some(w) && c.status.Reserved? then c.(status := Open, withdrawal := None) else c
  }

  function MarkedPaid(c: Commission, w: nat): Commission
  {
    if c.withdrawal == Some(w) && c.status.Reserved? then c.(status := PaidOut) else c
  }

  function Release(db: Db, w: nat): Db
  {
    if w < |db.withdrawals| && db.withdrawals[w].source.AffiliateCommission? then
      db.(commissions := seq(|db.commissions|, i requires 0 <= i < |db.commissions| => Released(db.commissions[i], w)))
    else db
  }

  function MarkPaid(db: Db, w: nat): Db
  {
    if w < |db.withdrawals| && db.withdrawals[w].source.AffiliateCommission? then
      db.(commissions := seq(|db.commissions|, i requires 0 <= i < |db.commissions| => MarkedPaid(db.commissions[i], w)))
    else db
  }

  /** What markPaid of the payout service writes besides the withdrawal's status: its commissions, and one outflow. */
  function BookPayment(db: Db, w: nat): Db
    requires w < |db.withdrawals|
  {
    MarkPaid(db, w).(entries := db.entries + [Entry(WithdrawalOut, db.withdrawals[w].amount, w)])
  }
}
