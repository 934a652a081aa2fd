/**
 * How often a deposit is credited. settlePaid tests and sets the status under a lock; the expiry looks at the status,
 * talks to the provider, and then writes without a lock or a condition. Its write can meet a deposit that was paid in
 * between, and the next notification credits that deposit again.
 */
module SettlementDeposits {
  import opened Numbers
  import opened Sums
  import opened Books
  import opened DepositInvariant
  import opened CommissionInvariant
  import opened SettlementRuns

  /** The step's expiry overwrites a row that says paid. */
  ghost predicate Overwrites(s: State, step: Step)
  {
    && step.CommitExpire? && step.pid in s.expiring && s.expiring[step.pid] < |s.db.deposits|
    && s.db.deposits[s.expiring[step.pid]].status.Paid?
  }

  /** The step's notification meets a deposit that was paid and then overwritten. */
  ghost predicate SettlesAgain(s: State, step: Step)
  {
    step.Notify? && Settleable(s.db, step.id) && WasPaid(s.db.deposits[step.id])
  }

  /** The step's notification runs the signup branch for a user who has the bonus. */
  ghost predicate BonusAgain(s: State, step: Step)
  {
    && step.Notify? && Settleable(s.db, step.id)
    && var u := s.db.deposits[step.id].user;
       !PaidBefore(s.db.deposits, u, step.id) && u in s.db.referrers && u in s.db.signupBonuses
  }

  ghost predicate AtMostOnce(db: Db)
  {
    forall id: nat :: id < |db.deposits| ==> Credits(db, id) <= 1
  }

  // -------------------------------------------------------------------- one step

  lemma NotifyRows(plan: FeePlan, db: Db, id: nat, gatewayNet: Option<int>, now: int)
    requires Settleable(db, id)
    ensures var db', mid := SettlePaid(plan, db, id, gatewayNet, now), Settled(plan, db, id, gatewayNet, now);
            && db'.deposits == mid.deposits && db'.entries == mid.entries && db'.signupBonuses == mid.signupBonuses
            && db'.deposits[id].status.Paid? && db'.deposits[id].user == db.deposits[id].user
            && (forall i :: 0 <= i < |db.deposits| && i != id ==> db'.deposits[i] == db.deposits[i])
  {
    CreateTouchesNoDeposit(Settled(plan, db, id, gatewayNet, now), id);
  }

  /** Steps but notifications, payments and new deposits leave the ledger and the deposits alone; expiries a status. */
  lemma QuietStep(plan: FeePlan, s: State, step: Step)
    requires !step.Notify? && PaidBy(s, step).None? && !step.AddDeposit? && !step.CommitExpire?
    ensures var db' := NextDb(plan, s, step);
            db'.entries == s.db.entries && db'.deposits == s.db.deposits && db'.signupBonuses == s.db.signupBonuses
  {
  }

  /** The number of credits grows by one exactly for the deposit a notification settles. */
  lemma CreditsAfter(plan: FeePlan, s: State, step: Step, start: map<nat, int>, id: nat)
    requires Inv(s, start) && id < |s.db.deposits|
    ensures Credits(NextDb(plan, s, step), id)
         == Credits(s.db, id) + (if step.Notify? && step.id == id && Settleable(s.db, id) then 1 else 0)
  {
    if step.Notify? {
      if Settleable(s.db, step.id) {
        NotifyRows(plan, s.db, step.id, step.gatewayNet, step.now);
        SettleCounts(plan, s.db, step.id, step.gatewayNet, step.now, DepositIn, id);
      }
    } else if PaidBy(s, step).Some? {
      PaymentCredits(s.db, PaidBy(s, step).value, id);
    } else if !step.AddDeposit? && !step.CommitExpire? {
      QuietStep(plan, s, step);
    }
  }

  /** A new deposit has no credits. */
  lemma NewDepositUncredited(plan: FeePlan, s: State, step: Step, start: map<nat, int>, id: nat)
    requires Inv(s, start) && |s.db.deposits| <= id < |NextDb(plan, s, step).deposits|
    ensures Credits(NextDb(plan, s, step), id) == 0 && NextDb(plan, s, step).deposits[id].status.Pending?
  {
    if step.Notify? && Settleable(s.db, step.id) {
      NotifyRows(plan, s.db, step.id, step.gatewayNet, step.now);
    } else if !step.AddDeposit? && !step.CommitExpire? && PaidBy(s, step).None? && !step.Notify? {
      QuietStep(plan, s, step);
    }
    NothingBeyond(s.db, id, DepositIn);
  }

  lemma StatusAfter(plan: FeePlan, s: State, step: Step, start: map<nat, int>, id: nat)
    requires Inv(s, start) && id < |s.db.deposits|
    ensures id < |NextDb(plan, s, step).deposits|
    ensures NextDb(plan, s, step).deposits[id].status.Paid?
       <==> if step.Notify? && step.id == id && Settleable(s.db, id) then true
            else s.db.deposits[id].status.Paid? && !(step.CommitExpire? && step.pid in s.expiring && s.expiring[step.pid] == id)
  {
    if step.Notify? {
      if Settleable(s.db, step.id) {
        NotifyRows(plan, s.db, step.id, step.gatewayNet, step.now);
      }
    } else if PaidBy(s, step).None? && !step.AddDeposit? && !step.CommitExpire? {
      QuietStep(plan, s, step);
    }
  }

  lemma StepAtMostOnce(plan: FeePlan, s: State, step: Step, start: map<nat, int>)
    requires Inv(s, start)
    ensures AtMostOnce(NextDb(plan, s, step)) <==> AtMostOnce(s.db) && !SettlesAgain(s, step)
  {
    var db' := NextDb(plan, s, step);
    StepKeepsRows(plan, s, step, start);
    forall id: nat | id < |s.db.deposits|
      ensures Credits(db', id) == Credits(s.db, id) + (if step.Notify? && step.id == id && Settleable(s.db, id) then 1 else 0)
    {
      CreditsAfter(plan, s, step, start, id);
    }
    forall id: nat | |s.db.deposits| <= id < |db'.deposits|
      ensures Credits(db', id) == 0
    {
      NewDepositUncredited(plan, s, step, start, id);
    }
    if step.Notify? && Settleable(s.db, step.id) && !WasPaid(s.db.deposits[step.id]) {
      UnpaidHasNoEntries(s.db, step.id, DepositIn);
    }
  }

  /** The claim of StatusTells about one deposit. */
  lemma TellsAfter(plan: FeePlan, s: State, step: Step, start: map<nat, int>, id: nat)
    requires Inv(s, start) && id < |s.db.deposits|
    ensures id < |NextDb(plan, s, step).deposits|
    ensures Tells(NextDb(plan, s, step), id) <==> Tells(s.db, id) && !(Overwrites(s, step) && s.expiring[step.pid] == id)
  {
    CreditsAfter(plan, s, step, start, id);
    StatusAfter(plan, s, step, start, id);
    CreditsAtLeastStatus(s.db, id);
  }

  lemma StepStatusTells(plan: FeePlan, s: State, step: Step, start: map<nat, int>)
    requires Inv(s, start)
    ensures StatusTells(NextDb(plan, s, step)) <==> StatusTells(s.db) && !Overwrites(s, step)
  {
    var db' := NextDb(plan, s, step);
    StepKeepsRows(plan, s, step, start);
    forall id: nat | id < |s.db.deposits|
      ensures Tells(db', id) <==> Tells(s.db, id) && !(Overwrites(s, step) && s.expiring[step.pid] == id)
    {
      TellsAfter(plan, s, step, start, id);
    }
    forall id: nat | |s.db.deposits| <= id < |db'.deposits|
      ensures Tells(db', id)
    {
      NewDepositUncredited(plan, s, step, start, id);
    }
    if Overwrites(s, step) {
      assert !Tells(db', s.expiring[step.pid]);
    } else if !StatusTells(s.db) {
      var id: nat :| id < |s.db.deposits| && !Tells(s.db, id);
      assert !Tells(db', id);
    }
  }

  /** Only an overwritten deposit is settled again. */
  lemma SettlesAgainAfterOverwriting(s: State, step: Step, start: map<nat, int>)
    requires Inv(s, start) && StatusTells(s.db)
    ensures !SettlesAgain(s, step)
  {
    if step.Notify? && Settleable(s.db, step.id) {
      assert Tells(s.db, step.id);
    }
  }

  lemma StepBookedOnce(plan: FeePlan, s: State, step: Step, start: map<nat, int>)
    requires Inv(s, start) && BookedOnce(s.db) && !SettlesAgain(s, step)
    ensures BookedOnce(NextDb(plan, s, step))
  {
    if step.Notify? {
      if Settleable(s.db, step.id) {
        SettleKeepsOnce(plan, s.db, step.id, step.gatewayNet, step.now, start);
        NotifyRows(plan, s.db, step.id, step.gatewayNet, step.now);
      }
    } else if PaidBy(s, step).Some? {
      PaymentKeepsOnce(s.db, PaidBy(s, step).value);
    } else if step.CommitExpire? {
      if step.pid in s.expiring { WriteExpiredKeepsOnce(s.db, s.expiring[step.pid], start); }
    } else if step.AddDeposit? {
      AddDepositKeepsOnce(s.db, Deposit(step.user, step.amount, Pending, 0, None, None, step.bonusCode), start);
    } else {
      QuietStep(plan, s, step);
    }
  }

  /** The bonuses after a step: one more exactly if a notification runs the branch. */
  lemma BonusesAfter(plan: FeePlan, s: State, step: Step)
    ensures NextDb(plan, s, step).signupBonuses
         == s.db.signupBonuses
            + (if step.Notify? && Settleable(s.db, step.id)
                  && !PaidBefore(s.db.deposits, s.db.deposits[step.id].user, step.id)
                  && s.db.deposits[step.id].user in s.db.referrers
               then [s.db.deposits[step.id].user] else [])
  {
    if step.Notify? {
      if Settleable(s.db, step.id) {
        NotifyRows(plan, s.db, step.id, step.gatewayNet, step.now);
      }
    } else if PaidBy(s, step).None? && !step.AddDeposit? && !step.CommitExpire? {
      QuietStep(plan, s, step);
    }
  }

  lemma StepNoBonusTwice(plan: FeePlan, s: State, step: Step)
    ensures NoBonusTwice(NextDb(plan, s, step)) <==> NoBonusTwice(s.db) && !BonusAgain(s, step)
  {
    BonusesAfter(plan, s, step);
    var bonuses, bonuses' := s.db.signupBonuses, NextDb(plan, s, step).signupBonuses;
    if BonusAgain(s, step) {
      var i :| 0 <= i < |bonuses| && bonuses[i] == s.db.deposits[step.id].user;
      assert bonuses'[i] == bonuses'[|bonuses|];
    } else if !NoBonusTwice(s.db) {
      var i, j :| 0 <= i < j < |bonuses| && bonuses[i] == bonuses[j];
      assert bonuses'[i] == bonuses'[j];
    }
  }

  lemma StepBonusesBacked(plan: FeePlan, s: State, step: Step, start: map<nat, int>)
    requires Inv(s, start) && BonusesBacked(s.db) && !Overwrites(s, step)
    ensures BonusesBacked(NextDb(plan, s, step))
    ensures !BonusAgain(s, step)
  {
    var db' := NextDb(plan, s, step);
    BonusesAfter(plan, s, step);
    StepKeepsRows(plan, s, step, start);
    forall u | u in db'.signupBonuses
      ensures PaidBefore(db'.deposits, u, |db'.deposits|)
    {
      if u in s.db.signupBonuses {
        PaidDepositStays(plan, s, step, start, u);
      } else {
        NotifyRows(plan, s.db, step.id, step.gatewayNet, step.now);
        assert db'.deposits[step.id].user == u && db'.deposits[step.id].status.Paid?;
      }
    }
    if step.Notify? && Settleable(s.db, step.id) && s.db.deposits[step.id].user in s.db.signupBonuses {
      var u := s.db.deposits[step.id].user;
      var i :| 0 <= i < |s.db.deposits| && i != |s.db.deposits| && s.db.deposits[i].user == u && s.db.deposits[i].status.Paid?;
      assert i != step.id;
    }
  }

  lemma PaidDepositStays(plan: FeePlan, s: State, step: Step, start: map<nat, int>, u: nat)
    requires Inv(s, start) && !Overwrites(s, step) && PaidBefore(s.db.deposits, u, |s.db.deposits|)
    ensures PaidBefore(NextDb(plan, s, step).deposits, u, |NextDb(plan, s, step).deposits|)
  {
    var i :| 0 <= i < |s.db.deposits| && i != |s.db.deposits| && s.db.deposits[i].user == u && s.db.deposits[i].status.Paid?;
    StatusAfter(plan, s, step, start, i);
    StepKeepsRows(plan, s, step, start);
    assert NextDb(plan, s, step).deposits[i].user == u;
  }

  // ------------------------------------------------------------------------ runs

  ghost predicate SomeOverwrites(plan: FeePlan, s: State, steps: seq<Step>)
    decreases |steps|
  {
    steps != [] && (Overwrites(s, steps[0]) || SomeOverwrites(plan, Next(plan, s, steps[0]), steps[1..]))
  }

  ghost predicate SomeSettlesAgain(plan: FeePlan, s: State, steps: seq<Step>)
    decreases |steps|
  {
    steps != [] && (SettlesAgain(s, steps[0]) || SomeSettlesAgain(plan, Next(plan, s, steps[0]), steps[1..]))
  }

  ghost predicate SomeBonusAgain(plan: FeePlan, s: State, steps: seq<Step>)
    decreases |steps|
  {
    steps != [] && (BonusAgain(s, steps[0]) || SomeBonusAgain(plan, Next(plan, s, steps[0]), steps[1..]))
  }

  lemma {:induction false} AtMostOnceAlong(plan: FeePlan, s: State, steps: seq<Step>, start: map<nat, int>)
    requires Inv(s, start)
    ensures AtMostOnce(Run(plan, s, steps).db) <==> AtMostOnce(s.db) && !SomeSettlesAgain(plan, s, steps)
    decreases |steps|
  {
    if steps != [] {
      StepKeeps(plan, s, steps[0], start);
      StepAtMostOnce(plan, s, steps[0], start);
      AtMostOnceAlong(plan, Next(plan, s, steps[0]), steps[1..], start);
    }
  }

  lemma {:induction false} StatusTellsAlong(plan: FeePlan, s: State, steps: seq<Step>, start: map<nat, int>)
    requires Inv(s, start)
    ensures StatusTells(Run(plan, s, steps).db) <==> StatusTells(s.db) && !SomeOverwrites(plan, s, steps)
    decreases |steps|
  {
    if steps != [] {
      StepKeeps(plan, s, steps[0], start);
      StepStatusTells(plan, s, steps[0], start);
      StatusTellsAlong(plan, Next(plan, s, steps[0]), steps[1..], start);
    }
  }

  lemma {:induction false} BookedOnceAlong(plan: FeePlan, s: State, steps: seq<Step>, start: map<nat, int>)
    requires Inv(s, start) && BookedOnce(s.db) && !SomeSettlesAgain(plan, s, steps)
    ensures BookedOnce(Run(plan, s, steps).db)
    decreases |steps|
  {
    if steps != [] {
      StepKeeps(plan, s, steps[0], start);
      StepBookedOnce(plan, s, steps[0], start);
      BookedOnceAlong(plan, Next(plan, s, steps[0]), steps[1..], start);
    }
  }

  lemma {:induction false} NoBonusTwiceAlong(plan: FeePlan, s: State, steps: seq<Step>)
    ensures NoBonusTwice(Run(plan, s, steps).db) <==> NoBonusTwice(s.db) && !SomeBonusAgain(plan, s, steps)
    decreases |steps|
  {
    if steps != [] {
      StepNoBonusTwice(plan, s, steps[0]);
      NoBonusTwiceAlong(plan, Next(plan, s, steps[0]), steps[1..]);
    }
  }

  /** Without an overwriting expiry, no deposit is settled again and no signup branch runs again. */
  lemma {:induction false} OverwritingComesFirst(plan: FeePlan, s: State, steps: seq<Step>, start: map<nat, int>)
    requires Inv(s, start) && StatusTells(s.db) && BonusesBacked(s.db) && !SomeOverwrites(plan, s, steps)
    ensures !SomeSettlesAgain(plan, s, steps) && !SomeBonusAgain(plan, s, steps)
    decreases |steps|
  {
    if steps != [] {
      StepKeeps(plan, s, steps[0], start);
      SettlesAgainAfterOverwriting(s, steps[0], start);
      StepStatusTells(plan, s, steps[0], start);
      StepBonusesBacked(plan, s, steps[0], start);
      OverwritingComesFirst(plan, Next(plan, s, steps[0]), steps[1..], start);
    }
  }

  lemma InitialBooks(s: State)
    requires Initial(s)
    ensures AtMostOnce(s.db) && StatusTells(s.db) && BookedOnce(s.db) && NoBonusTwice(s.db) && BonusesBacked(s.db)
  {
  }

  /**
   * Exactly once, exactly when. After any run:
   * no deposit was credited twice if and only if no notification met a deposit that had been paid and overwritten;
   * and that is if and only if the books are exact: one entry for the gross amount of each deposit that was paid, one for
   * a positive fee, no others, and a balance that is their nets less all payouts.
   */
  lemma DepositsSettleOnce(plan: FeePlan, s: State, steps: seq<Step>)
    requires Initial(s)
    ensures AtMostOnce(Run(plan, s, steps).db) <==> !SomeSettlesAgain(plan, s, steps)
    ensures BookedOnce(Run(plan, s, steps).db) <==> !SomeSettlesAgain(plan, s, steps)
  {
    InitialInv(s);
    InitialBooks(s);
    AtMostOnceAlong(plan, s, steps, s.db.balances);
    if !SomeSettlesAgain(plan, s, steps) {
      BookedOnceAlong(plan, s, steps, s.db.balances);
    }
    var db := Run(plan, s, steps).db;
    if BookedOnce(db) {
      forall id: nat | id < |db.deposits|
        ensures Credits(db, id) <= 1
      {
        assert Sum(db.entries, IsEntry(DepositIn, id)) == Due(db.deposits[id], DepositIn);
      }
    }
  }

  /**
   * A deposit has its one entry iff its row says paid, for every deposit after the run, if and only if no expiry of the run
   * wrote over a paid row; then no deposit was credited twice, and no signup branch ran twice.
   */
  lemma ExpiryIsTheOnlyCause(plan: FeePlan, s: State, steps: seq<Step>)
    requires Initial(s)
    ensures StatusTells(Run(plan, s, steps).db) <==> !SomeOverwrites(plan, s, steps)
    ensures !SomeOverwrites(plan, s, steps) ==> AtMostOnce(Run(plan, s, steps).db) && NoBonusTwice(Run(plan, s, steps).db)
  {
    InitialInv(s);
    InitialBooks(s);
    StatusTellsAlong(plan, s, steps, s.db.balances);
    if !SomeOverwrites(plan, s, steps) {
      OverwritingComesFirst(plan, s, steps, s.db.balances);
      AtMostOnceAlong(plan, s, steps, s.db.balances);
      NoBonusTwiceAlong(plan, s, steps);
    }
  }

  /** No user got the signup bonus twice, if and only if no notification found its user with the bonus and no other paid row. */
  lemma BonusesOnce(plan: FeePlan, s: State, steps: seq<Step>)
    requires Initial(s)
    ensures NoBonusTwice(Run(plan, s, steps).db) <==> !SomeBonusAgain(plan, s, steps)
  {
    NoBonusTwiceAlong(plan, s, steps);
  }

  /** After any run, overwritten or not: balances grew by exactly what the ledger says was credited, entry by entry. */
  lemma CreditsAreBooked(plan: FeePlan, s: State, steps: seq<Step>, u: nat)
    requires Initial(s) && u in s.db.balances
    ensures var db := Run(plan, s, steps).db;
            && u in db.balances && db.balances[u] == s.db.balances[u] + Sum(db.entries, CreditTo(db.deposits, u))
            && (forall i :: 0 <= i < |db.entries| ==> EntryOk(db, db.entries[i]))
  {
    InitialInv(s);
    RunKeeps(plan, s, steps, s.db.balances);
  }

  // ------------------------------------------------------- the run that credits twice

  const PLAN := FeePlan(0, 0)

  /** The expiry (1) sees the deposit pending; it is paid; the expiry writes; the next notification pays it again. */
  function Steps(u: nat): seq<Step>
  {
    [AddDeposit(u, 10000, None), BeginExpire(1, 0), Notify(0, None, 5), CommitExpire(1), Notify(0, None, 6)]
  }

  function Empty(u: nat): State
  {
    State(Db([], map[u := 0], map[u := 0], [Affiliate(0, true, true)], map[], [], [], [], []), map[], map[], [], [], map[])
  }

  function Rows(u: nat, status: DepositStatus, paidAt: int, times: nat): Db
  {
    var e := Entry(DepositIn, 10000, 0);
    var row := if times == 0 then Deposit(u, 10000, status, paidAt, None, None, None)
               else Deposit(u, 10000, status, paidAt, Some(0), Some(10000), None);
    Db([row], map[u := 10000 * times], map[u := 0], [Affiliate(0, true, true)], map[],
       if times == 0 then [] else if times == 1 then [e] else [e, e], [], [],
       if times == 0 then [] else if times == 1 then [u] else [u, u])
  }

  function Before(u: nat, k: nat): State
    requires k <= 5
  {
    match k
    case 0 => Empty(u)
    case 1 => Empty(u).(db := Rows(u, Pending, 0, 0))
    case 2 => Empty(u).(db := Rows(u, Pending, 0, 0), expiring := map[1 := 0])
    case 3 => Empty(u).(db := Rows(u, Paid, 5, 1), expiring := map[1 := 0])
    case 4 => Empty(u).(db := Rows(u, Expired, 5, 1))
    case _ => Empty(u).(db := Rows(u, Paid, 6, 2))
  }

  lemma FirstSteps(u: nat, k: nat)
    requires k < 2 || k == 3
    ensures Next(PLAN, Before(u, k), Steps(u)[k]) == Before(u, k + 1)
  {
  }

  lemma Settles(u: nat, status: DepositStatus, paidAt: int, times: nat, now: int)
    requires (status.Pending? && times == 0) || (status.Expired? && times == 1)
    ensures SettlePaid(PLAN, Rows(u, status, paidAt, times), 0, None, now) == Rows(u, Paid, now, times + 1)
  {
  }

  lemma FirstSettlement(u: nat)
    ensures Next(PLAN, Before(u, 2), Steps(u)[2]) == Before(u, 3)
  {
    Settles(u, Pending, 0, 0, 5);
    assert NextDb(PLAN, Before(u, 2), Steps(u)[2]) == Rows(u, Paid, 5, 1);
  }

  lemma SecondSettlement(u: nat)
    ensures Next(PLAN, Before(u, 4), Steps(u)[4]) == Before(u, 5)
  {
    Settles(u, Expired, 5, 1, 6);
    assert NextDb(PLAN, Before(u, 4), Steps(u)[4]) == Rows(u, Paid, 6, 2);
  }

  lemma {:induction false} RunFrom(u: nat, k: nat)
    requires k <= 5
    ensures Run(PLAN, Before(u, k), Steps(u)[k..]) == Before(u, 5)
    decreases 5 - k
  {
    if k < 5 {
      if k == 2 { FirstSettlement(u); } else if k == 4 { SecondSettlement(u); } else { FirstSteps(u, k); }
      RunFrom(u, k + 1);
      assert Steps(u)[k..][1..] == Steps(u)[k + 1..];
    }
  }

  lemma TheRun(u: nat)
    ensures Initial(Before(u, 0)) && Run(PLAN, Before(u, 0), Steps(u)) == Before(u, 5)
  {
    RunFrom(u, 0);
    assert Steps(u)[0..] == Steps(u);
  }

  /** One deposit of 100.00 is credited as 200.00, booked twice, and its user gets the signup bonus twice. */
  lemma OneDepositIsCreditedTwice(u: nat)
    ensures Initial(Before(u, 0))
    ensures var db := Run(PLAN, Before(u, 0), Steps(u)).db;
            && db.deposits == [Deposit(u, 10000, Paid, 6, Some(0), Some(10000), None)]
            && db.balances == map[u := 20000] && db.signupBonuses == [u, u]
            && db.entries == [Entry(DepositIn, 10000, 0), Entry(DepositIn, 10000, 0)]
  {
    TheRun(u);
  }
}
