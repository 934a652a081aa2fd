/**
 * The crash game's timing over whole runs, in every interleaving: when rounds take off and crash, what a payment had been
 * reached by, and how soon the next round follows.
 */
module CrashTimes {
  import opened Numbers
  import opened CrashModel
  import opened CrashMachine
  import opened CrashInvariant
  import opened CrashRuns
  import opened CrashOutcomes
  import CrashPoint

  /** What the growth had come to, in hundredths, so long after take-off. */
  function Grown(cfg: House, elapsed: int): real
  {
    100.0 * cfg.growth(if elapsed <= 0 then 0 else elapsed)
  }

  /**
   * A round that is not waiting took off at its betting end or later; one that has crashed did so after that, at an instant
   * by which its growth had reached the crash point it is stored with.
   */
  ghost predicate RoundTimely(cfg: House, r: Round, now: int)
  {
    && r.bettingEndsAt % cfg.tick == 0
    && (r.status.Waiting? || (
          && r.startedAt.Some? && r.bettingEndsAt <= r.startedAt.value <= now && r.startedAt.value % cfg.tick == 0))
    && (r.status.Crashed? ==>
          && r.crashedAt.Some? && r.startedAt.value <= r.crashedAt.value <= now
          && r.crashPoint as real <= Grown(cfg, r.crashedAt.value + cfg.tick - 1 - r.startedAt.value))
  }

  /** A paid bet's round is in the air or over, a lost one's is over. */
  ghost predicate BetTimely(db: Db, b: Bet)
    requires b.round < |db.rounds|
  {
    && (b.status.CashedOut? ==> !db.rounds[b.round].status.Waiting?)
    && (b.status.Lost? ==> db.rounds[b.round].status.Crashed?)
  }

  ghost predicate Timely(cfg: House, db: Db, now: int)
    requires Linked(db)
  {
    && (forall i :: 0 <= i < |db.rounds| ==> RoundTimely(cfg, db.rounds[i], now))
    && (forall i :: 0 <= i < |db.bets| ==> BetTimely(db, db.bets[i]))
  }

  lemma GrowthGoesOn(cfg: House, elapsed: int, later: int)
    requires elapsed <= later
    ensures Grown(cfg, elapsed) <= Grown(cfg, later)
  {
  }

  /** The stored instant of a time not before a stored one is not before it either. */
  lemma StoredInOrder(cfg: House, stored: int, t: int)
    requires stored <= t && stored % cfg.tick == 0
    ensures stored <= Stamp(cfg, t) <= t && Stamp(cfg, t) % cfg.tick == 0 && t < Stamp(cfg, t) + cfg.tick
  {
    StampIsStored(cfg, t);
    var p, q := stored / cfg.tick, t / cfg.tick;
    assert stored == p * cfg.tick && Stamp(cfg, t) == q * cfg.tick;
    if q < p {
      NextMultiple(q, p, cfg.tick);
    }
  }

  // ------------------------------------------------------- the transactions, one by one

  lemma StartTimely(cfg: House, db: Db, id: nat, check: int, now: int)
    requires Linked(db) && Timely(cfg, db, check) && id < |db.rounds| && TakeoffDue(db.rounds[id], check) && check <= now
    ensures Timely(cfg, db.(rounds := db.rounds[id := Started(cfg, db.rounds[id], now)]), now)
  {
    StoredInOrder(cfg, db.rounds[id].bettingEndsAt, now);
  }

  /** Time passes. */
  lemma TimelyLater(cfg: House, db: Db, now: int, later: int)
    requires Linked(db) && Timely(cfg, db, now) && now <= later
    ensures Timely(cfg, db, later)
  {
  }

  lemma CrashedTimely(cfg: House, max: real, r: Round, r': Round, decide: int, now: int)
    requires max >= 1.0 && r.crashPoint >= 100 && r.status.Running? && RoundTimely(cfg, r, decide) && decide <= now
    requires CurrentMultiplier(cfg, max, r, decide) >= Effective(max, r.crashPoint)
    requires r' == r.(status := Crashed, crashPoint := Effective(max, r.crashPoint), crashedAt := Some(Stamp(cfg, now)))
    ensures RoundTimely(cfg, r', now)
  {
    StoredInOrder(cfg, r.startedAt.value, now);
    CentsBounds(RealMin(max, cfg.growth(Max(0, decide - r.startedAt.value))));
    GrowthGoesOn(cfg, decide - r.startedAt.value, r'.crashedAt.value + cfg.tick - 1 - r.startedAt.value);
  }

  lemma TakeOffTimely(cfg: House, db: Db, id: nat, t: Reads, now: int)
    requires Linked(db) && id < |db.rounds| && Timely(cfg, db, now) && now <= t.check && t.Ordered()
    ensures Timely(cfg, TakeOffIfDue(cfg, db, id, t), t.start)
  {
    TimelyLater(cfg, db, now, t.check);
    TimelyLater(cfg, db, now, t.start);
    if TakeoffDue(db.rounds[id], t.check) {
      StartTimely(cfg, db, id, t.check, t.start);
    }
  }

  lemma AdvanceTimely(cfg: House, db: Db, id: nat, t: Reads, now: int, start: map<nat, Wallet>)
    requires DbOk(db, start) && id < |db.rounds| && Timely(cfg, db, now) && now <= t.check && t.Ordered()
    ensures Linked(AdvanceOpen(cfg, db, id, t)) && Timely(cfg, AdvanceOpen(cfg, db, id, t), t.crash)
  {
    var up := TakeOffIfDue(cfg, db, id, t);
    TakeOffTimely(cfg, db, id, t, now);
    TimelyLater(cfg, up, t.start, t.decide);
    TimelyLater(cfg, up, t.start, t.crash);
    if up.rounds[id].status.Running? {
      AutoTimely(cfg, up, id, CurrentMultiplier(cfg, up.maxMultiplier, up.rounds[id], t.auto), t.crash);
      if CrashDue(cfg, up.maxMultiplier, up.rounds[id], t.decide) {
        CrashedTimely(cfg, up.maxMultiplier, up.rounds[id], CrashedRow(cfg, up.maxMultiplier, up.rounds[id], t.crash), t.decide, t.crash);
      }
    }
  }

  lemma AutoTimely(cfg: House, db: Db, id: nat, m: int, now: int)
    requires Linked(db) && id < |db.rounds| && db.rounds[id].status.Running? && Timely(cfg, db, now)
    ensures Timely(cfg, AutoCashouts(db, id, m, 0), now)
  {
    forall j | 0 <= j < |db.bets|
      ensures BetTimely(AutoCashouts(db, id, m, 0), AutoCashouts(db, id, m, 0).bets[j])
    {
      DueIsPaid(db, id, m, 0, j);
      assert BetTimely(db, db.bets[j]);
    }
  }

  lemma CashoutTimely(cfg: House, db: Db, i: nat, t: Reads, now: int)
    requires Linked(db) && i < |db.bets| && Timely(cfg, db, now) && now <= t.check && t.Ordered()
    requires CashoutLocked(cfg, db, i, t).Committed?
    ensures var db' := CashoutLocked(cfg, db, i, t).db; Linked(db') && Timely(cfg, db', t.crash)
  {
    TakeOffTimely(cfg, db, db.bets[i].round, t, now);
    TimelyLater(cfg, TakeOffIfDue(cfg, db, db.bets[i].round, t), t.start, t.crash);
  }

  lemma InsertTimely(cfg: House, db: Db, o: Order, id: nat, now: int)
    requires Linked(db) && id < |db.rounds| && Timely(cfg, db, now) && InsertBet(db, o, id).Committed?
    ensures Linked(InsertBet(db, o, id).db) && Timely(cfg, InsertBet(db, o, id).db, now)
  {
    InsertExactlyWhen(db, o, id);
    forall i | 0 <= i < |db.bets|
      ensures BetTimely(InsertBet(db, o, id).db, db.bets[i])
    {
      assert BetTimely(db, db.bets[i]);
    }
  }

  lemma CreateTimely(cfg: House, db: Db, roll: nat, reading: int, now: int)
    requires Linked(db) && roll <= CrashPoint.MAX_ROLL && Timely(cfg, db, now)
    ensures Linked(CreateRound(cfg, db, roll, reading)) && Timely(cfg, CreateRound(cfg, db, roll, reading), now)
  {
    StampIsStored(cfg, reading + BETTING_MS);
    forall i | 0 <= i < |db.bets|
      ensures BetTimely(CreateRound(cfg, db, roll, reading), db.bets[i])
    {
      assert BetTimely(db, db.bets[i]);
    }
  }

  lemma LightTimely(cfg: House, db: Db, id: nat, seen: Round, reading: int, now: int, start: map<nat, Wallet>)
    requires DbOk(db, start) && id < |db.rounds| && RoundGrows(seen, db.rounds[id]) && Timely(cfg, db, now) && now <= reading
    ensures Timely(cfg, LightTakeOff(cfg, db, id, seen, reading), reading)
    ensures Timely(cfg, LightCrash(cfg, db, id, seen, reading), reading)
  {
    TimelyLater(cfg, db, now, reading);
    if TakeoffDue(seen, reading) && db.rounds[id].status.Waiting? {
      StartTimely(cfg, db, id, reading, reading);
    }
    if LightCrashes(cfg, db, id, seen, reading) {
      CrashedTimely(cfg, db.maxMultiplier, db.rounds[id], LightCrash(cfg, db, id, seen, reading).rounds[id], reading, reading);
    }
  }

  // ------------------------------------------------------------------ every step

  lemma LightStepTimely(cfg: House, s: State, step: Step, start: map<nat, Wallet>)
    requires Inv(cfg, s, start) && Enabled(s, step) && Timely(cfg, s.db, s.clock)
    requires step.LightStart? || step.LightDecide? || step.LightLose?
    ensures Linked(StepDb(cfg, s, step)) && Timely(cfg, StepDb(cfg, s, step), LastReading(s, step))
  {
    assert CallOk(cfg, s.db, s.calls[step.pid]);
    var id := s.calls[step.pid].id;
    if step.LightLose? {
      forall i | 0 <= i < |s.db.bets|
        ensures BetTimely(LightBury(s.db, id), LightBury(s.db, id).bets[i])
      {
        assert BetTimely(s.db, s.db.bets[i]);
      }
    } else {
      LightTimely(cfg, s.db, id, s.calls[step.pid].seen, step.now, s.clock, start);
    }
  }

  lemma PlaceStepTimely(cfg: House, s: State, step: Step, start: map<nat, Wallet>)
    requires Inv(cfg, s, start) && Enabled(s, step) && Timely(cfg, s.db, s.clock)
    requires step.PlaceBet? || step.PlaceCreating? || step.PlaceInserting?
    ensures Linked(StepDb(cfg, s, step)) && Timely(cfg, StepDb(cfg, s, step), LastReading(s, step))
  {
    var now := LastReading(s, step);
    TimelyLater(cfg, s.db, s.clock, now);
    if step.PlaceBet? {
      PlaceBetExactlyWhen(cfg, s, step.pid, step.order, step.t, start);
      var id := |s.db.rounds| - 1;
      if StepDb(cfg, s, step) != s.db {
        InsertExactlyWhen(s.db, step.order, id);
        InsertTimely(cfg, s.db, step.order, id, now);
      }
    } else if step.PlaceInserting? {
      assert CallOk(cfg, s.db, s.calls[step.pid]);
      if StepDb(cfg, s, step) != s.db {
        InsertTimely(cfg, s.db, s.calls[step.pid].order, s.calls[step.pid].id, now);
      }
    } else if StepDb(cfg, s, step) != s.db {
      CreateTimely(cfg, s.db, step.roll, step.now, now);
      InsertTimely(cfg, CreateRound(cfg, s.db, step.roll, step.now), s.calls[step.pid].order, |s.db.rounds|, now);
    }
  }

  lemma StepTimely(cfg: House, s: State, step: Step, start: map<nat, Wallet>)
    requires Inv(cfg, s, start) && Timely(cfg, s.db, s.clock)
    ensures var s' := Next(cfg, s, step); Linked(s'.db) && Timely(cfg, s'.db, s'.clock)
  {
    if Enabled(s, step) {
      var open := OpenRound(s.db.rounds);
      TimelyLater(cfg, s.db, s.clock, LastReading(s, step));
      match step
      case AdvanceWrite(_, t) => if open.Some? { AdvanceTimely(cfg, s.db, open.value, t, s.clock, start); }
      case CreateWaiting(_, roll, now) => CreateTimely(cfg, s.db, roll, now, now);
      case PlaceBet(_, _, _) => PlaceStepTimely(cfg, s, step, start);
      case PlaceCreating(_, _, _) => PlaceStepTimely(cfg, s, step, start);
      case PlaceInserting(_, _) => PlaceStepTimely(cfg, s, step, start);
      case CashoutCommit(pid, t) =>
        if CashoutLocked(cfg, s.db, s.calls[pid].bet, t).Committed? { CashoutTimely(cfg, s.db, s.calls[pid].bet, t, s.clock); }
      case LightStart(_, _) => LightStepTimely(cfg, s, step, start);
      case LightDecide(_, _) => LightStepTimely(cfg, s, step, start);
      case LightLose(_) => LightStepTimely(cfg, s, step, start);
      case _ => assert StepDb(cfg, s, step).rounds == s.db.rounds && StepDb(cfg, s, step).bets == s.db.bets;
    }
  }

  // -------------------------------------------------------------------- over runs

  lemma {:induction false} RunTimely(cfg: House, s: State, steps: seq<Step>, start: map<nat, Wallet>)
    requires Inv(cfg, s, start) && Timely(cfg, s.db, s.clock)
    ensures var end := Run(cfg, s, steps, start); Linked(end.db) && Timely(cfg, end.db, end.clock)
    decreases |steps|
  {
    if steps != [] {
      StepTimely(cfg, s, steps[0], start);
      StepKeeps(cfg, s, steps[0], start);
      RunTimely(cfg, Next(cfg, s, steps[0]), steps[1..], start);
    }
  }

  /**
   * After any run: no round took off before its betting end, none crashed before its growth had come to its crash point,
   * only bets of rounds that have taken off are paid, and only bets of crashed rounds are lost.
   */
  lemma RoundsKeepTime(cfg: House, s: State, steps: seq<Step>)
    requires Initial(s)
    ensures Inv(cfg, s, s.db.wallets)
    ensures var end := Run(cfg, s, steps, s.db.wallets); Linked(end.db) && Timely(cfg, end.db, end.clock)
  {
    InitialInv(cfg, s);
    RunTimely(cfg, s, steps, s.db.wallets);
  }

  /** After any run every cashed-out bet was paid its stake times its multiplier, to the nearest hundredth. */
  lemma CashOutsAreWorthTheirMultiple(cfg: House, s: State, steps: seq<Step>, i: nat)
    requires Initial(s)
    ensures Inv(cfg, s, s.db.wallets)
    ensures var bets := Run(cfg, s, steps, s.db.wallets).db.bets;
            i < |bets| && bets[i].status.CashedOut? ==> Pays(bets[i].amount, bets[i].status.multiplier, bets[i].status.payout)
  {
    InitialInv(cfg, s);
    RunKeeps(cfg, s, steps, s.db.wallets);
    var bets := Run(cfg, s, steps, s.db.wallets).db.bets;
    if i < |bets| && bets[i].status.CashedOut? {
      PayoutPays(bets[i].amount, bets[i].status.multiplier);
    }
  }

  /** The clock reading that a paying step takes its multiplier from. */
  function PaymentReading(s: State, step: Step): int
  {
    match step
    case AdvanceWrite(_, t) => t.auto
    case CashoutCommit(_, t) => t.decide
    case _ => s.clock
  }

  /** Whoever the step pays is paid no more than the cap, and no more than the round had grown to at that reading. */
  ghost predicate PaidAsReached(cfg: House, s: State, step: Step)
    requires Placed(s) && Linked(Next(cfg, s, step).db)
  {
    var db' := Next(cfg, s, step).db;
    forall i :: 0 <= i < |db'.bets| && db'.bets[i].status.CashedOut? && !(i < |s.db.bets| && s.db.bets[i].status.CashedOut?) ==>
      WithinReach(cfg, db', db'.bets[i], PaymentReading(s, step))
  }

  ghost predicate WithinReach(cfg: House, db: Db, b: Bet, now: int)
    requires b.round < |db.rounds| && b.status.CashedOut?
  {
    && b.status.multiplier as real <= 100.0 * db.maxMultiplier
    && db.rounds[b.round].startedAt.Some?
    && b.status.multiplier as real <= Grown(cfg, now - db.rounds[b.round].startedAt.value)
  }

  lemma AdvancePaysAsReached(cfg: House, db: Db, id: nat, t: Reads, j: nat, start: map<nat, Wallet>)
    requires DbOk(db, start) && id < |db.rounds| && j < |db.bets| && !db.bets[j].status.CashedOut?
    ensures var db' := AdvanceOpen(cfg, db, id, t);
            && Linked(db') && |db'.bets| == |db.bets|
            && (db'.bets[j].status.CashedOut? ==> WithinReach(cfg, db', db'.bets[j], t.auto))
  {
    AdvanceKeeps(cfg, db, id, t, start);
    var up := TakeOffIfDue(cfg, db, id, t);
    if up.rounds[id].status.Running? {
      var r := up.rounds[id];
      var m := CurrentMultiplier(cfg, up.maxMultiplier, r, t.auto);
      TheyExist(cfg, up.maxMultiplier, r, t.auto);
      DueIsPaid(up, id, m, 0, j);
    }
  }

  lemma CashoutPaysAsReached(cfg: House, db: Db, i: nat, t: Reads, start: map<nat, Wallet>)
    requires DbOk(db, start) && i < |db.bets| && CashoutLocked(cfg, db, i, t).Committed?
    ensures var db' := CashoutLocked(cfg, db, i, t).db;
            && Linked(db') && |db'.bets| == |db.bets|
            && (forall j :: 0 <= j < |db.bets| && j != i ==> db'.bets[j] == db.bets[j])
            && db'.bets[i].status.CashedOut? && WithinReach(cfg, db', db'.bets[i], t.decide)
  {
    var up := TakeOffIfDue(cfg, db, db.bets[i].round, t);
    TheyExist(cfg, up.maxMultiplier, up.rounds[db.bets[i].round], t.decide);
  }

  /** Only the locked paths pay. */
  lemma OthersPayNobody(cfg: House, s: State, step: Step, start: map<nat, Wallet>, i: nat)
    requires Inv(cfg, s, start) && Enabled(s, step) && !step.AdvanceWrite? && !step.CashoutCommit?
    ensures var bets' := StepDb(cfg, s, step).bets;
            i < |bets'| && bets'[i].status.CashedOut? ==> i < |s.db.bets| && s.db.bets[i].status.CashedOut?
  {
    match step
    case PlaceBet(pid, o, t) => PlaceBetExactlyWhen(cfg, s, pid, o, t, start);
    case PlaceInserting(pid, now) => PlaceInsertingExactlyWhen(cfg, s, pid, now);
    case PlaceCreating(pid, roll, now) => OpenIsNewest(s.db.rounds); PlaceCreatingPays(cfg, s, pid, roll, now);
    case _ =>
  }

  lemma PlaceCreatingPays(cfg: House, s: State, pid: nat, roll: nat, now: int)
    requires Placed(s) && Enabled(s, PlaceCreating(pid, roll, now))
    ensures var bets := StepDb(cfg, s, PlaceCreating(pid, roll, now)).bets;
            s.db.bets <= bets && forall i :: |s.db.bets| <= i < |bets| ==> bets[i].status.Active?
  {
    InsertExactlyWhen(CreateRound(cfg, s.db, roll, now), s.calls[pid].order, |s.db.rounds|);
  }

  lemma StepPaysAsReached(cfg: House, s: State, step: Step, start: map<nat, Wallet>)
    requires Inv(cfg, s, start)
    ensures Linked(Next(cfg, s, step).db) && PaidAsReached(cfg, s, step)
  {
    StepKeeps(cfg, s, step, start);
    var db' := Next(cfg, s, step).db;
    if Enabled(s, step) {
      forall i | 0 <= i < |db'.bets| && db'.bets[i].status.CashedOut? && !(i < |s.db.bets| && s.db.bets[i].status.CashedOut?)
        ensures WithinReach(cfg, db', db'.bets[i], PaymentReading(s, step))
      {
        if step.AdvanceWrite? {
          AdvancePaysAsReached(cfg, s.db, OpenRound(s.db.rounds).value, step.t, i, start);
        } else if step.CashoutCommit? {
          CashoutPaysAsReached(cfg, s.db, s.calls[step.pid].bet, step.t, start);
        } else {
          OthersPayNobody(cfg, s, step, start, i);
        }
      }
    }
  }

  ghost predicate AlwaysPaidAsReached(cfg: House, s: State, steps: seq<Step>, start: map<nat, Wallet>)
    requires Inv(cfg, s, start)
    decreases |steps|
  {
    steps == [] ||
    (StepKeeps(cfg, s, steps[0], start);
     PaidAsReached(cfg, s, steps[0]) && AlwaysPaidAsReached(cfg, Next(cfg, s, steps[0]), steps[1..], start))
  }

  /** Over every run: no payment is above what its round had reached at the reading of the step that made it. */
  lemma {:induction false} NobodyIsPaidAhead(cfg: House, s: State, steps: seq<Step>, start: map<nat, Wallet>)
    requires Inv(cfg, s, start)
    ensures AlwaysPaidAsReached(cfg, s, steps, start)
    decreases |steps|
  {
    if steps != [] {
      StepKeeps(cfg, s, steps[0], start);
      StepPaysAsReached(cfg, s, steps[0], start);
      NobodyIsPaidAhead(cfg, Next(cfg, s, steps[0]), steps[1..], start);
    }
  }
}
