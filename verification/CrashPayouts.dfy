/**
 * No cash-out reaches the crash point. The comparison is with the effective crash point, which moves with the
 * max_multiplier setting: the exact condition on a change of that setting is given.
 */
module CrashPayouts {
  import opened Numbers
  import opened CrashModel
  import opened CrashMachine
  import opened CrashInvariant
  import opened CrashRuns
  import CrashPoint

  ghost predicate PaidBelow(db: Db, b: Bet)
    requires b.round < |db.rounds|
  {
    b.status.CashedOut? ==> b.status.multiplier < Effective(db.maxMultiplier, db.rounds[b.round].crashPoint)
  }

  /** Every cashed-out bet was paid below its round's effective crash point. */
  ghost predicate Below(db: Db)
    requires Linked(db)
  {
    forall i :: 0 <= i < |db.bets| ==> PaidBelow(db, db.bets[i])
  }

  /** The setting stands, no effective crash point moves, and whatever is newly paid is paid below. */
  ghost predicate Fair(db: Db, db': Db)
    requires Linked(db) && Linked(db')
  {
    && db'.maxMultiplier == db.maxMultiplier
    && |db.rounds| <= |db'.rounds|
    && (forall i :: 0 <= i < |db.rounds| ==>
          Effective(db.maxMultiplier, db'.rounds[i].crashPoint) == Effective(db.maxMultiplier, db.rounds[i].crashPoint))
    && (Below(db) ==> Below(db'))
  }

  lemma AutoIsFair(db: Db, id: nat, multiplier: int, i: nat)
    requires Linked(db) && id < |db.rounds| && i <= |db.bets|
    ensures Fair(db, AutoCashouts(db, id, multiplier, i))
    decreases |db.bets| - i
  {
    if i < |db.bets| {
      if AutoDue(db.bets[i], id, multiplier, Effective(db.maxMultiplier, db.rounds[id].crashPoint)) {
        AutoIsFair(SettleCashout(db, i, db.bets[i].autoCashoutAt.value), id, multiplier, i + 1);
      } else {
        AutoIsFair(db, id, multiplier, i + 1);
      }
    }
  }

  lemma AdvanceIsFair(cfg: House, db: Db, id: nat, t: Reads, start: map<nat, Wallet>)
    requires DbOk(db, start) && id < |db.rounds|
    ensures Fair(db, AdvanceOpen(cfg, db, id, t))
  {
    var up := TakeOffIfDue(cfg, db, id, t);
    if up.rounds[id].status.Running? {
      AutoIsFair(up, id, CurrentMultiplier(cfg, up.maxMultiplier, up.rounds[id], t.auto), 0);
      EffectiveIsIdempotent(db.maxMultiplier, db.rounds[id].crashPoint);
    }
  }

  lemma InsertIsFair(db: Db, o: Order, id: nat)
    requires Linked(db) && id < |db.rounds| && InsertBet(db, o, id).Committed?
    ensures Linked(InsertBet(db, o, id).db) && Fair(db, InsertBet(db, o, id).db)
  {
  }

  lemma PlaceIsFair(cfg: House, db: Db, order: Order, id: nat, t: Reads, start: map<nat, Wallet>)
    requires DbOk(db, start) && id < |db.rounds| && Admissible(cfg, order)
    ensures Linked(Result(db, PlaceOnOpen(cfg, db, order, id, t))) && Fair(db, Result(db, PlaceOnOpen(cfg, db, order, id, t)))
  {
    var advanced := AdvanceOpen(cfg, db, id, t);
    if PlaceOnOpen(cfg, db, order, id, t).Committed? {
      AdvanceIsFair(cfg, db, id, t, start);
      InsertIsFair(advanced, order, id);
    }
  }

  lemma CreateIsFair(cfg: House, db: Db, order: Order, roll: nat, now: int)
    requires Linked(db) && roll <= CrashPoint.MAX_ROLL
    ensures var created := CreateRound(cfg, db, roll, now);
            && Linked(created) && Fair(db, created)
            && Linked(Result(db, InsertBet(created, order, |db.rounds|)))
            && Fair(db, Result(db, InsertBet(created, order, |db.rounds|)))
  {
  }

  lemma CashoutIsFair(cfg: House, db: Db, i: nat, t: Reads)
    requires Linked(db) && i < |db.bets|
    ensures Linked(Result(db, CashoutLocked(cfg, db, i, t))) && Fair(db, Result(db, CashoutLocked(cfg, db, i, t)))
  {
  }

  lemma LightStepIsFair(cfg: House, s: State, step: Step, start: map<nat, Wallet>)
    requires Inv(cfg, s, start) && Enabled(s, step)
    requires step.LightRead? || step.LightStart? || step.LightRefresh? || step.LightDecide? || step.LightLose?
             || step.CashoutLocate? || step.Tick? || step.Die?
    ensures Linked(StepDb(cfg, s, step)) && Fair(s.db, StepDb(cfg, s, step))
  {
    if step.LightDecide? {
      assert CallOk(cfg, s.db, s.calls[step.pid]);
    }
  }

  /** Every step except a change of the setting is fair, for every caller and in every interleaving. */
  lemma StepIsFair(cfg: House, s: State, step: Step, start: map<nat, Wallet>)
    requires Inv(cfg, s, start) && Enabled(s, step) && !step.SetMaxMultiplier?
    ensures Linked(StepDb(cfg, s, step)) && Fair(s.db, StepDb(cfg, s, step))
  {
    var db := s.db;
    var open := OpenRound(db.rounds);
    match step
    case AdvanceWrite(_, t) =>
      if open.Some? { AdvanceIsFair(cfg, db, open.value, t, start); }
    case CreateWaiting(_, roll, now) => CreateIsFair(cfg, db, Order(0, 0, 0, None), roll, now);
    case PlaceBet(_, order, t) =>
      if Admissible(cfg, order) && open.Some? { PlaceIsFair(cfg, db, order, open.value, t, start); }
    case PlaceCreating(pid, roll, now) => CreateIsFair(cfg, db, s.calls[pid].order, roll, now);
    case PlaceInserting(pid, _) =>
      if InsertBet(db, s.calls[pid].order, s.calls[pid].id).Committed? {
        assert CallOk(cfg, db, s.calls[pid]);
        InsertIsFair(db, s.calls[pid].order, s.calls[pid].id);
      }
    case CashoutCommit(pid, t) => CashoutIsFair(cfg, db, s.calls[pid].bet, t);
    case _ => LightStepIsFair(cfg, s, step, start);
  }

  // --------------------------------------------------- changes of max_multiplier

  /** The new cap rounds to more than every multiplier paid so far. */
  predicate CapAbovePaid(db: Db, max: real)
  {
    forall i :: 0 <= i < |db.bets| && db.bets[i].status.CashedOut? ==> db.bets[i].status.multiplier < RoundCents(max)
  }

  /** The exact condition: a new cap keeps all payments below the crash point iff it is above them itself. */
  lemma CapChange(db: Db, max: real, start: map<nat, Wallet>)
    requires DbOk(db, start) && Below(db) && max >= 1.0
    ensures Below(db.(maxMultiplier := max)) <==> CapAbovePaid(db, max)
  {
  }

  /** A cap that is not lowered is above everything paid. */
  lemma RaisingTheCapIsSafe(db: Db, max: real, start: map<nat, Wallet>)
    requires DbOk(db, start) && Below(db) && max >= db.maxMultiplier
    ensures CapAbovePaid(db, max)
  {
  }

  // ------------------------------------------------------------------- over runs

  /** No change of the setting along the run goes down to a multiplier already paid. */
  ghost predicate CapsAbovePaid(cfg: House, s: State, steps: seq<Step>, start: map<nat, Wallet>)
    requires Inv(cfg, s, start)
    decreases |steps|
  {
    steps == [] ||
    (StepKeeps(cfg, s, steps[0], start);
     (Enabled(s, steps[0]) && steps[0].SetMaxMultiplier? ==> CapAbovePaid(s.db, steps[0].max))
     && CapsAbovePaid(cfg, Next(cfg, s, steps[0]), steps[1..], start))
  }

  /** The property at every state of the run, the first one included. */
  ghost predicate AlwaysBelow(cfg: House, s: State, steps: seq<Step>, start: map<nat, Wallet>)
    requires Inv(cfg, s, start)
    decreases |steps|
  {
    Below(s.db) &&
    (steps == [] ||
     (StepKeeps(cfg, s, steps[0], start); AlwaysBelow(cfg, Next(cfg, s, steps[0]), steps[1..], start)))
  }

  /**
   * Every payment stays below its round's effective crash point throughout a run, in every interleaving,
   * if and only if no change of max_multiplier goes down to a multiplier already paid.
   */
  lemma {:induction false} PaymentsStayBelowTheCrash(cfg: House, s: State, steps: seq<Step>, start: map<nat, Wallet>)
    requires Inv(cfg, s, start) && Below(s.db)
    ensures AlwaysBelow(cfg, s, steps, start) <==> CapsAbovePaid(cfg, s, steps, start)
    decreases |steps|
  {
    if steps != [] {
      var step, next := steps[0], Next(cfg, s, steps[0]);
      StepKeeps(cfg, s, step, start);
      if Enabled(s, step) {
        if step.SetMaxMultiplier? {
          CapChange(s.db, step.max, start);
        } else {
          StepIsFair(cfg, s, step, start);
        }
      }
      if Below(next.db) {
        PaymentsStayBelowTheCrash(cfg, next, steps[1..], start);
      }
    }
  }

  /** With max_multiplier left alone: every payment lies between 1.00 and the effective crash point, exclusive. */
  lemma {:induction false} FixedCapPayments(cfg: House, s: State, steps: seq<Step>, start: map<nat, Wallet>, i: nat)
    requires Inv(cfg, s, start) && Below(s.db)
    requires forall k :: 0 <= k < |steps| ==> !steps[k].SetMaxMultiplier?
    requires var db := Run(cfg, s, steps, start).db; i < |db.bets| && db.bets[i].status.CashedOut?
    ensures var db := Run(cfg, s, steps, start).db;
            && db.bets[i].round < |db.rounds|
            && 100 <= db.bets[i].status.multiplier < Effective(s.db.maxMultiplier, db.rounds[db.bets[i].round].crashPoint)
    decreases |steps|
  {
    if steps == [] {
      assert PaidBelow(s.db, s.db.bets[i]);
      assert BetOk(s.db.bets[i]);
    } else {
      StepKeeps(cfg, s, steps[0], start);
      if Enabled(s, steps[0]) {
        StepIsFair(cfg, s, steps[0], start);
      }
      FixedCapPayments(cfg, Next(cfg, s, steps[0]), steps[1..], start, i);
    }
  }
}
