/**
 * A crashed round should hold an active bet only while an advanceLight call sits between its crash update and
 * its bet update. That fails on two paths. placeBet, having found no open round, may get a round that another
 * caller has just created, and holds no lock on that row when it inserts its bet, which strands the bet if the
 * round has crashed meanwhile. And a call that dies between its two updates strands the bets it did not mark
 * lost. A stranded bet stays so for good; nothing else strands one.
 */
module CrashStranded {
  import opened Numbers
  import opened CrashModel
  import opened CrashMachine
  import opened CrashInvariant
  import opened CrashRuns
  import CrashPoint

  ghost predicate BurialPending(s: State, id: nat)
  {
    exists pid :: pid in s.calls && s.calls[pid] == LightBurying(id)
  }

  /** An active bet of a crashed round. */
  ghost predicate Loose(db: Db, i: nat)
    requires Linked(db)
  {
    i < |db.bets| && db.bets[i].status.Active? && db.rounds[db.bets[i].round].status.Crashed?
  }

  ghost predicate Stranded(s: State, i: nat)
    requires Linked(s.db)
  {
    Loose(s.db, i) && !BurialPending(s, s.db.bets[i].round)
  }

  ghost predicate NoneStranded(s: State)
    requires Linked(s.db)
  {
    forall i: nat :: !Stranded(s, i)
  }

  /** The step inserts a bet, without a row lock, into a round that crashed and was buried since it was read. */
  ghost predicate InsertsTooLate(s: State, step: Step)
    requires Placed(s)
  {
    && Enabled(s, step) && step.PlaceInserting?
    && s.db.rounds[s.calls[step.pid].id].status.Crashed?
    && !BurialPending(s, s.calls[step.pid].id)
    && InsertBet(s.db, s.calls[step.pid].order, s.calls[step.pid].id).Committed?
  }

  /** The last call about to mark the bets of its crashed round lost dies, and there are such bets. */
  ghost predicate DiesBeforeBurial(s: State, step: Step)
    requires Placed(s)
  {
    && Enabled(s, step) && step.Die? && s.calls[step.pid].LightBurying?
    && !BurialPending(s.(calls := s.calls - {step.pid}), s.calls[step.pid].id)
    && exists i: nat :: Loose(s.db, i) && s.db.bets[i].round == s.calls[step.pid].id
  }

  ghost predicate Strands(s: State, step: Step)
    requires Placed(s)
  {
    InsertsTooLate(s, step) || DiesBeforeBurial(s, step)
  }

  // ------------------------------------------------------------ locked transactions

  lemma {:induction false} AutoLeavesOthers(db: Db, id: nat, multiplier: int, i: nat, j: nat)
    requires Linked(db) && id < |db.rounds| && i <= |db.bets| && j < |db.bets| && db.bets[j].round != id
    ensures AutoCashouts(db, id, multiplier, i).bets[j] == db.bets[j]
    decreases |db.bets| - i
  {
    if i < |db.bets| {
      if AutoDue(db.bets[i], id, multiplier, Effective(db.maxMultiplier, db.rounds[id].crashPoint)) {
        AutoLeavesOthers(SettleCashout(db, i, db.bets[i].autoCashoutAt.value), id, multiplier, i + 1, j);
      } else {
        AutoLeavesOthers(db, id, multiplier, i + 1, j);
      }
    }
  }

  /** The locked advance does not touch bets of other rounds. */
  lemma AdvanceLeavesOthers(cfg: House, db: Db, id: nat, t: Reads, j: nat)
    requires Linked(db) && id < |db.rounds| && j < |db.bets| && db.bets[j].round != id
    ensures var db' := AdvanceOpen(cfg, db, id, t);
            && j < |db'.bets| && db'.bets[j] == db.bets[j]
            && |db'.rounds| == |db.rounds| && db'.rounds[db.bets[j].round] == db.rounds[db.bets[j].round]
  {
    var up := TakeOffIfDue(cfg, db, id, t);
    if up.rounds[id].status.Running? {
      AutoLeavesOthers(up, id, CurrentMultiplier(cfg, up.maxMultiplier, up.rounds[id], t.auto), 0, j);
    }
  }

  /** A round it crashes keeps no active bet. */
  lemma AdvanceLosesItsBets(cfg: House, db: Db, id: nat, t: Reads, j: nat)
    requires Linked(db) && id < |db.rounds| && !db.rounds[id].status.Crashed?
    requires var db' := AdvanceOpen(cfg, db, id, t); j < |db'.bets| && db'.bets[j].round == id
    ensures var db' := AdvanceOpen(cfg, db, id, t);
            db'.rounds[id].status.Crashed? ==> !db'.bets[j].status.Active?
  {
  }

  lemma AdvanceAndLooseBets(cfg: House, db: Db, id: nat, t: Reads, start: map<nat, Wallet>, j: nat)
    requires DbOk(db, start) && id < |db.rounds| && !db.rounds[id].status.Crashed?
    ensures var db' := AdvanceOpen(cfg, db, id, t);
            Linked(db') && (Loose(db, j) <==> Loose(db', j)) && (Loose(db, j) ==> db'.bets[j] == db.bets[j])
  {
    var db' := AdvanceOpen(cfg, db, id, t);
    AdvanceKeeps(cfg, db, id, t, start);
    AdvanceAddsNoBets(cfg, db, id, t);
    if j < |db.bets| {
      assert BetGrows(db.bets[j], db'.bets[j], db.rounds[db.bets[j].round].status.Crashed?);
      if db.bets[j].round == id {
        AdvanceLosesItsBets(cfg, db, id, t, j);
      } else {
        AdvanceLeavesOthers(cfg, db, id, t, j);
      }
    }
  }

  lemma AdvanceAddsNoBets(cfg: House, db: Db, id: nat, t: Reads)
    requires Linked(db) && id < |db.rounds|
    ensures |AdvanceOpen(cfg, db, id, t).bets| == |db.bets|
  {
  }

  // --------------------------------------------------------------- one step

  lemma PlaceAndLooseBets(cfg: House, db: Db, order: Order, id: nat, t: Reads, start: map<nat, Wallet>, j: nat)
    requires DbOk(db, start) && id < |db.rounds| && !db.rounds[id].status.Crashed? && Admissible(cfg, order)
    ensures var db' := Result(db, PlaceOnOpen(cfg, db, order, id, t));
            Linked(db') && (Loose(db, j) <==> Loose(db', j)) && (Loose(db, j) ==> db'.bets[j] == db.bets[j])
  {
    PlaceKeeps(cfg, db, order, id, t, start);
    if PlaceOnOpen(cfg, db, order, id, t).Committed? {
      AdvanceAndLooseBets(cfg, db, id, t, start, j);
    }
  }

  lemma PlaceInNewAndLooseBets(cfg: House, db: Db, order: Order, roll: nat, now: int, j: nat)
    requires Linked(db) && roll <= CrashPoint.MAX_ROLL
    ensures var db' := Result(db, InsertBet(CreateRound(cfg, db, roll, now), order, |db.rounds|));
            Linked(db') && (Loose(db, j) <==> Loose(db', j)) && (Loose(db, j) ==> db'.bets[j] == db.bets[j])
  {
  }

  /** What a step does to the loose bets, apart from the light crash, its burial and an unlocked insert. */
  lemma StepAndLooseBets(cfg: House, s: State, step: Step, start: map<nat, Wallet>, j: nat)
    requires Inv(cfg, s, start) && Enabled(s, step)
    requires !step.LightDecide? && !step.LightLose? && !step.PlaceInserting?
    ensures Linked(StepDb(cfg, s, step))
    ensures Loose(s.db, j) <==> Loose(StepDb(cfg, s, step), j)
    ensures Loose(s.db, j) ==> StepDb(cfg, s, step).bets[j] == s.db.bets[j]
  {
    var db := s.db;
    var open := OpenRound(db.rounds);
    match step
    case AdvanceWrite(_, t) =>
      if open.Some? { AdvanceAndLooseBets(cfg, db, open.value, t, start, j); }
    case PlaceBet(_, order, t) =>
      if Admissible(cfg, order) && open.Some? { PlaceAndLooseBets(cfg, db, order, open.value, t, start, j); }
    case PlaceCreating(pid, roll, now) => PlaceInNewAndLooseBets(cfg, db, s.calls[pid].order, roll, now, j);
    case CashoutCommit(pid, t) => CashoutAndLooseBets(cfg, db, s.calls[pid].bet, t, j);
    case LightStart(pid, _) => assert CallOk(cfg, db, s.calls[pid]);
    case _ =>
  }

  lemma CashoutAndLooseBets(cfg: House, db: Db, i: nat, t: Reads, j: nat)
    requires Linked(db) && i < |db.bets|
    ensures var db' := Result(db, CashoutLocked(cfg, db, i, t));
            Linked(db') && (Loose(db, j) <==> Loose(db', j)) && (Loose(db, j) ==> db'.bets[j] == db.bets[j])
  {
  }

  /** Calls about to bury keep waiting, and a new one appears only for the round whose crash it has just written. */
  lemma StepAndBurials(cfg: House, s: State, step: Step, id: nat)
    requires Placed(s) && Enabled(s, step)
    requires step.LightLose? || step.Die? ==> s.calls[step.pid] != LightBurying(id)
    ensures BurialPending(Next(cfg, s, step), id)
       <==> BurialPending(s, id)
            || (step.LightDecide? && s.calls[step.pid].id == id
                && LightCrashes(cfg, s.db, id, s.calls[step.pid].seen, step.now))
  {
    var s' := Next(cfg, s, step);
    if BurialPending(s, id) {
      var pid :| pid in s.calls && s.calls[pid] == LightBurying(id);
      assert pid in s'.calls && s'.calls[pid] == LightBurying(id);
    }
    if step.LightDecide? && s.calls[step.pid].id == id && LightCrashes(cfg, s.db, id, s.calls[step.pid].seen, step.now) {
      assert s'.calls[step.pid] == LightBurying(id);
    }
  }

  /** A stranded bet is settled by no step: its stake is neither paid nor lost. */
  lemma StrandedStays(cfg: House, s: State, step: Step, start: map<nat, Wallet>, i: nat)
    requires Inv(cfg, s, start) && Stranded(s, i)
    ensures Linked(Next(cfg, s, step).db) && Stranded(Next(cfg, s, step), i)
    ensures Next(cfg, s, step).db.bets[i] == s.db.bets[i]
  {
    StepKeeps(cfg, s, step, start);
    if Enabled(s, step) {
      StepAndBurials(cfg, s, step, s.db.bets[i].round);
      if !step.LightDecide? && !step.LightLose? && !step.PlaceInserting? {
        StepAndLooseBets(cfg, s, step, start, i);
      }
    }
  }

  /** The exact cause: a step strands a bet if and only if it is a late insert, or a death between the two updates. */
  lemma WhatStrands(cfg: House, s: State, step: Step, start: map<nat, Wallet>)
    requires Inv(cfg, s, start) && NoneStranded(s)
    ensures Linked(Next(cfg, s, step).db)
    ensures NoneStranded(Next(cfg, s, step)) <==> !Strands(s, step)
  {
    StepKeeps(cfg, s, step, start);
    var s' := Next(cfg, s, step);
    if InsertsTooLate(s, step) {
      StepAndBurials(cfg, s, step, s.calls[step.pid].id);
      assert Stranded(s', |s.db.bets|);
    } else if DiesBeforeBurial(s, step) {
      var i: nat :| Loose(s.db, i) && s.db.bets[i].round == s.calls[step.pid].id;
      assert Stranded(s', i);
    } else if Enabled(s, step) {
      forall i: nat
        ensures !Stranded(s', i)
      {
        if Loose(s'.db, i) {
          NotStrandedBy(cfg, s, step, start, i);
        }
      }
    }
  }

  lemma NotStrandedBy(cfg: House, s: State, step: Step, start: map<nat, Wallet>, i: nat)
    requires Inv(cfg, s, start) && NoneStranded(s) && Enabled(s, step) && !Strands(s, step)
    requires Linked(Next(cfg, s, step).db) && Loose(Next(cfg, s, step).db, i)
    ensures BurialPending(Next(cfg, s, step), Next(cfg, s, step).db.bets[i].round)
  {
    var s' := Next(cfg, s, step);
    var id := s'.db.bets[i].round;
    assert !Stranded(s, i);
    StepKeepsRows(cfg, s, step, start);
    if step.LightLose? && s.calls[step.pid].id == id {
      assert false;
    } else if !(step.Die? && s.calls[step.pid] == LightBurying(id)) {
      StepAndBurials(cfg, s, step, id);
      if !step.LightDecide? && !step.LightLose? && !step.PlaceInserting? {
        StepAndLooseBets(cfg, s, step, start, i);
      }
    }
  }

  // -------------------------------------------------------------------- runs

  ghost predicate SomeStepStrands(cfg: House, s: State, steps: seq<Step>, start: map<nat, Wallet>)
    requires Inv(cfg, s, start)
    decreases |steps|
  {
    steps != [] &&
    (StepKeeps(cfg, s, steps[0], start);
     Strands(s, steps[0]) || SomeStepStrands(cfg, Next(cfg, s, steps[0]), steps[1..], start))
  }

  lemma {:induction false} StrandedForever(cfg: House, s: State, steps: seq<Step>, start: map<nat, Wallet>, i: nat)
    requires Inv(cfg, s, start) && Stranded(s, i)
    ensures var end := Run(cfg, s, steps, start);
            Linked(end.db) && Stranded(end, i) && end.db.bets[i] == s.db.bets[i]
    decreases |steps|
  {
    if steps != [] {
      StepKeeps(cfg, s, steps[0], start);
      StrandedStays(cfg, s, steps[0], start, i);
      StrandedForever(cfg, Next(cfg, s, steps[0]), steps[1..], start, i);
    }
  }

  /**
   * A run ends with a stranded bet if and only if along it some unlocked insert came too late, or some call died
   * between crashing a round and losing its bets.
   */
  lemma {:induction false} WhatStrandsOverRuns(cfg: House, s: State, steps: seq<Step>, start: map<nat, Wallet>)
    requires Inv(cfg, s, start) && NoneStranded(s)
    ensures Linked(Run(cfg, s, steps, start).db)
    ensures NoneStranded(Run(cfg, s, steps, start)) <==> !SomeStepStrands(cfg, s, steps, start)
    decreases |steps|
  {
    if steps != [] {
      var next := Next(cfg, s, steps[0]);
      StepKeeps(cfg, s, steps[0], start);
      WhatStrands(cfg, s, steps[0], start);
      if NoneStranded(next) {
        WhatStrandsOverRuns(cfg, next, steps[1..], start);
      } else {
        var i: nat :| Stranded(next, i);
        StrandedForever(cfg, next, steps[1..], start, i);
      }
    }
  }
}
