/**
 * A bet should only be placed while its round waits for take-off. Every path but one sees to that: the insert of a
 * placeBet that was given a round without a lock on it goes ahead whatever the round has become.
 */
module CrashPlacement {
  import opened Numbers
  import opened CrashModel
  import opened CrashMachine
  import opened CrashInvariant
  import opened CrashRuns
  import opened CrashOutcomes
  import CrashStranded

  /** The step adds a bet whose round, as the step leaves it, is not waiting. */
  ghost predicate PlacesLate(cfg: House, s: State, step: Step)
    requires Placed(s) && Linked(Next(cfg, s, step).db)
  {
    var db' := Next(cfg, s, step).db;
    exists i :: |s.db.bets| <= i < |db'.bets| && !db'.rounds[db'.bets[i].round].status.Waiting?
  }

  /** The step is an unlocked insert that goes through after the round has left waiting. */
  ghost predicate InsertsAfterTakeOff(s: State, step: Step)
    requires Placed(s)
  {
    && Enabled(s, step) && step.PlaceInserting?
    && !s.db.rounds[s.calls[step.pid].id].status.Waiting?
    && Accepts(s.db, s.calls[step.pid].order, s.calls[step.pid].id)
  }

  lemma LockedStepsAddNoBets(cfg: House, s: State, step: Step, start: map<nat, Wallet>)
    requires Inv(cfg, s, start) && Enabled(s, step)
    requires !step.PlaceBet? && !step.PlaceCreating? && !step.PlaceInserting?
    ensures |StepDb(cfg, s, step).bets| == |s.db.bets|
  {
    if step.AdvanceWrite? && OpenRound(s.db.rounds).Some? {
      CrashStranded.AdvanceAddsNoBets(cfg, s.db, OpenRound(s.db.rounds).value, step.t);
    }
  }

  /** A bet that placeBet puts into the round it has locked is in time. */
  lemma PlaceBetInTime(cfg: House, s: State, step: Step, start: map<nat, Wallet>)
    requires Inv(cfg, s, start) && Enabled(s, step) && step.PlaceBet?
    ensures Linked(StepDb(cfg, s, step))
    ensures var db' := StepDb(cfg, s, step);
            forall i :: |s.db.bets| <= i < |db'.bets| ==>
              && db'.rounds[db'.bets[i].round].status.Waiting?
              && step.t.check < db'.rounds[db'.bets[i].round].bettingEndsAt
  {
    StepKeeps(cfg, s, step, start);
    PlaceBetExactlyWhen(cfg, s, step.pid, step.order, step.t, start);
  }

  /** And so is one in the round it has opened itself. */
  lemma PlaceInNewInTime(cfg: House, s: State, step: Step, start: map<nat, Wallet>)
    requires Inv(cfg, s, start) && Enabled(s, step) && step.PlaceCreating?
    ensures Linked(StepDb(cfg, s, step))
    ensures var db' := StepDb(cfg, s, step);
            forall i :: |s.db.bets| <= i < |db'.bets| ==>
              && db'.rounds[db'.bets[i].round].status.Waiting?
              && (cfg.tick <= BETTING_MS ==> step.now < db'.rounds[db'.bets[i].round].bettingEndsAt)
  {
    StepKeeps(cfg, s, step, start);
    if s.db.rounds == [] || s.db.rounds[|s.db.rounds| - 1].status.Crashed? {
      PlaceCreatingExactlyWhen(cfg, s, step.pid, step.roll, step.now, start);
    } else {
      PlaceCreatingTakesTheOpenRound(cfg, s, step.pid, step.roll, step.now, start);
    }
  }

  /** The exact cause, for one step of any interleaving. */
  lemma WhatPlacesLate(cfg: House, s: State, step: Step, start: map<nat, Wallet>)
    requires Inv(cfg, s, start)
    ensures Linked(Next(cfg, s, step).db)
    ensures PlacesLate(cfg, s, step) <==> InsertsAfterTakeOff(s, step)
  {
    StepKeeps(cfg, s, step, start);
    if Enabled(s, step) {
      if step.PlaceBet? {
        PlaceBetInTime(cfg, s, step, start);
      } else if step.PlaceCreating? {
        PlaceInNewInTime(cfg, s, step, start);
      } else if step.PlaceInserting? {
        if InsertsAfterTakeOff(s, step) {
          var db' := Next(cfg, s, step).db;
          assert !db'.rounds[db'.bets[|s.db.bets|].round].status.Waiting?;
        }
      } else {
        LockedStepsAddNoBets(cfg, s, step, start);
      }
    }
  }

  ghost predicate SomePlacesLate(cfg: House, s: State, steps: seq<Step>, start: map<nat, Wallet>)
    requires Inv(cfg, s, start)
    decreases |steps|
  {
    steps != [] &&
    (StepKeeps(cfg, s, steps[0], start);
     PlacesLate(cfg, s, steps[0]) || SomePlacesLate(cfg, Next(cfg, s, steps[0]), steps[1..], start))
  }

  ghost predicate SomeInsertsAfterTakeOff(cfg: House, s: State, steps: seq<Step>, start: map<nat, Wallet>)
    requires Inv(cfg, s, start)
    decreases |steps|
  {
    steps != [] &&
    (StepKeeps(cfg, s, steps[0], start);
     InsertsAfterTakeOff(s, steps[0]) || SomeInsertsAfterTakeOff(cfg, Next(cfg, s, steps[0]), steps[1..], start))
  }

  /**
   * Along a run every bet is placed into a round that waits, if and only if no placeBet inserts its bet into a round
   * it was given unlocked and that has taken off or crashed meanwhile.
   */
  lemma {:induction false} BetsArePlacedInTime(cfg: House, s: State, steps: seq<Step>, start: map<nat, Wallet>)
    requires Inv(cfg, s, start)
    ensures !SomePlacesLate(cfg, s, steps, start) <==> !SomeInsertsAfterTakeOff(cfg, s, steps, start)
    decreases |steps|
  {
    if steps != [] {
      StepKeeps(cfg, s, steps[0], start);
      WhatPlacesLate(cfg, s, steps[0], start);
      BetsArePlacedInTime(cfg, Next(cfg, s, steps[0]), steps[1..], start);
    }
  }

  // ------------------------------------------------------------------- the deadline

  /** The step adds a bet whose betting had ended when the step looked at the clock. */
  ghost predicate PlacesAfterDeadline(cfg: House, s: State, step: Step)
    requires Placed(s) && Linked(Next(cfg, s, step).db)
  {
    var db' := Next(cfg, s, step).db;
    exists i :: |s.db.bets| <= i < |db'.bets| && db'.rounds[db'.bets[i].round].bettingEndsAt <= FirstReading(s, step)
  }

  /** An unlocked insert that goes through after its round's betting has ended, whether or not anyone has noticed. */
  ghost predicate InsertsAfterDeadline(s: State, step: Step)
    requires Placed(s)
  {
    && Enabled(s, step) && step.PlaceInserting?
    && s.db.rounds[s.calls[step.pid].id].bettingEndsAt <= step.now
    && Accepts(s.db, s.calls[step.pid].order, s.calls[step.pid].id)
  }

  /** The exact cause again, when stored times are not coarser than the betting is long. */
  lemma WhatMissesTheDeadline(cfg: House, s: State, step: Step, start: map<nat, Wallet>)
    requires Inv(cfg, s, start) && cfg.tick <= BETTING_MS
    ensures Linked(Next(cfg, s, step).db)
    ensures PlacesAfterDeadline(cfg, s, step) <==> InsertsAfterDeadline(s, step)
  {
    StepKeeps(cfg, s, step, start);
    if Enabled(s, step) {
      if step.PlaceBet? {
        PlaceBetInTime(cfg, s, step, start);
      } else if step.PlaceCreating? {
        PlaceInNewInTime(cfg, s, step, start);
      } else if step.PlaceInserting? {
        if InsertsAfterDeadline(s, step) {
          var db' := Next(cfg, s, step).db;
          assert db'.rounds[db'.bets[|s.db.bets|].round].bettingEndsAt <= FirstReading(s, step);
        }
      } else {
        LockedStepsAddNoBets(cfg, s, step, start);
      }
    }
  }

  ghost predicate SomePlacesAfterDeadline(cfg: House, s: State, steps: seq<Step>, start: map<nat, Wallet>)
    requires Inv(cfg, s, start)
    decreases |steps|
  {
    steps != [] &&
    (StepKeeps(cfg, s, steps[0], start);
     PlacesAfterDeadline(cfg, s, steps[0]) || SomePlacesAfterDeadline(cfg, Next(cfg, s, steps[0]), steps[1..], start))
  }

  ghost predicate SomeInsertsAfterDeadline(cfg: House, s: State, steps: seq<Step>, start: map<nat, Wallet>)
    requires Inv(cfg, s, start)
    decreases |steps|
  {
    steps != [] &&
    (StepKeeps(cfg, s, steps[0], start);
     InsertsAfterDeadline(s, steps[0]) || SomeInsertsAfterDeadline(cfg, Next(cfg, s, steps[0]), steps[1..], start))
  }

  /**
   * Along a run every bet is placed before its round's betting ends, by the clock of the call that places it, if and only
   * if no placeBet inserts its bet later than that into a round it was given unlocked.
   */
  lemma {:induction false} BetsMeetTheDeadline(cfg: House, s: State, steps: seq<Step>, start: map<nat, Wallet>)
    requires Inv(cfg, s, start) && cfg.tick <= BETTING_MS
    ensures !SomePlacesAfterDeadline(cfg, s, steps, start) <==> !SomeInsertsAfterDeadline(cfg, s, steps, start)
    decreases |steps|
  {
    if steps != [] {
      StepKeeps(cfg, s, steps[0], start);
      WhatMissesTheDeadline(cfg, s, steps[0], start);
      BetsMeetTheDeadline(cfg, Next(cfg, s, steps[0]), steps[1..], start);
    }
  }
}
