/** Safety of the crash game over whole runs: any number of callers, interleaved in any way. */
module CrashRuns {
  import opened Numbers
  import opened CrashModel
  import opened CrashMachine
  import opened CrashInvariant
  import CrashPoint

  // --------------------------------------------------------------- one step

  /** What a call in flight has read is an older version of a row that still exists. */
  ghost predicate CallOk(cfg: House, db: Db, c: Call)
  {
    && CallPlaced(db, c)
    && match c
       case BetCreating(order) => Admissible(cfg, order)
       case BetInserting(order, _) => Admissible(cfg, order)
       case LightDeciding(id, seen) => RoundGrows(seen, db.rounds[id])
       case LightJudging(id, seen) => RoundGrows(seen, db.rounds[id])
       case LightBurying(id) => db.rounds[id].status.Crashed?
       case _ => true
  }

  ghost predicate Inv(cfg: House, s: State, start: map<nat, Wallet>)
  {
    DbOk(s.db, start) && forall pid :: pid in s.calls ==> CallOk(cfg, s.db, s.calls[pid])
  }

  lemma LightWritesKeep(cfg: House, db: Db, id: nat, seen: Round, now: int, start: map<nat, Wallet>)
    requires DbOk(db, start) && id < |db.rounds| && RoundGrows(seen, db.rounds[id])
    ensures DbOk(LightTakeOff(cfg, db, id, seen, now), start) && Grows(db, LightTakeOff(cfg, db, id, seen, now))
    ensures DbOk(LightCrash(cfg, db, id, seen, now), start) && Grows(db, LightCrash(cfg, db, id, seen, now))
    ensures LightCrashes(cfg, db, id, seen, now) ==> LightCrash(cfg, db, id, seen, now).rounds[id].status.Crashed?
  {
    if LightCrashes(cfg, db, id, seen, now) {
      EffectiveBounds(db.maxMultiplier, seen.crashPoint);
    }
  }

  lemma PlaceKeeps(cfg: House, db: Db, order: Order, id: nat, t: Reads, start: map<nat, Wallet>)
    requires DbOk(db, start) && id < |db.rounds| && Admissible(cfg, order)
    ensures var db' := Result(db, PlaceOnOpen(cfg, db, order, id, t)); DbOk(db', start) && Grows(db, db')
  {
    if PlaceOnOpen(cfg, db, order, id, t).Committed? {
      var advanced := AdvanceOpen(cfg, db, id, t);
      AdvanceKeeps(cfg, db, id, t, start);
      InsertKeeps(cfg, advanced, order, id, start);
      GrowsTransitive(db, advanced, InsertBet(advanced, order, id).db);
    }
  }

  lemma PlaceInNewKeeps(cfg: House, db: Db, order: Order, roll: nat, now: int, start: map<nat, Wallet>)
    requires DbOk(db, start) && OpenRound(db.rounds).None? && Admissible(cfg, order) && roll <= CrashPoint.MAX_ROLL
    ensures var db' := Result(db, InsertBet(CreateRound(cfg, db, roll, now), order, |db.rounds|));
            DbOk(db', start) && Grows(db, db')
  {
    var created := CreateRound(cfg, db, roll, now);
    CreateKeeps(cfg, db, roll, now, start);
    if InsertBet(created, order, |db.rounds|).Committed? {
      InsertKeeps(cfg, created, order, |db.rounds|, start);
      GrowsTransitive(db, created, InsertBet(created, order, |db.rounds|).db);
    }
  }

  lemma InsertResultKeeps(cfg: House, db: Db, order: Order, id: nat, start: map<nat, Wallet>)
    requires DbOk(db, start) && id < |db.rounds| && Admissible(cfg, order)
    ensures var db' := Result(db, InsertBet(db, order, id)); DbOk(db', start) && Grows(db, db')
  {
    if InsertBet(db, order, id).Committed? {
      InsertKeeps(cfg, db, order, id, start);
    }
  }

  lemma CashoutResultKeeps(cfg: House, db: Db, i: nat, t: Reads, start: map<nat, Wallet>)
    requires DbOk(db, start) && i < |db.bets|
    ensures var db' := Result(db, CashoutLocked(cfg, db, i, t)); DbOk(db', start) && Grows(db, db')
  {
    if CashoutLocked(cfg, db, i, t).Committed? {
      CashoutKeeps(cfg, db, i, t, start);
    }
  }

  lemma LightStepKeepsRows(cfg: House, s: State, step: Step, start: map<nat, Wallet>)
    requires Inv(cfg, s, start) && Enabled(s, step)
    requires step.LightRead? || step.LightStart? || step.LightRefresh? || step.LightDecide? || step.LightLose?
             || step.CashoutLocate? || step.Tick? || step.Die?
    ensures DbOk(StepDb(cfg, s, step), start) && Grows(s.db, StepDb(cfg, s, step))
  {
    var db := s.db;
    if step.LightStart? {
      LightWritesKeep(cfg, db, s.calls[step.pid].id, s.calls[step.pid].seen, step.now, start);
    } else if step.LightDecide? {
      LightWritesKeep(cfg, db, s.calls[step.pid].id, s.calls[step.pid].seen, step.now, start);
    } else if step.LightLose? {
      BuryKeeps(db, s.calls[step.pid].id, start);
    } else {
      assert StepDb(cfg, s, step) == db;
    }
  }

  lemma PlaceStepKeepsRows(cfg: House, s: State, step: Step, start: map<nat, Wallet>)
    requires Inv(cfg, s, start) && Enabled(s, step) && (step.PlaceBet? || step.PlaceCreating? || step.PlaceInserting?)
    ensures DbOk(StepDb(cfg, s, step), start) && Grows(s.db, StepDb(cfg, s, step))
  {
    var db := s.db;
    var open := OpenRound(db.rounds);
    if step.PlaceBet? {
      if Admissible(cfg, step.order) && open.Some? { PlaceKeeps(cfg, db, step.order, open.value, step.t, start); }
    } else {
      assert CallOk(cfg, db, s.calls[step.pid]);
      var order := s.calls[step.pid].order;
      if step.PlaceInserting? {
        InsertResultKeeps(cfg, db, order, s.calls[step.pid].id, start);
      } else if open.None? {
        PlaceInNewKeeps(cfg, db, order, step.roll, step.now, start);
      }
    }
  }

  /** Every step keeps the row invariant and only lets rows grow. */
  lemma StepKeepsRows(cfg: House, s: State, step: Step, start: map<nat, Wallet>)
    requires Inv(cfg, s, start) && Enabled(s, step)
    ensures DbOk(StepDb(cfg, s, step), start) && Grows(s.db, StepDb(cfg, s, step))
  {
    var db := s.db;
    var open := OpenRound(db.rounds);
    match step
    case AdvanceWrite(_, t) =>
      if open.Some? { AdvanceKeeps(cfg, db, open.value, t, start); }
    case CreateWaiting(_, roll, now) =>
      if open.None? { CreateKeeps(cfg, db, roll, now, start); }
    case PlaceBet(_, _, _) => PlaceStepKeepsRows(cfg, s, step, start);
    case PlaceCreating(_, _, _) => PlaceStepKeepsRows(cfg, s, step, start);
    case PlaceInserting(_, _) => PlaceStepKeepsRows(cfg, s, step, start);
    case CashoutCommit(pid, t) => CashoutResultKeeps(cfg, db, s.calls[pid].bet, t, start);
    case SetMaxMultiplier(_) =>
    case _ => LightStepKeepsRows(cfg, s, step, start);
  }

  lemma StepKeeps(cfg: House, s: State, step: Step, start: map<nat, Wallet>)
    requires Inv(cfg, s, start)
    ensures Inv(cfg, Next(cfg, s, step), start)
    ensures Grows(s.db, Next(cfg, s, step).db)
  {
    if Enabled(s, step) {
      StepKeepsRows(cfg, s, step, start);
      var db', calls' := StepDb(cfg, s, step), StepCalls(cfg, s, step);
      forall pid | pid in calls'
        ensures CallOk(cfg, db', calls'[pid])
      {
        if pid !in s.calls || calls'[pid] != s.calls[pid] {
          NewCallOk(cfg, s, step, pid, start);
        }
      }
    }
  }

  /** A call that a step begins or moves on is well placed after the step. */
  lemma NewCallOk(cfg: House, s: State, step: Step, pid: nat, start: map<nat, Wallet>)
    requires Inv(cfg, s, start) && Enabled(s, step)
    requires pid in StepCalls(cfg, s, step) && (pid !in s.calls || StepCalls(cfg, s, step)[pid] != s.calls[pid])
    ensures CallOk(cfg, StepDb(cfg, s, step), StepCalls(cfg, s, step)[pid])
  {
    if step.PlaceCreating? {
      assert CallOk(cfg, s.db, s.calls[step.pid]);
    }
  }

  // -------------------------------------------------------------------- runs

  /** No rounds, no bets, and wallets that are not overdrawn. */
  ghost predicate Initial(s: State)
  {
    && s.db.rounds == [] && s.db.bets == [] && s.calls == map[] && s.db.maxMultiplier >= 1.0
    && forall u :: u in s.db.wallets ==> s.db.wallets[u].balance >= 0 && s.db.wallets[u].bonus >= 0
  }

  /** The state after a sequence of steps, taken one after the other. */
  ghost function Run(cfg: House, s: State, steps: seq<Step>, start: map<nat, Wallet>): State
    requires Inv(cfg, s, start)
    decreases |steps|
  {
    if steps == [] then s
    else
      StepKeeps(cfg, s, steps[0], start);
      Run(cfg, Next(cfg, s, steps[0]), steps[1..], start)
  }

  lemma InitialInv(cfg: House, s: State)
    requires Initial(s)
    ensures Inv(cfg, s, s.db.wallets)
  {
  }

  /** Along every run the invariant holds and rows only grow. */
  lemma {:induction false} RunKeeps(cfg: House, s: State, steps: seq<Step>, start: map<nat, Wallet>)
    requires Inv(cfg, s, start)
    ensures Inv(cfg, Run(cfg, s, steps, start), start)
    ensures Grows(s.db, Run(cfg, s, steps, start).db)
    decreases |steps|
  {
    if steps != [] {
      StepKeeps(cfg, s, steps[0], start);
      var mid := Next(cfg, s, steps[0]);
      RunKeeps(cfg, mid, steps[1..], start);
      GrowsTransitive(s.db, mid.db, Run(cfg, mid, steps[1..], start).db);
    }
  }

  /** A run through named states: when each step leads from one to the next, the run ends in the last. */
  lemma {:induction false} RunsAlong(cfg: House, path: seq<State>, steps: seq<Step>, start: map<nat, Wallet>)
    requires |path| == |steps| + 1 && Inv(cfg, path[0], start)
    requires forall i :: 0 <= i < |steps| && Placed(path[i]) ==> Next(cfg, path[i], steps[i]) == path[i + 1]
    ensures Run(cfg, path[0], steps, start) == path[|steps|]
    decreases |steps|
  {
    if steps != [] {
      StepKeeps(cfg, path[0], steps[0], start);
      RunsAlong(cfg, path[1..], steps[1..], start);
    }
  }

  ghost predicate AtMostOneOpen(rounds: seq<Round>)
  {
    forall i, j | 0 <= i < |rounds| && 0 <= j < |rounds| && !rounds[i].status.Crashed? && !rounds[j].status.Crashed? ::
      i == j
  }

  ghost predicate NoSlotTwice(bets: seq<Bet>)
  {
    forall i, j | 0 <= i < |bets| && 0 <= j < |bets| && SameSlot(bets[i], bets[j]) :: i == j
  }

  /** At most one round is waiting or running, numbers have no gaps, and no two bets share a slot of a round. */
  lemma OneOpenRound(cfg: House, s: State, steps: seq<Step>)
    requires Initial(s)
    ensures Inv(cfg, s, s.db.wallets)
    ensures var db := Run(cfg, s, steps, s.db.wallets).db;
            && AtMostOneOpen(db.rounds) && NoSlotTwice(db.bets)
            && forall i :: 0 <= i < |db.rounds| ==> db.rounds[i].number == i + 1
  {
    InitialInv(cfg, s);
    RunKeeps(cfg, s, steps, s.db.wallets);
  }

  /** Conservation: every user's total is the initial one, less all stakes, plus all payouts, and is never negative. */
  lemma MoneyIsConserved(cfg: House, s: State, steps: seq<Step>, u: nat)
    requires Initial(s) && u in s.db.wallets
    ensures Inv(cfg, s, s.db.wallets)
    ensures var db := Run(cfg, s, steps, s.db.wallets).db;
            && u in db.wallets
            && db.wallets[u].Available() == s.db.wallets[u].Available() + Net(db.bets, u)
            && db.wallets[u].balance >= 0 && db.wallets[u].bonus >= 0
  {
    InitialInv(cfg, s);
    RunKeeps(cfg, s, steps, s.db.wallets);
  }

  /** Between any two points of a run: settled bets are final, and a crashed round pays nobody from then on. */
  lemma SettledIsFinal(cfg: House, s: State, steps: seq<Step>, start: map<nat, Wallet>, i: nat)
    requires Inv(cfg, s, start)
    ensures Inv(cfg, Run(cfg, s, steps, start), start)
    ensures var bets' := Run(cfg, s, steps, start).db.bets;
            i < |bets'| ==>
            && (i < |s.db.bets| && !s.db.bets[i].status.Active? ==> bets'[i] == s.db.bets[i])
            && (bets'[i].status.CashedOut? && bets'[i].round < |s.db.rounds|
                && s.db.rounds[bets'[i].round].status.Crashed?
                ==> i < |s.db.bets| && s.db.bets[i] == bets'[i])
  {
    RunKeeps(cfg, s, steps, start);
    var db' := Run(cfg, s, steps, start).db;
    if i < |s.db.bets| {
      assert BetGrows(s.db.bets[i], db'.bets[i], s.db.rounds[s.db.bets[i].round].status.Crashed?);
    }
  }
}
