/**
 * The two seconds between a crash and the next round. They are asked before the advisory lock and not again behind it, so
 * that a call which was waiting for the lock when the round crashed can open the next one at once.
 */
module CrashEarlyRound {
  import opened Numbers
  import opened CrashModel
  import opened CrashMachine
  import opened CrashInvariant
  import opened CrashRuns
  import opened CrashOutcomes
  import CrashPoint

  /** The call has asked about the two seconds and has not made its round yet. */
  ghost predicate Creator(c: Call)
  {
    c.Creating? || c.BetCreating?
  }

  /** The newest round crashed less than two seconds before now. */
  ghost predicate JustCrashed(rounds: seq<Round>, now: int)
  {
    rounds != [] && var last := rounds[|rounds| - 1]; last.crashedAt.Some? && last.crashedAt.value > now - 2000
  }

  ghost predicate OpensEarly(cfg: House, s: State, step: Step)
    requires Placed(s)
  {
    var s' := Next(cfg, s, step);
    |s'.db.rounds| > |s.db.rounds| && JustCrashed(s.db.rounds, s'.clock)
  }

  /** Of the calls on their way to a new round, those that were already so when the newest round crashed. */
  ghost function WaitingSinceCrash(s: State, s': State, waiting: set<nat>): set<nat>
  {
    var n := |s.db.rounds|;
    var crashes := n > 0 && n <= |s'.db.rounds| && !s.db.rounds[n - 1].status.Crashed? && s'.db.rounds[n - 1].status.Crashed?;
    set pid | pid in s'.calls && Creator(s'.calls[pid]) && (crashes || pid in waiting)
  }

  /** Every other such call has seen the two seconds pass. */
  ghost predicate OthersHaveWaited(s: State, waiting: set<nat>)
  {
    var n := |s.db.rounds|;
    forall pid :: pid in s.calls && Creator(s.calls[pid]) && pid !in waiting ==>
      n == 0 || !s.db.rounds[n - 1].status.Crashed? || !JustCrashed(s.db.rounds, s.clock)
  }

  lemma OthersOpenNone(cfg: House, s: State, step: Step, start: map<nat, Wallet>)
    requires Inv(cfg, s, start) && Enabled(s, step) && !step.CreateWaiting? && !step.PlaceCreating?
    ensures |StepDb(cfg, s, step).rounds| == |s.db.rounds|
  {
    match step
    case PlaceBet(pid, o, t) => PlaceBetExactlyWhen(cfg, s, pid, o, t, start);
    case PlaceInserting(pid, now) => PlaceInsertingExactlyWhen(cfg, s, pid, now);
    case _ =>
  }

  /** A round is opened by one of these calls only, and only when all earlier ones have crashed. */
  lemma StepOpensOne(cfg: House, s: State, step: Step, start: map<nat, Wallet>)
    requires Inv(cfg, s, start)
    ensures var s', n := Next(cfg, s, step), |s.db.rounds|;
            && n <= |s'.db.rounds| <= n + 1 && s.clock <= s'.clock
            && (|s'.db.rounds| > n ==>
                  && Enabled(s, step) && (step.CreateWaiting? || step.PlaceCreating?)
                  && step.pid in s.calls && Creator(s.calls[step.pid])
                  && (n == 0 || s.db.rounds[n - 1].status.Crashed?)
                  && OpensNext(cfg, s.db, s'.db.rounds[n], s'.clock))
  {
    if Enabled(s, step) {
      if step.CreateWaiting? || step.PlaceCreating? {
        OpenIsNewest(s.db.rounds);
        NextRound(cfg, s.db, step.roll, step.now, start);
        if step.PlaceCreating? {
          InsertExactlyWhen(CreateRound(cfg, s.db, step.roll, step.now), s.calls[step.pid].order, |s.db.rounds|);
        }
      } else {
        OthersOpenNone(cfg, s, step, start);
      }
    }
  }

  /** A call that begins waiting has just seen them pass. */
  lemma NewCreatorHasWaited(cfg: House, s: State, step: Step, pid: nat)
    requires Placed(s) && Enabled(s, step)
    requires pid in StepCalls(cfg, s, step) && Creator(StepCalls(cfg, s, step)[pid])
    ensures (pid in s.calls && Creator(s.calls[pid])) || !JustCrashed(s.db.rounds, LastReading(s, step))
  {
  }

  lemma CrashedRoundsStand(cfg: House, s: State, step: Step, start: map<nat, Wallet>, i: nat)
    requires Inv(cfg, s, start) && i < |s.db.rounds| && s.db.rounds[i].status.Crashed?
    ensures var rounds' := Next(cfg, s, step).db.rounds; i < |rounds'| && rounds'[i] == s.db.rounds[i]
  {
    StepKeeps(cfg, s, step, start);
    assert RoundGrows(s.db.rounds[i], Next(cfg, s, step).db.rounds[i]);
  }

  lemma StepWaits(cfg: House, s: State, step: Step, start: map<nat, Wallet>, waiting: set<nat>)
    requires Inv(cfg, s, start) && OthersHaveWaited(s, waiting)
    ensures OthersHaveWaited(Next(cfg, s, step), WaitingSinceCrash(s, Next(cfg, s, step), waiting))
  {
    var s', n := Next(cfg, s, step), |s.db.rounds|;
    StepOpensOne(cfg, s, step, start);
    if Enabled(s, step) && |s'.db.rounds| == n > 0 && s'.db.rounds[n - 1].status.Crashed? {
      if s.db.rounds[n - 1].status.Crashed? { CrashedRoundsStand(cfg, s, step, start, n - 1); }
      forall pid | pid in s'.calls && Creator(s'.calls[pid]) && pid !in WaitingSinceCrash(s, s', waiting)
        ensures !JustCrashed(s'.db.rounds, s'.clock)
      {
        NewCreatorHasWaited(cfg, s, step, pid);
      }
    }
  }

  // ------------------------------------------------------------------- over runs

  ghost predicate SomeOpensEarly(cfg: House, s: State, steps: seq<Step>, start: map<nat, Wallet>)
    requires Inv(cfg, s, start)
    decreases |steps|
  {
    steps != [] &&
    (StepKeeps(cfg, s, steps[0], start);
     OpensEarly(cfg, s, steps[0]) || SomeOpensEarly(cfg, Next(cfg, s, steps[0]), steps[1..], start))
  }

  /** Some round is opened early by a call that was waiting when the round before it crashed. */
  ghost predicate SomeWaiterOpensEarly(cfg: House, s: State, steps: seq<Step>, start: map<nat, Wallet>, waiting: set<nat>)
    requires Inv(cfg, s, start)
    decreases |steps|
  {
    steps != [] &&
    (StepKeeps(cfg, s, steps[0], start);
     var s' := Next(cfg, s, steps[0]);
     || (OpensEarly(cfg, s, steps[0]) && (steps[0].CreateWaiting? || steps[0].PlaceCreating?) && steps[0].pid in waiting)
     || SomeWaiterOpensEarly(cfg, s', steps[1..], start, WaitingSinceCrash(s, s', waiting)))
  }

  lemma {:induction false} EarlyRoundsFrom(cfg: House, s: State, steps: seq<Step>, start: map<nat, Wallet>, waiting: set<nat>)
    requires Inv(cfg, s, start) && OthersHaveWaited(s, waiting)
    ensures SomeOpensEarly(cfg, s, steps, start) <==> SomeWaiterOpensEarly(cfg, s, steps, start, waiting)
    decreases |steps|
  {
    if steps != [] {
      var s' := Next(cfg, s, steps[0]);
      StepKeeps(cfg, s, steps[0], start);
      StepOpensOne(cfg, s, steps[0], start);
      StepWaits(cfg, s, steps[0], start, waiting);
      EarlyRoundsFrom(cfg, s', steps[1..], start, WaitingSinceCrash(s, s', waiting));
    }
  }

  /**
   * Along a run a round follows a crash within two seconds, if and only if a call that was waiting for the advisory lock
   * when that round crashed opens it.
   */
  lemma EarlyRoundsHaveAWaiter(cfg: House, s: State, steps: seq<Step>)
    requires Initial(s)
    ensures Inv(cfg, s, s.db.wallets)
    ensures SomeOpensEarly(cfg, s, steps, s.db.wallets) <==> SomeWaiterOpensEarly(cfg, s, steps, s.db.wallets, {})
  {
    InitialInv(cfg, s);
    EarlyRoundsFrom(cfg, s, steps, s.db.wallets, {});
  }

  // --------------------------------------------------------- a round that follows at once

  /** The wallets are anyone's. */
  function House0(wallets: map<nat, Wallet>, rounds: seq<Round>, calls: map<nat, Call>, clock: int): State
  {
    State(Db(rounds, [], wallets, 10.0), calls, clock)
  }

  /** Two calls (1, 2) find no round; the second opens one, which busts at 1.00 when a poll (3) starts it; then the first goes on. */
  const STEPS: seq<Step> := [
    AdvanceWrite(1, AtInstant(0)), AdvanceWrite(2, AtInstant(0)), CreateWaiting(2, 0, 0), AdvanceWrite(3, AtInstant(BETTING_MS)),
    CreateWaiting(1, 0, BETTING_MS)]

  function FirstRound(cfg: House): Round { Round(1, Waiting, 100, Stamp(cfg, BETTING_MS), None, None) }

  function OverRound(cfg: House): Round
  {
    FirstRound(cfg).(status := Crashed, startedAt := Some(Stamp(cfg, BETTING_MS)), crashedAt := Some(Stamp(cfg, BETTING_MS)))
  }

  /** The state before step k. */
  function Before(cfg: House, wallets: map<nat, Wallet>, k: nat): State
    requires k <= 4
  {
    match k
    case 0 => House0(wallets, [], map[], 0)
    case 1 => House0(wallets, [], map[1 := Creating], 0)
    case 2 => House0(wallets, [], map[1 := Creating, 2 := Creating], 0)
    case 3 => House0(wallets, [FirstRound(cfg)], map[1 := Creating], 0)
    case _ => House0(wallets, [OverRound(cfg)], map[1 := Creating], BETTING_MS)
  }

  lemma OpeningSteps(cfg: House, wallets: map<nat, Wallet>, k: nat)
    requires k < 3 && Placed(Before(cfg, wallets, k))
    ensures Next(cfg, Before(cfg, wallets, k), STEPS[k]) == Before(cfg, wallets, k + 1)
  {
    assert MaxNumber([]) == 0;
    assert OpenRoundBelow([], 0).None?;
    assert CrashPoint.Generate(cfg.edge, 10.0, 0) == 100;
  }

  lemma BustStep(cfg: House, wallets: map<nat, Wallet>)
    requires Placed(Before(cfg, wallets, 3))
    ensures Next(cfg, Before(cfg, wallets, 3), STEPS[3]) == Before(cfg, wallets, 4)
  {
    var db := Before(cfg, wallets, 3).db;
    var t, at := AtInstant(BETTING_MS), Stamp(cfg, BETTING_MS);
    StampIsStored(cfg, BETTING_MS);
    assert OpenRound(db.rounds) == Some(0);
    var m := RunningMultiplier(cfg, 10.0, BETTING_MS - at);
    CentsBounds(RealMin(10.0, cfg.growth(BETTING_MS - at)));
    AdvanceRound(cfg, db, 0, t, at, m, 100, at);
    assert AdvanceOpen(cfg, db, 0, t).bets == [];
    AutoPaysNobody(db.(rounds := [FirstRound(cfg).(status := Running, startedAt := Some(at))]), 0, m);
  }

  lemma AutoPaysNobody(db: Db, id: nat, m: int)
    requires Linked(db) && id < |db.rounds| && db.bets == []
    ensures AutoCashouts(db, id, m, 0) == db
  {
  }

  /** From any empty house: a round crashes, and the next is opened at the same instant. */
  lemma ARoundFollowsAtOnce(cfg: House, wallets: map<nat, Wallet>)
    requires cfg.tick <= 2000
    requires forall u :: u in wallets ==> wallets[u].balance >= 0 && wallets[u].bonus >= 0
    ensures Initial(Before(cfg, wallets, 0)) && Inv(cfg, Before(cfg, wallets, 0), wallets)
    ensures var s := Run(cfg, Before(cfg, wallets, 0), STEPS[..4], wallets);
            && Placed(s) && s.clock == BETTING_MS && |s.db.rounds| == 1 && s.db.rounds[0].status.Crashed?
            && OpensEarly(cfg, s, STEPS[4]) && Next(cfg, s, STEPS[4]).clock == BETTING_MS
  {
    InitialInv(cfg, Before(cfg, wallets, 0));
    var path := seq(5, i requires 0 <= i < 5 => Before(cfg, wallets, i));
    forall i | 0 <= i < 4 && Placed(path[i]) ensures Next(cfg, path[i], STEPS[..4][i]) == path[i + 1] {
      if i < 3 { OpeningSteps(cfg, wallets, i); } else { BustStep(cfg, wallets); }
    }
    RunsAlong(cfg, path, STEPS[..4], wallets);
    RunKeeps(cfg, path[0], STEPS[..4], wallets);
    StampIsStored(cfg, BETTING_MS);
    assert OpenRound(path[4].db.rounds).None?;
  }
}
