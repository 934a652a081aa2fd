/** The run that strands a bet: concrete callers, one round that busts at 1.00, one bet that arrives after it. */
module CrashLateBet {
  import opened Numbers
  import opened CrashModel
  import opened CrashMachine
  import opened CrashInvariant
  import opened CrashRuns
  import opened CrashStranded
  import CrashPoint

  const STAKE := Order(7, 100, 1, None)

  /**
   * placeBet (1) finds no open round, another caller (2) creates one, placeBet reads that round as waiting; a
   * poll (3) starts it, crashes it at 1.00 and loses its bets; only then is the bet inserted.
   */
  const STEPS: seq<Step> := [
    PlaceBet(1, STAKE, AtInstant(0)), AdvanceWrite(2, AtInstant(0)), CreateWaiting(2, 0, 0), PlaceCreating(1, 0, 0),
    LightRead(3), LightStart(3, BETTING_MS), LightRefresh(3), LightDecide(3, BETTING_MS), LightLose(3),
    PlaceInserting(1, BETTING_MS)]

  function NewRound(cfg: House): Round { Round(1, Waiting, 100, Stamp(cfg, BETTING_MS), None, None) }

  function StartedRound(cfg: House): Round { Started(cfg, NewRound(cfg), BETTING_MS) }

  function OverRound(cfg: House): Round { CrashedRow(cfg, 10.0, StartedRound(cfg), BETTING_MS) }

  function With(rounds: seq<Round>, calls: map<nat, Call>, clock: int): State
  {
    State(Db(rounds, [], map[7 := Wallet(100, 0)], 10.0), calls, clock)
  }

  function LateBet(): Bet { Bet(0, 7, 1, 100, 100, 0, None, Active) }

  /** The state before step k. */
  function Before(cfg: House, k: nat): State
    requires k <= |STEPS|
  {
    var waiting := BetInserting(STAKE, 0);
    match k
    case 0 => With([], map[], 0)
    case 1 => With([], map[1 := BetCreating(STAKE)], 0)
    case 2 => With([], map[1 := BetCreating(STAKE), 2 := Creating], 0)
    case 3 => With([NewRound(cfg)], map[1 := BetCreating(STAKE)], 0)
    case 4 => With([NewRound(cfg)], map[1 := waiting], 0)
    case 5 => With([NewRound(cfg)], map[1 := waiting, 3 := LightDeciding(0, NewRound(cfg))], 0)
    case 6 => With([StartedRound(cfg)], map[1 := waiting, 3 := LightRefreshing(0)], BETTING_MS)
    case 7 => With([StartedRound(cfg)], map[1 := waiting, 3 := LightJudging(0, StartedRound(cfg))], BETTING_MS)
    case 8 => With([OverRound(cfg)], map[1 := waiting, 3 := LightBurying(0)], BETTING_MS)
    case 9 => With([OverRound(cfg)], map[1 := waiting], BETTING_MS)
    case _ => State(Db([OverRound(cfg)], [LateBet()], map[7 := Wallet(0, 0)], 10.0), map[], BETTING_MS)
  }

  lemma CreatingSteps(cfg: House, k: nat)
    requires cfg.minBet <= 100 <= cfg.maxBet && k < 4
    ensures Placed(Before(cfg, k)) && Next(cfg, Before(cfg, k), STEPS[k]) == Before(cfg, k + 1)
  {
    assert Placed(Before(cfg, k));
    assert OpenRoundBelow([], 0).None?;
    match k
    case 0 =>
    case 1 =>
    case 2 => assert MaxNumber([]) == 0;
    case _ => assert OpenRound([NewRound(cfg)]) == Some(0);
  }

  lemma PollingSteps(cfg: House, k: nat)
    requires 4 <= k < 7 && Placed(Before(cfg, k))
    ensures Next(cfg, Before(cfg, k), STEPS[k]) == Before(cfg, k + 1)
  {
    assert OpenRound([NewRound(cfg)]) == Some(0);
    match k
    case 4 =>
    case 5 =>
    case _ =>
  }

  lemma CrashStep(cfg: House)
    ensures Placed(Before(cfg, 7)) && Next(cfg, Before(cfg, 7), STEPS[7]) == Before(cfg, 8)
  {
    assert Placed(Before(cfg, 7));
    EffectiveBounds(10.0, 100);
    assert LightCrashes(cfg, Before(cfg, 7).db, 0, StartedRound(cfg), BETTING_MS);
    assert LightCrash(cfg, Before(cfg, 7).db, 0, StartedRound(cfg), BETTING_MS) == Before(cfg, 8).db;
  }

  lemma StakeIsTaken(rounds: seq<Round>)
    ensures InsertBet(Db(rounds, [], map[7 := Wallet(100, 0)], 10.0), STAKE, 0)
         == Committed(Db(rounds, [LateBet()], map[7 := Wallet(0, 0)], 10.0))
  {
  }

  /** Each step of the run leads from one named state to the next. */
  lemma OneStep(cfg: House, k: nat)
    requires cfg.minBet <= 100 <= cfg.maxBet && k < |STEPS| && Placed(Before(cfg, k))
    ensures Next(cfg, Before(cfg, k), STEPS[k]) == Before(cfg, k + 1)
  {
    if k < 4 { CreatingSteps(cfg, k); } else if k < 7 { PollingSteps(cfg, k); }
    else if k == 7 { CrashStep(cfg); } else if k == 9 { StakeIsTaken([OverRound(cfg)]); }
  }

  /** From an empty house, the ten steps leave bet 0 active in a crashed round, with nobody about to bury it. */
  lemma ABetIsStranded(cfg: House)
    requires cfg.minBet <= 100 <= cfg.maxBet
    ensures Initial(Before(cfg, 0)) && Inv(cfg, Before(cfg, 0), Before(cfg, 0).db.wallets)
    ensures var end := Run(cfg, Before(cfg, 0), STEPS, Before(cfg, 0).db.wallets);
            Linked(end.db) && Stranded(end, 0) && end.db.wallets == map[7 := Wallet(0, 0)]
  {
    InitialInv(cfg, Before(cfg, 0));
    var path := seq(|STEPS| + 1, i requires 0 <= i < |STEPS| + 1 => Before(cfg, i));
    forall i | 0 <= i < |STEPS| && Placed(path[i]) ensures Next(cfg, path[i], STEPS[i]) == path[i + 1] {
      OneStep(cfg, i);
    }
    RunsAlong(cfg, path, STEPS, Before(cfg, 0).db.wallets);
  }
}
