/**
 * One concrete run, from an empty house: a bet that arrives after take-off, is paid in the running round, and is
 * undercut by a lower cap. The house, the moment of take-off and the moment of the cash-out are left open, so that
 * the growth has only to be somewhere below the crash point when the player cashes out.
 */
module CrashCounterexamples {
  import opened Numbers
  import opened CrashModel
  import opened CrashMachine
  import opened CrashInvariant
  import opened CrashRuns
  import opened CrashOutcomes
  import opened CrashPayouts
  import opened CrashPaths
  import CrashPlacement
  import CrashPoint

  /** User 7's wallet holds 1.00; the round takes off and the player cashes out at two instants, at multiplier m. */
  datatype Play = Play(wallets: map<nat, Wallet>, auto: Option<int>, takeOff: int, cashOut: int, m: int)

  /** What the run asks: bets of 1.00, an edge of one half or less, a stored instant, a multiplier of 2.00 to 9.99. */
  ghost predicate Fits(cfg: House, p: Play)
  {
    && cfg.minBet <= 100 <= cfg.maxBet && cfg.edge <= 0.5
    && p.takeOff >= BETTING_MS && p.takeOff % cfg.tick == 0 && p.takeOff <= p.cashOut
    && p.m == RunningMultiplier(cfg, 10.0, p.cashOut - p.takeOff) && 200 <= p.m < 1000
    && 7 in p.wallets && p.wallets[7] == Wallet(100, 0)
    && (forall u :: u in p.wallets ==> p.wallets[u].balance >= 0 && p.wallets[u].bonus >= 0)
    && (p.auto.Some? ==> 101 <= p.auto.value <= 200)
  }

  function Stake(auto: Option<int>): Order { Order(7, 100, 1, auto) }

  /**
   * placeBet (1) finds no open round, another caller (2) creates one, placeBet is given it without a lock, a third
   * caller starts it, and only then is the bet inserted; the player cashes out (4), and the cap goes down to 2.00.
   */
  function Steps(p: Play): seq<Step>
  {
    [PlaceBet(1, Stake(p.auto), AtInstant(0)), AdvanceWrite(2, AtInstant(0)), CreateWaiting(2, CrashPoint.MAX_ROLL, 0),
     PlaceCreating(1, 0, 0), AdvanceWrite(3, AtInstant(p.takeOff)), PlaceInserting(1, p.takeOff),
     CashoutLocate(4, 7, 1), CashoutCommit(4, AtInstant(p.cashOut)), SetMaxMultiplier(2.0)]
  }

  function WaitingRow(cfg: House): Round { Round(1, Waiting, 1000, Stamp(cfg, BETTING_MS), None, None) }

  function RunningRow(cfg: House, takeOff: int): Round { WaitingRow(cfg).(status := Running, startedAt := Some(takeOff)) }

  function BetRow(auto: Option<int>, status: BetStatus): Bet { Bet(0, 7, 1, 100, 100, 0, auto, status) }

  function Empty(p: Play, rounds: seq<Round>, calls: map<nat, Call>, clock: int): State
  {
    State(Db(rounds, [], p.wallets, 10.0), calls, clock)
  }

  /** The rows once the bet is in, and once it is paid. */
  function Played(cfg: House, p: Play): Db
  {
    var db := Empty(p, [RunningRow(cfg, p.takeOff)], map[], 0).db;
    db.(bets := db.bets + [BetRow(p.auto, Active)], wallets := db.wallets[7 := Wallet(0, 0)])
  }

  function PaidUp(cfg: House, p: Play): Db
  {
    var db := Played(cfg, p);
    db.(bets := [BetRow(p.auto, CashedOut(p.m, p.m))], wallets := db.wallets[7 := Wallet(p.m, 0)])
  }

  /** The state before step k. */
  function Before(cfg: House, p: Play, k: nat): State
    requires k <= 9
  {
    var o := Stake(p.auto);
    match k
    case 0 => Empty(p, [], map[], 0)
    case 1 => Empty(p, [], map[1 := BetCreating(o)], 0)
    case 2 => Empty(p, [], map[1 := BetCreating(o), 2 := Creating], 0)
    case 3 => Empty(p, [WaitingRow(cfg)], map[1 := BetCreating(o)], 0)
    case 4 => Empty(p, [WaitingRow(cfg)], map[1 := BetInserting(o, 0)], 0)
    case 5 => Empty(p, [RunningRow(cfg, p.takeOff)], map[1 := BetInserting(o, 0)], p.takeOff)
    case 6 => State(Played(cfg, p), map[], p.takeOff)
    case 7 => State(Played(cfg, p), map[4 := CashingOut(0)], p.takeOff)
    case 8 => State(PaidUp(cfg, p), map[], p.cashOut)
    case _ => State(PaidUp(cfg, p).(maxMultiplier := 2.0), map[], p.cashOut)
  }

  lemma TheDraw(cfg: House)
    requires cfg.edge <= 0.5
    ensures CrashPoint.Generate(cfg.edge, 10.0, CrashPoint.MAX_ROLL) == 1000
  {
    CrashPoint.TopRollDrawsTheCap(cfg.edge, 10.0);
  }

  lemma CreatingSteps(cfg: House, p: Play, k: nat)
    requires Fits(cfg, p) && k < 4 && Placed(Before(cfg, p, k))
    ensures Next(cfg, Before(cfg, p, k), Steps(p)[k]) == Before(cfg, p, k + 1)
  {
    assert OpenRoundBelow([], 0).None?;
    match k
    case 0 =>
    case 1 =>
    case 2 => TheDraw(cfg); assert MaxNumber([]) == 0;
    case _ => assert OpenRound([WaitingRow(cfg)]) == Some(0);
  }

  lemma TakeOffStep(cfg: House, p: Play)
    requires Fits(cfg, p) && Placed(Before(cfg, p, 4))
    ensures Next(cfg, Before(cfg, p, 4), AdvanceWrite(3, AtInstant(p.takeOff))) == Before(cfg, p, 5)
  {
    var s := Before(cfg, p, 4);
    assert OpenRound(s.db.rounds) == Some(0);
    EffectiveBounds(10.0, 1000);
    assert RunningMultiplier(cfg, 10.0, 0) == 100;
    assert Effective(10.0, 1000) == 1000;
    assert TakeOffIfDue(cfg, s.db, 0, AtInstant(p.takeOff)).rounds == [RunningRow(cfg, p.takeOff)];
  }

  lemma InsertEndsTheCall(cfg: House, p: Play, s: State)
    requires s == Empty(p, [RunningRow(cfg, p.takeOff)], map[1 := BetInserting(Stake(p.auto), 0)], p.takeOff)
    ensures Placed(s) && Enabled(s, PlaceInserting(1, p.takeOff))
    ensures StepCalls(cfg, s, PlaceInserting(1, p.takeOff)) == map[]
  {
    assert Placed(s);
  }

  lemma StakeIsTaken(db: Db, auto: Option<int>, db': Db)
    requires auto.Some? ==> 101 <= auto.value <= 200
    requires db.maxMultiplier == 10.0 && db.bets == [] && 7 in db.wallets && db.wallets[7] == Wallet(100, 0)
    ensures Accepts(db, Stake(auto), 0)
    ensures Inserted(db, db', Stake(auto), 0) ==>
              db' == db.(bets := db.bets + [BetRow(auto, Active)], wallets := db.wallets[7 := Wallet(0, 0)])
  {
  }

  lemma InsertGoesThrough(cfg: House, p: Play, s: State)
    requires Fits(cfg, p) && s == Before(cfg, p, 5)
    ensures Placed(s) && Enabled(s, PlaceInserting(1, p.takeOff))
    ensures StepDb(cfg, s, PlaceInserting(1, p.takeOff)) == Played(cfg, p)
  {
    InsertEndsTheCall(cfg, p, s);
    StakeIsTaken(s.db, p.auto, StepDb(cfg, s, PlaceInserting(1, p.takeOff)));
    PlaceInsertingExactlyWhen(cfg, s, 1, p.takeOff);
  }

  lemma InsertIsLate(cfg: House, p: Play, s: State)
    requires Fits(cfg, p) && s == Before(cfg, p, 5)
    ensures Placed(s) && CrashPlacement.InsertsAfterTakeOff(s, PlaceInserting(1, p.takeOff))
  {
    InsertEndsTheCall(cfg, p, s);
    StakeIsTaken(s.db, p.auto, s.db);
  }

  lemma InsertStep(cfg: House, p: Play)
    requires Fits(cfg, p) && Placed(Before(cfg, p, 5))
    ensures Next(cfg, Before(cfg, p, 5), PlaceInserting(1, p.takeOff)) == Before(cfg, p, 6)
  {
    InsertGoesThrough(cfg, p, Before(cfg, p, 5));
    InsertEndsTheCall(cfg, p, Before(cfg, p, 5));
  }

  lemma CashoutSteps(cfg: House, p: Play, k: nat)
    requires Fits(cfg, p) && 6 <= k < 9 && Placed(Before(cfg, p, k))
    ensures Next(cfg, Before(cfg, p, k), Steps(p)[k]) == Before(cfg, p, k + 1)
  {
    var s := Before(cfg, p, k);
    assert Effective(10.0, 1000) == 1000;
    if k == 6 {
      assert NewestActive(s.db.bets, 7, 1, 1) == Some(0);
    } else if k == 7 {
      assert CurrentMultiplier(cfg, 10.0, s.db.rounds[0], p.cashOut) == p.m;
      assert Payout(100, p.m) == p.m;
      assert StepCalls(cfg, s, Steps(p)[k]) == map[];
    }
  }

  /** Each step of the run leads from one named state to the next. */
  lemma OneStep(cfg: House, p: Play, k: nat)
    requires Fits(cfg, p) && k < 9 && Placed(Before(cfg, p, k))
    ensures Next(cfg, Before(cfg, p, k), Steps(p)[k]) == Before(cfg, p, k + 1)
  {
    if k < 4 { CreatingSteps(cfg, p, k); } else if k == 4 { TakeOffStep(cfg, p); }
    else if k == 5 { InsertStep(cfg, p); } else { CashoutSteps(cfg, p, k); }
  }

  ghost function ReachedState(cfg: House, p: Play, k: nat): (s: State)
    requires Fits(cfg, p) && k <= 9
    ensures Inv(cfg, s, p.wallets)
  {
    var first := Before(cfg, p, 0);
    InitialInv(cfg, first);
    RunKeeps(cfg, first, Steps(p)[..k], p.wallets);
    Run(cfg, first, Steps(p)[..k], p.wallets)
  }

  /** The states named by Before are those of the run. */
  lemma TheRun(cfg: House, p: Play, k: nat)
    requires Fits(cfg, p) && k <= 9
    ensures ReachedState(cfg, p, k) == Before(cfg, p, k)
  {
    var steps := Steps(p);
    InitialInv(cfg, Before(cfg, p, 0));
    var path := seq(k + 1, i requires 0 <= i < k + 1 => Before(cfg, p, i));
    forall i | 0 <= i < k && Placed(path[i]) ensures Next(cfg, path[i], steps[i]) == path[i + 1] {
      OneStep(cfg, p, i);
    }
    RunsAlong(cfg, path, steps[..k], p.wallets);
  }

  /** The run reaches a state in which the round is running and the bet still goes in. */
  lemma ABetGoesInLate(cfg: House, p: Play)
    requires Fits(cfg, p)
    ensures Initial(Before(cfg, p, 0)) && ReachedState(cfg, p, 5) == Before(cfg, p, 5)
    ensures var s := Before(cfg, p, 5);
            Placed(s) && s.db.rounds[0].status.Running? && CrashPlacement.InsertsAfterTakeOff(s, PlaceInserting(1, p.takeOff))
  {
    TheRun(cfg, p, 5);
    InsertIsLate(cfg, p, Before(cfg, p, 5));
  }

  /** And the multiplier its player has already seen is paid. */
  lemma TheLateBetIsPaid(cfg: House, p: Play)
    requires Fits(cfg, p)
    ensures Initial(Before(cfg, p, 0)) && ReachedState(cfg, p, 8) == Before(cfg, p, 8)
    ensures var end := Before(cfg, p, 8).db;
            end.bets == [BetRow(p.auto, CashedOut(p.m, p.m))] && end.wallets[7] == Wallet(p.m, 0)
  {
    TheRun(cfg, p, 8);
  }

  /** The last step lowers max_multiplier to 2.00, under the payment before it. */
  lemma ALowerCapUndercutsAPayment(cfg: House, p: Play)
    requires Fits(cfg, p)
    ensures Initial(Before(cfg, p, 0))
    ensures Linked(ReachedState(cfg, p, 8).db) && Below(ReachedState(cfg, p, 8).db)
    ensures Linked(ReachedState(cfg, p, 9).db) && !Below(ReachedState(cfg, p, 9).db)
  {
    TheRun(cfg, p, 8);
    TheRun(cfg, p, 9);
    assert Effective(10.0, 1000) == 1000;
    assert Effective(2.0, 1000) == 200;
    assert !PaidBelow(Before(cfg, p, 9).db, Before(cfg, p, 9).db.bets[0]);
  }

  /** With an automatic cash-out at 1.50 on that bet, the two advance paths leave different rows at the cash-out's instant. */
  lemma TheTwoPathsDiffer(cfg: House, p: Play)
    requires Fits(cfg, p) && p.auto == Some(150)
    ensures Initial(Before(cfg, p, 0))
    ensures var s := ReachedState(cfg, p, 6);
            && Placed(s) && LightCall(cfg, s, 9, AtInstant(p.cashOut)) != Next(cfg, s, AdvanceWrite(9, AtInstant(p.cashOut)))
  {
    TheRun(cfg, p, 6);
    TheTargetIsDue(cfg, p);
    LightRefinesWrite(cfg, Before(cfg, p, 6), 9, p.cashOut, p.wallets);
  }

  lemma TheTargetIsDue(cfg: House, p: Play)
    requires Fits(cfg, p) && p.auto == Some(150)
    ensures var db := Before(cfg, p, 6).db;
            && OpenRound(db.rounds) == Some(0) && Linked(db) && |db.bets| == 1
            && AutoCashoutPending(cfg, db, 0, p.cashOut, 0)
  {
    var db := Before(cfg, p, 6).db;
    assert OpenRound(db.rounds) == Some(0);
    assert Effective(10.0, 1000) == 1000;
  }

  /** A growth for which the run exists: the linear one reaches 2.20 twenty seconds after take-off. */
  lemma TheRunExists()
    ensures exists cfg: House, p: Play :: Fits(cfg, p) && p.auto == Some(150)
  {
    var growth: Growth := (ms: nat) => 1.0 + 0.00006 * ms as real;
    var cfg: House := Config(growth, 1000, 100, 100, 0.03);
    assert RunningMultiplier(cfg, 10.0, 20000) == 220;
    assert Fits(cfg, Play(map[7 := Wallet(100, 0)], Some(150), 8000, 28000, 220));
  }

  // ----------------------------------------------------------- a cap of 10.005

  /** A house with no rounds yet whose cap was set to 10.005. */
  function OddCap(): State { State(Db([], [], map[], 10.005), map[], 0) }

  /** The first round, drawn by the top roll. */
  const OPENING: seq<Step> := [AdvanceWrite(1, AtInstant(0)), CreateWaiting(1, CrashPoint.MAX_ROLL, 0)]

  /** Its crash point is 10.01, and no run that leaves the cap alone ever crashes it or opens another round. */
  lemma ARoundGetsStuck(cfg: House, more: seq<Step>)
    requires cfg.edge <= 0.5 && forall k :: 0 <= k < |more| ==> !more[k].SetMaxMultiplier?
    ensures Initial(OddCap()) && Inv(cfg, OddCap(), map[])
    ensures var begun := Run(cfg, OddCap(), OPENING, map[]);
            && Inv(cfg, begun, map[]) && |begun.db.rounds| == 1 && begun.db.rounds[0].crashPoint == 1001
            && var end := Run(cfg, begun, more, map[]).db;
               |end.rounds| == 1 && !end.rounds[0].status.Crashed?
  {
    var s0 := OddCap();
    InitialInv(cfg, s0);
    RunKeeps(cfg, s0, OPENING, map[]);
    OpeningSteps(cfg);
    var begun := Run(cfg, s0, OPENING, map[]);
    assert RoundCents(10.005) == 1001 && FloorCents(10.005) == 1000;
    assert Stuck(begun.db, 0);
    StuckForever(cfg, begun, more, map[], 0);
  }

  lemma OpeningSteps(cfg: House)
    requires cfg.edge <= 0.5 && Inv(cfg, OddCap(), map[])
    ensures Run(cfg, OddCap(), OPENING, map[]).db.rounds == [Round(1, Waiting, 1001, Stamp(cfg, BETTING_MS), None, None)]
    ensures Run(cfg, OddCap(), OPENING, map[]).db.maxMultiplier == 10.005
  {
    var s0 := OddCap();
    CrashPoint.TopRollDrawsTheCap(cfg.edge, 10.005);
    assert RoundCents(10.005) == 1001;
    assert MaxNumber([]) == 0;
    StepKeeps(cfg, s0, OPENING[0], map[]);
    var s1 := Next(cfg, s0, OPENING[0]);
    assert s1 == State(s0.db, map[1 := Creating], 0);
    StepKeeps(cfg, s1, OPENING[1], map[]);
    assert OPENING[1..] == [OPENING[1]];
    assert OPENING[1..][1..] == [];
    assert Run(cfg, s1, OPENING[1..], map[]) == Next(cfg, s1, OPENING[1]);
  }
}
