/** The two advance paths compared, and how long a round can last. */
module CrashPaths {
  import opened Numbers
  import opened CrashModel
  import opened CrashMachine
  import opened CrashInvariant
  import opened CrashRuns
  import CrashPoint

  // ------------------------------------------------- the light path refines the write path

  ghost function Take(cfg: House, s: State, step: Step): State
  {
    if Placed(s) then Next(cfg, s, step) else s
  }

  /** One advanceLight call, its take-off read at t.check and its crash at t.decide, with no other call in between. */
  ghost function LightCall(cfg: House, s: State, pid: nat, t: Reads): State
  {
    var read := Take(cfg, s, LightRead(pid));
    var started := Take(cfg, read, LightStart(pid, t.check));
    var judging := Take(cfg, started, LightRefresh(pid));
    var judged := Take(cfg, judging, LightDecide(pid, t.decide));
    Take(cfg, judged, LightLose(pid))
  }

  /** What that call leaves of the rows. */
  function LightRows(cfg: House, db: Db, id: nat, t: Reads): Db
    requires id < |db.rounds|
  {
    var up := LightTakeOff(cfg, db, id, db.rounds[id], t.check);
    if LightCrashes(cfg, up, id, up.rounds[id], t.decide)
    then LightBury(LightCrash(cfg, up, id, up.rounds[id], t.decide), id)
    else up
  }

  lemma StartStep(cfg: House, s: State, calls: map<nat, Call>, pid: nat, id: nat, t: int)
    requires Placed(s) && s.clock <= t && id < |s.db.rounds|
    requires s.calls == calls[pid := LightDeciding(id, s.db.rounds[id])]
    ensures var up := LightTakeOff(cfg, s.db, id, s.db.rounds[id], t);
            var s' := Take(cfg, s, LightStart(pid, t));
            Placed(s') && s' == State(up, calls[pid := if TakeoffDue(s.db.rounds[id], t) then LightRefreshing(id)
                                                      else LightJudging(id, s.db.rounds[id])], t)
  {
  }

  lemma RefreshStep(cfg: House, s: State, calls: map<nat, Call>, pid: nat, id: nat)
    requires Placed(s) && id < |s.db.rounds|
    requires s.calls == calls[pid := LightRefreshing(id)] || s.calls == calls[pid := LightJudging(id, s.db.rounds[id])]
    ensures var s' := Take(cfg, s, LightRefresh(pid));
            Placed(s') && s' == State(s.db, calls[pid := LightJudging(id, s.db.rounds[id])], s.clock)
  {
  }

  lemma DecideStep(cfg: House, s: State, calls: map<nat, Call>, pid: nat, id: nat, t: int)
    requires Placed(s) && s.clock <= t && id < |s.db.rounds| && pid !in calls
    requires s.calls == calls[pid := LightJudging(id, s.db.rounds[id])]
    ensures var s' := Take(cfg, s, LightDecide(pid, t));
            && Placed(s') && s'.db == LightCrash(cfg, s.db, id, s.db.rounds[id], t) && s'.clock == t
            && s'.calls == if LightCrashes(cfg, s.db, id, s.db.rounds[id], t) then calls[pid := LightBurying(id)] else calls
  {
    assert calls[pid := LightJudging(id, s.db.rounds[id])] - {pid} == calls;
  }

  lemma LoseStep(cfg: House, s: State, calls: map<nat, Call>, pid: nat, id: nat)
    requires Placed(s) && pid !in calls && s.calls == calls[pid := LightBurying(id)]
    ensures Take(cfg, s, LightLose(pid)) == State(LightBury(s.db, id), calls, s.clock)
  {
  }

  /** Running one advanceLight call through its steps leaves exactly those rows, and no call in flight. */
  lemma LightCallRows(cfg: House, s: State, pid: nat, t: Reads)
    requires Placed(s) && pid !in s.calls && s.clock <= t.check <= t.decide && OpenRound(s.db.rounds).Some?
    ensures LightCall(cfg, s, pid, t) == State(LightRows(cfg, s.db, OpenRound(s.db.rounds).value, t), s.calls, t.decide)
  {
    var id := OpenRound(s.db.rounds).value;
    var read := Take(cfg, s, LightRead(pid));
    var started := Take(cfg, read, LightStart(pid, t.check));
    StartStep(cfg, read, s.calls, pid, id, t.check);
    var judging := Take(cfg, started, LightRefresh(pid));
    RefreshStep(cfg, started, s.calls, pid, id);
    DecideStep(cfg, judging, s.calls, pid, id, t.decide);
    if LightCrashes(cfg, judging.db, id, judging.db.rounds[id], t.decide) {
      LoseStep(cfg, Take(cfg, judging, LightDecide(pid, t.decide)), s.calls, pid, id);
    }
  }

  /** Bet i would be cashed out automatically if the round were advanced at t. */
  predicate AutoCashoutPending(cfg: House, db: Db, id: nat, t: int, i: nat)
    requires id < |db.rounds| && Linked(db) && i < |db.bets|
  {
    var up := TakeOffIfDue(cfg, db, id, AtInstant(t));
    var row := up.rounds[id];
    && row.status.Running?
    && AutoDue(db.bets[i], id, CurrentMultiplier(cfg, db.maxMultiplier, row, t), Effective(db.maxMultiplier, row.crashPoint))
  }

  lemma {:induction false} NothingDueNothingPaid(db: Db, id: nat, multiplier: int, i: nat)
    requires Linked(db) && id < |db.rounds| && i <= |db.bets|
    requires forall j :: i <= j < |db.bets| ==>
               !AutoDue(db.bets[j], id, multiplier, Effective(db.maxMultiplier, db.rounds[id].crashPoint))
    ensures AutoCashouts(db, id, multiplier, i) == db
    decreases |db.bets| - i
  {
    if i < |db.bets| {
      NothingDueNothingPaid(db, id, multiplier, i + 1);
    }
  }

  /**
   * At one instant, advanceLight run to completion and advanceWrite leave the same rows if and only if no bet
   * is due for an automatic cash-out, which the light path does not perform.
   */
  lemma LightRefinesWrite(cfg: House, s: State, pid: nat, t: int, start: map<nat, Wallet>)
    requires Inv(cfg, s, start) && pid !in s.calls && s.clock <= t && OpenRound(s.db.rounds).Some?
    ensures var id := OpenRound(s.db.rounds).value;
            LightCall(cfg, s, pid, AtInstant(t)) == Next(cfg, s, AdvanceWrite(pid, AtInstant(t)))
            <==> (forall i :: 0 <= i < |s.db.bets| ==> !AutoCashoutPending(cfg, s.db, id, t, i))
  {
    var db, id := s.db, OpenRound(s.db.rounds).value;
    LightCallRows(cfg, s, pid, AtInstant(t));
    var up := TakeOffIfDue(cfg, db, id, AtInstant(t));
    assert up == LightTakeOff(cfg, db, id, db.rounds[id], t);
    var m := CurrentMultiplier(cfg, db.maxMultiplier, up.rounds[id], t);
    if forall i :: 0 <= i < |db.bets| ==> !AutoCashoutPending(cfg, db, id, t, i) {
      if up.rounds[id].status.Running? {
        forall j | 0 <= j < |up.bets|
          ensures !AutoDue(up.bets[j], id, m, Effective(up.maxMultiplier, up.rounds[id].crashPoint))
        {
          assert !AutoCashoutPending(cfg, db, id, t, j);
        }
        NothingDueNothingPaid(up, id, m, 0);
      }
    } else {
      var i :| 0 <= i < |db.bets| && AutoCashoutPending(cfg, db, id, t, i);
      DueIsPaid(up, id, m, 0, i);
      assert AdvanceOpen(cfg, db, id, AtInstant(t)).bets[i].status.CashedOut?;
      assert LightRows(cfg, db, id, AtInstant(t)).bets[i].status.Active?;
    }
  }

  /** In particular: with no auto cash-out set on an active bet, the two paths agree. */
  lemma LightAgreesWithoutAutoCashouts(cfg: House, s: State, pid: nat, t: int, start: map<nat, Wallet>)
    requires Inv(cfg, s, start) && pid !in s.calls && s.clock <= t && OpenRound(s.db.rounds).Some?
    requires forall i :: 0 <= i < |s.db.bets| && s.db.bets[i].status.Active? ==> s.db.bets[i].autoCashoutAt.None?
    ensures LightCall(cfg, s, pid, AtInstant(t)) == Next(cfg, s, AdvanceWrite(pid, AtInstant(t)))
  {
    LightRefinesWrite(cfg, s, pid, t, start);
  }

  // ----------------------------------------------------------- the length of a round

  /** The cap is a whole number of hundredths, or rounds down to one. */
  predicate CapRoundsDown(max: real)
  {
    RoundCents(max) == FloorCents(max)
  }

  /** The growth has certainly reached the cap: elapsed >= (max - 1) / 0.00006. */
  predicate LongEnough(max: real, elapsed: int)
  {
    0.00006 * elapsed as real >= max - 1.0
  }

  lemma LongRunReachesTheCap(cfg: House, max: real, elapsed: nat)
    requires LongEnough(max, elapsed)
    ensures RunningMultiplier(cfg, max, elapsed) == FloorCents(max)
  {
  }

  lemma EffectiveAtMostRoundedCap(max: real, crashPoint: int)
    requires max >= 1.0 && crashPoint >= 100
    ensures Effective(max, crashPoint) <= RoundCents(max)
    ensures crashPoint >= RoundCents(max) ==> Effective(max, crashPoint) == RoundCents(max)
  {
  }

  /**
   * Exactly when rounds are bounded: every crash point is reached (max - 1) / 0.00006 ms after take-off, if and
   * only if the cap rounds down to hundredths.
   */
  lemma RoundsAreBounded(cfg: House, max: real)
    requires max >= 1.0
    ensures (forall crashPoint: int, elapsed: nat :: crashPoint >= 100 && LongEnough(max, elapsed) ==>
               RunningMultiplier(cfg, max, elapsed) >= Effective(max, crashPoint))
       <==> CapRoundsDown(max)
  {
    RoundAboveFloor(max);
    forall crashPoint: int, elapsed: nat | crashPoint >= 100 && LongEnough(max, elapsed)
      ensures CapRoundsDown(max) ==> RunningMultiplier(cfg, max, elapsed) >= Effective(max, crashPoint)
    {
      LongRunReachesTheCap(cfg, max, elapsed);
      EffectiveAtMostRoundedCap(max, crashPoint);
    }
    if !CapRoundsDown(max) {
      var elapsed: nat := ((max - 1.0) / 0.00006).Floor + 1;
      RoundingKeepsHundredths(100);
      RoundCentsIsMonotone(1.0, max);
      EffectiveAtMostRoundedCap(max, RoundCents(max));
      LongRunReachesTheCap(cfg, max, elapsed);
    }
  }

  /** A locked advance that late leaves the round crashed, whatever its crash point. */
  lemma LateAdvanceCrashes(cfg: House, db: Db, id: nat, t: Reads, start: map<nat, Wallet>)
    requires DbOk(db, start) && id < |db.rounds| && db.rounds[id].status.Running? && CapRoundsDown(db.maxMultiplier)
    requires t.decide >= db.rounds[id].startedAt.value && LongEnough(db.maxMultiplier, t.decide - db.rounds[id].startedAt.value)
    ensures AdvanceOpen(cfg, db, id, t).rounds[id].status.Crashed?
  {
  }

  /** The same of a light poll, however stale the row it decides on. */
  lemma LateLightCrashes(cfg: House, s: State, pid: nat, now: int, start: map<nat, Wallet>)
    requires Inv(cfg, s, start) && Enabled(s, LightDecide(pid, now)) && CapRoundsDown(s.db.maxMultiplier)
    requires var seen := s.calls[pid].seen;
             seen.status.Running? && seen.startedAt.Some? && now >= seen.startedAt.value
             && LongEnough(s.db.maxMultiplier, now - seen.startedAt.value)
    ensures Next(cfg, s, LightDecide(pid, now)).db.rounds[s.calls[pid].id].status.Crashed?
  {
    var id, seen := s.calls[pid].id, s.calls[pid].seen;
    assert CallOk(cfg, s.db, s.calls[pid]);
    if s.db.rounds[id].status.Running? {
      RoundsAreBounded(cfg, s.db.maxMultiplier);
      var elapsed: nat := now - seen.startedAt.value;
      assert RunningMultiplier(cfg, s.db.maxMultiplier, elapsed) >= Effective(s.db.maxMultiplier, seen.crashPoint);
    }
  }

  // ----------------------------------------------------------- a round that never ends

  /** The open round's crash point is the rounded-up cap, which the multiplier never reaches. */
  ghost predicate Stuck(db: Db, id: nat)
  {
    && id < |db.rounds| && !db.rounds[id].status.Crashed?
    && !CapRoundsDown(db.maxMultiplier) && db.rounds[id].crashPoint >= RoundCents(db.maxMultiplier)
  }

  /** No step but a change of the setting ends a stuck round, or opens another one. */
  lemma StuckStays(cfg: House, s: State, step: Step, start: map<nat, Wallet>, id: nat)
    requires Inv(cfg, s, start) && Stuck(s.db, id) && !step.SetMaxMultiplier?
    ensures Stuck(Next(cfg, s, step).db, id) && |Next(cfg, s, step).db.rounds| == |s.db.rounds|
    ensures Next(cfg, s, step).db.maxMultiplier == s.db.maxMultiplier
  {
    if Enabled(s, step) {
      var db := s.db;
      assert id == |db.rounds| - 1;
      assert OpenRound(db.rounds) == Some(id);
      match step
      case AdvanceWrite(_, t) => StuckAdvance(cfg, db, id, t, start);
      case PlaceBet(_, order, t) => StuckAdvance(cfg, db, id, t, start);
      case LightDecide(pid, now) => StuckDecide(cfg, s, pid, now, start, id);
      case LightStart(pid, now) =>
      case _ =>
    }
  }

  lemma StuckDecide(cfg: House, s: State, pid: nat, now: int, start: map<nat, Wallet>, id: nat)
    requires Inv(cfg, s, start) && Stuck(s.db, id) && Enabled(s, LightDecide(pid, now))
    ensures var db' := StepDb(cfg, s, LightDecide(pid, now));
            Stuck(db', id) && |db'.rounds| == |s.db.rounds| && db'.maxMultiplier == s.db.maxMultiplier
  {
    assert CallOk(cfg, s.db, s.calls[pid]);
    assert id == |s.db.rounds| - 1;
  }

  lemma StuckAdvance(cfg: House, db: Db, id: nat, t: Reads, start: map<nat, Wallet>)
    requires DbOk(db, start) && Stuck(db, id)
    ensures var db' := AdvanceOpen(cfg, db, id, t);
            Stuck(db', id) && |db'.rounds| == |db.rounds| && db'.maxMultiplier == db.maxMultiplier
  {
    var up := TakeOffIfDue(cfg, db, id, t);
  }

  /** Over every run without such a change, however long: the round does not end and no other one begins. */
  lemma {:induction false} StuckForever(cfg: House, s: State, steps: seq<Step>, start: map<nat, Wallet>, id: nat)
    requires Inv(cfg, s, start) && Stuck(s.db, id)
    requires forall k :: 0 <= k < |steps| ==> !steps[k].SetMaxMultiplier?
    ensures var db' := Run(cfg, s, steps, start).db;
            id < |db'.rounds| == |s.db.rounds| && !db'.rounds[id].status.Crashed?
    decreases |steps|
  {
    if steps != [] {
      StepKeeps(cfg, s, steps[0], start);
      StuckStays(cfg, s, steps[0], start, id);
      StuckForever(cfg, Next(cfg, s, steps[0]), steps[1..], start, id);
    }
  }

  /** The draw does produce such a round: the top roll's crash point is the rounded-up cap. */
  lemma TopRollSticks(cfg: House, db: Db, now: int, start: map<nat, Wallet>)
    requires DbOk(db, start) && OpenRound(db.rounds).None?
    requires db.maxMultiplier <= (1.0 - cfg.edge) * 1000000.0 && !CapRoundsDown(db.maxMultiplier)
    ensures Stuck(CreateRound(cfg, db, CrashPoint.MAX_ROLL, now), |db.rounds|)
  {
    CrashPoint.TopRollDrawsTheCap(cfg.edge, db.maxMultiplier);
  }
}
