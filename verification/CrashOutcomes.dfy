/**
 * What a call of the crash engine does, in its caller's terms: which bets are accepted, when a cash-out goes through and
 * what it pays, when an automatic one is due, when a round takes off and crashes. Nothing here names the functions that
 * compute it: amounts are fixed by inequalities, and refusals by the conditions on the rows.
 */
module CrashOutcomes {
  import opened Numbers
  import opened CrashModel
  import opened CrashMachine
  import opened CrashInvariant
  import opened CrashRuns
  import CrashPoint

  // ------------------------------------------------------------ instants and amounts

  /** The instant t as it is stored: the last multiple of the precision. */
  ghost predicate StoredAs(cfg: House, t: int, stored: int)
  {
    stored <= t < stored + cfg.tick && stored % cfg.tick == 0
  }

  /** m is the last hundredth that neither the growth since take-off nor the cap is below. */
  ghost predicate Reached(cfg: House, max: real, takeOff: int, now: int, m: int)
  {
    var growth := 100.0 * cfg.growth(if now <= takeOff then 0 else now - takeOff);
    && m as real <= growth && m as real <= 100.0 * max
    && (growth < m as real + 1.0 || 100.0 * max < m as real + 1.0)
  }

  /** e is the lower of crash point and cap, to the nearest hundredth. */
  ghost predicate CrashesAt(max: real, crashPoint: int, e: int)
  {
    && e <= crashPoint && e as real - 0.5 <= 100.0 * max
    && (e == crashPoint || 100.0 * max < e as real + 0.5)
  }

  /** p is the stake times the multiplier, to the nearest hundredth, a half going up. */
  ghost predicate Pays(amount: int, m: int, p: int)
  {
    -50 < 100 * p - amount * m <= 50
  }

  lemma StampIsStored(cfg: House, t: int)
    ensures StoredAs(cfg, t, Stamp(cfg, t))
  {
    assert Stamp(cfg, t) == t / cfg.tick * cfg.tick;
    MultipleOf(t / cfg.tick, cfg.tick);
  }

  lemma OneStoredInstant(cfg: House, t: int, a: int, b: int)
    requires StoredAs(cfg, t, a) && StoredAs(cfg, t, b)
    ensures a == b
  {
    assert a == a / cfg.tick * cfg.tick && b == b / cfg.tick * cfg.tick;
    MultiplesApart(a / cfg.tick, b / cfg.tick, cfg.tick);
  }

  lemma MultiplierIs(cfg: House, max: real, r: Round, now: int, m: int)
    requires r.status.Running? && r.startedAt.Some? && Reached(cfg, max, r.startedAt.value, now, m)
    ensures CurrentMultiplier(cfg, max, r, now) == m
  {
    CentsBounds(RealMin(max, cfg.growth(Max(0, now - r.startedAt.value))));
  }

  lemma EffectiveIs(max: real, crashPoint: int, e: int)
    requires CrashesAt(max, crashPoint, e)
    ensures Effective(max, crashPoint) == e
  {
    CentsBounds(RealMin(crashPoint as real / 100.0, max));
  }

  /** Both exist for every round in the air. */
  lemma TheyExist(cfg: House, max: real, r: Round, now: int)
    requires max >= 1.0 && r.status.Running? && r.startedAt.Some? && r.crashPoint >= 100
    ensures Reached(cfg, max, r.startedAt.value, now, CurrentMultiplier(cfg, max, r, now))
    ensures CrashesAt(max, r.crashPoint, Effective(max, r.crashPoint))
  {
    CentsBounds(RealMin(max, cfg.growth(Max(0, now - r.startedAt.value))));
    CentsBounds(RealMin(r.crashPoint as real / 100.0, max));
  }

  lemma PayoutPays(amount: int, m: int)
    requires amount >= 0 && m >= 0
    ensures Pays(amount, m, Payout(amount, m))
    ensures m >= 100 ==> Payout(amount, m) >= amount
  {
    assert amount * m >= 0;
    QuotientBounds(amount * m, 100);
    if m >= 100 { PayoutAtLeastStake(amount, m); }
  }

  /** What every reachable state has of rows, without the totals. */
  ghost predicate Plausible(db: Db)
  {
    && Linked(db) && db.maxMultiplier >= 1.0 && RoundsOk(db.rounds)
    && forall i :: 0 <= i < |db.bets| ==> BetOk(db.bets[i])
  }

  // -------------------------------------------------------------------- cash-outs

  /** Bet i is paid at m: its stake goes back to where it came from, the profit to the balance, and nothing else changes. */
  ghost predicate CashedOutAt(db: Db, db': Db, i: nat, m: int)
  {
    && i < |db.bets| == |db'.bets| && db.bets[i].user in db.wallets
    && var b, w, paid := db.bets[i], db.wallets[db.bets[i].user], db'.bets[i].status;
       && paid.CashedOut? && paid.multiplier == m && Pays(b.amount, m, paid.payout)
       && db'.bets == db.bets[i := b.(status := paid)]
       && db'.wallets == db.wallets[b.user := Wallet(w.balance + b.fromBalance + (paid.payout - b.amount), w.bonus + b.fromBonus)]
       && db'.maxMultiplier == db.maxMultiplier
  }

  lemma SettlePays(db: Db, i: nat, m: int)
    requires Linked(db) && i < |db.bets| && BetOk(db.bets[i]) && m >= 100
    ensures CashedOutAt(db, SettleCashout(db, i, m), i, m)
  {
    PayoutPays(db.bets[i].amount, m);
  }

  /** For a call with these readings the round is in the air: it took off earlier, or this call lets it. */
  ghost predicate InTheAir(r: Round, t: Reads)
  {
    r.status.Running? || (r.status.Waiting? && r.bettingEndsAt <= t.check)
  }

  /** And has been since then. */
  ghost predicate AirborneSince(cfg: House, r: Round, t: Reads, takeOff: int)
  {
    && (r.status.Waiting? ==> StoredAs(cfg, t.start, takeOff))
    && (r.status.Running? ==> r.startedAt == Some(takeOff))
  }

  lemma TakesOff(cfg: House, db: Db, id: nat, t: Reads, takeOff: int)
    requires id < |db.rounds| && Linked(db) && AirborneSince(cfg, db.rounds[id], t, takeOff)
    ensures var r := db.rounds[id];
            TakeOffIfDue(cfg, db, id, t) == db.(rounds := db.rounds[id :=
              if InTheAir(r, t) then r.(status := Running, startedAt := Some(takeOff)) else r])
  {
    StampIsStored(cfg, t.start);
    if db.rounds[id].status.Waiting? {
      OneStoredInstant(cfg, t.start, Stamp(cfg, t.start), takeOff);
    }
  }

  /** It was paid what its round had reached in the air at t.decide, which is below the crash point. */
  ghost predicate PaidInTheAir(cfg: House, db: Db, db': Db, i: nat, t: Reads)
  {
    && i < |db.bets| == |db'.bets| && db.bets[i].round < |db.rounds| == |db'.rounds|
    && var r, r', paid := db.rounds[db.bets[i].round], db'.rounds[db.bets[i].round], db'.bets[i].status;
       && db.bets[i].status.Active? && InTheAir(r, t) && paid.CashedOut? && r'.startedAt.Some?
       && r' == r.(status := Running, startedAt := r'.startedAt) && AirborneSince(cfg, r, t, r'.startedAt.value)
       && Reached(cfg, db.maxMultiplier, r'.startedAt.value, t.decide, paid.multiplier)
       && (forall e :: CrashesAt(db.maxMultiplier, r.crashPoint, e) ==> paid.multiplier < e)
       && CashedOutAt(db, db', i, paid.multiplier)
  }

  /**
   * A cash-out behind its locks goes through exactly if the bet is active, its round is in the air, and the multiplier is
   * still below the crash point; then it pays at that multiplier.
   */
  lemma CashoutExactlyWhen(cfg: House, db: Db, i: nat, t: Reads, takeOff: int, m: int, e: int)
    requires Plausible(db) && i < |db.bets|
    requires var r := db.rounds[db.bets[i].round];
             && AirborneSince(cfg, r, t, takeOff) && Reached(cfg, db.maxMultiplier, takeOff, t.decide, m)
             && CrashesAt(db.maxMultiplier, r.crashPoint, e)
    ensures var b, o := db.bets[i], CashoutLocked(cfg, db, i, t);
            var r := db.rounds[b.round];
            && (o.Committed? <==> b.status.Active? && InTheAir(r, t) && m < e)
            && (o.Committed? ==>
                  && CashedOutAt(db, o.db, i, m)
                  && o.db.rounds == db.rounds[b.round := r.(status := Running, startedAt := Some(takeOff))])
  {
    var id := db.bets[i].round;
    TakesOff(cfg, db, id, t, takeOff);
    EffectiveIs(db.maxMultiplier, db.rounds[id].crashPoint, e);
    var up := TakeOffIfDue(cfg, db, id, t);
    if InTheAir(db.rounds[id], t) {
      MultiplierIs(cfg, up.maxMultiplier, up.rounds[id], t.decide, m);
      assert m >= 100;
      SettlePays(up, i, m);
    }
  }

  lemma CashoutPaysInTheAir(cfg: House, db: Db, i: nat, t: Reads)
    requires Plausible(db) && i < |db.bets| && CashoutLocked(cfg, db, i, t).Committed?
    ensures PaidInTheAir(cfg, db, CashoutLocked(cfg, db, i, t).db, i, t)
  {
    var r := db.rounds[db.bets[i].round];
    var up := TakeOffIfDue(cfg, db, db.bets[i].round, t).rounds[db.bets[i].round];
    StampIsStored(cfg, t.start);
    TheyExist(cfg, db.maxMultiplier, up, t.decide);
    forall e | CrashesAt(db.maxMultiplier, r.crashPoint, e)
      ensures CurrentMultiplier(cfg, db.maxMultiplier, up, t.decide) < e
    {
      EffectiveIs(db.maxMultiplier, r.crashPoint, e);
    }
    CashoutExactlyWhen(cfg, db, i, t, up.startedAt.value, CurrentMultiplier(cfg, db.maxMultiplier, up, t.decide),
                       Effective(db.maxMultiplier, r.crashPoint));
  }

  // ------------------------------------------------------------- advancing a round

  /**
   * The round a locked advance works on: it takes off at its betting end or later, never before, and crashes when its
   * multiplier has reached the crash point, which is then written down as capped.
   */
  lemma AdvanceRound(cfg: House, db: Db, id: nat, t: Reads, takeOff: int, m: int, e: int, crashed: int)
    requires Linked(db) && id < |db.rounds| && AirborneSince(cfg, db.rounds[id], t, takeOff)
    requires db.rounds[id].status.Running? ==> db.rounds[id].startedAt.Some?
    requires Reached(cfg, db.maxMultiplier, takeOff, t.decide, m) && CrashesAt(db.maxMultiplier, db.rounds[id].crashPoint, e)
    requires StoredAs(cfg, t.crash, crashed)
    ensures var r, db' := db.rounds[id], AdvanceOpen(cfg, db, id, t);
            && db'.maxMultiplier == db.maxMultiplier
            && db'.rounds == db.rounds[id :=
                 if !InTheAir(r, t) then r
                 else if m < e then r.(status := Running, startedAt := Some(takeOff))
                 else r.(status := Crashed, startedAt := Some(takeOff), crashPoint := e, crashedAt := Some(crashed))]
  {
    TakesOff(cfg, db, id, t, takeOff);
    EffectiveIs(db.maxMultiplier, db.rounds[id].crashPoint, e);
    StampIsStored(cfg, t.crash);
    OneStoredInstant(cfg, t.crash, Stamp(cfg, t.crash), crashed);
    var up := TakeOffIfDue(cfg, db, id, t);
    if InTheAir(db.rounds[id], t) {
      MultiplierIs(cfg, up.maxMultiplier, up.rounds[id], t.decide, m);
    }
  }

  /**
   * And each of its bets. An active one of the round is paid at its target exactly if the target has been reached and the
   * crash point has not; if the round crashes the other active ones are lost; everything else stays as it was.
   */
  lemma AdvanceBet(cfg: House, db: Db, id: nat, t: Reads, j: nat, takeOff: int, m: int, last: int, e: int)
    requires Plausible(db) && id < |db.rounds| && j < |db.bets| && AirborneSince(cfg, db.rounds[id], t, takeOff)
    requires Reached(cfg, db.maxMultiplier, takeOff, t.auto, m) && Reached(cfg, db.maxMultiplier, takeOff, t.decide, last)
    requires CrashesAt(db.maxMultiplier, db.rounds[id].crashPoint, e)
    ensures var b, db' := db.bets[j], AdvanceOpen(cfg, db, id, t);
            var mine := b.round == id && b.status.Active? && InTheAir(db.rounds[id], t);
            && |db'.bets| == |db.bets|
            && var b' := db'.bets[j];
               if mine && b.autoCashoutAt.Some? && 101 <= b.autoCashoutAt.value <= m < e then
                 && b'.status.CashedOut? && b'.status.multiplier == b.autoCashoutAt.value
                 && Pays(b.amount, b.autoCashoutAt.value, b'.status.payout) && b' == b.(status := b'.status)
               else b' == if mine && e <= last then b.(status := Lost) else b
  {
    TakesOff(cfg, db, id, t, takeOff);
    var up := TakeOffIfDue(cfg, db, id, t);
    if InTheAir(db.rounds[id], t) {
      EffectiveIs(db.maxMultiplier, db.rounds[id].crashPoint, e);
      MultiplierIs(cfg, up.maxMultiplier, up.rounds[id], t.auto, m);
      MultiplierIs(cfg, up.maxMultiplier, up.rounds[id], t.decide, last);
      DueIsPaid(up, id, m, 0, j);
      if db.bets[j].autoCashoutAt.Some? {
        PayoutPays(db.bets[j].amount, db.bets[j].autoCashoutAt.value);
      }
    }
  }

  // ----------------------------------------------------- the steps of the machine

  /** A cash-out goes on with the user's newest active bet in the slot, if there is one. */
  lemma CashoutLocatesTheNewest(cfg: House, s: State, pid: nat, user: nat, slot: int)
    requires Placed(s) && Enabled(s, CashoutLocate(pid, user, slot))
    ensures var s' := Next(cfg, s, CashoutLocate(pid, user, slot));
            && s'.db == s.db
            && (forall i: nat ::
                  pid in s'.calls && s'.calls[pid] == CashingOut(i)
                  <==> i < |s.db.bets| && IsActiveFor(s.db.bets[i], user, slot)
                       && forall j :: i < j < |s.db.bets| ==> !IsActiveFor(s.db.bets[j], user, slot))
  {
  }

  ghost predicate IsActiveFor(b: Bet, user: nat, slot: int)
  {
    b.status.Active? && b.user == user && b.slot == slot
  }

  /** From every reachable state: the cash-out's second step. */
  lemma CashoutStepExactlyWhen(cfg: House, s: State, pid: nat, t: Reads, takeOff: int, m: int, e: int, start: map<nat, Wallet>)
    requires Inv(cfg, s, start) && Enabled(s, CashoutCommit(pid, t))
    requires var r := s.db.rounds[s.db.bets[s.calls[pid].bet].round];
             && AirborneSince(cfg, r, t, takeOff) && Reached(cfg, s.db.maxMultiplier, takeOff, t.decide, m)
             && CrashesAt(s.db.maxMultiplier, r.crashPoint, e)
    ensures var i, db' := s.calls[pid].bet, Next(cfg, s, CashoutCommit(pid, t)).db;
            var id := s.db.bets[i].round;
            if s.db.bets[i].status.Active? && InTheAir(s.db.rounds[id], t) && m < e then
              && CashedOutAt(s.db, db', i, m)
              && db'.rounds == s.db.rounds[id := s.db.rounds[id].(status := Running, startedAt := Some(takeOff))]
            else db' == s.db
  {
    CashoutExactlyWhen(cfg, s.db, s.calls[pid].bet, t, takeOff, m, e);
  }

  /** The light path's first update, decided on the row seen before: a waiting row whose betting is over takes off. */
  lemma LightStartExactlyWhen(cfg: House, s: State, pid: nat, now: int, takeOff: int)
    requires Placed(s) && Enabled(s, LightStart(pid, now)) && StoredAs(cfg, now, takeOff)
    ensures var id, seen, db' := s.calls[pid].id, s.calls[pid].seen, Next(cfg, s, LightStart(pid, now)).db;
            var r := s.db.rounds[id];
            db' == if seen.status.Waiting? && seen.bettingEndsAt <= now && r.status.Waiting?
                   then s.db.(rounds := s.db.rounds[id := r.(status := Running, startedAt := Some(takeOff))])
                   else s.db
  {
    StampIsStored(cfg, now);
    OneStoredInstant(cfg, now, Stamp(cfg, now), takeOff);
  }

  /** Its second update: a running row crashes when the row seen before has reached the crash point. */
  lemma LightDecideExactlyWhen(cfg: House, s: State, pid: nat, now: int, m: int, e: int, crashed: int, start: map<nat, Wallet>)
    requires Inv(cfg, s, start) && Enabled(s, LightDecide(pid, now)) && StoredAs(cfg, now, crashed)
    requires var seen := s.calls[pid].seen;
             && (seen.status.Running? && seen.startedAt.Some? ==> Reached(cfg, s.db.maxMultiplier, seen.startedAt.value, now, m))
             && CrashesAt(s.db.maxMultiplier, seen.crashPoint, e)
    ensures var id, seen, db' := s.calls[pid].id, s.calls[pid].seen, Next(cfg, s, LightDecide(pid, now)).db;
            var r := s.db.rounds[id];
            db' == if seen.status.Running? && r.status.Running? && e <= m
                   then s.db.(rounds := s.db.rounds[id := r.(status := Crashed, crashPoint := e, crashedAt := Some(crashed))])
                   else s.db
  {
    var seen := s.calls[pid].seen;
    assert CallOk(cfg, s.db, s.calls[pid]);
    StampIsStored(cfg, now);
    OneStoredInstant(cfg, now, Stamp(cfg, now), crashed);
    EffectiveIs(s.db.maxMultiplier, seen.crashPoint, e);
    if seen.status.Running? && s.db.rounds[s.calls[pid].id].status.Running? {
      MultiplierIs(cfg, s.db.maxMultiplier, seen, now, m);
    }
  }

  /** Its third one loses the active bets of that round and no others. */
  lemma LightLosesItsBets(cfg: House, s: State, pid: nat)
    requires Placed(s) && Enabled(s, LightLose(pid))
    ensures var db' := Next(cfg, s, LightLose(pid)).db;
            && db' == s.db.(bets := db'.bets) && |db'.bets| == |s.db.bets|
            && forall j :: 0 <= j < |s.db.bets| ==>
                 db'.bets[j] == if s.db.bets[j].round == s.calls[pid].id && s.db.bets[j].status.Active?
                                then s.db.bets[j].(status := Lost) else s.db.bets[j]
  {
  }

  // ------------------------------------------------------------------------- bets

  /** The user exists and can pay, has no bet yet in this slot of this round, and the automatic target is 1.01 to the cap. */
  ghost predicate Accepts(db: Db, o: Order, id: nat)
  {
    && o.amount > 0
    && o.user in db.wallets && db.wallets[o.user].balance + db.wallets[o.user].bonus >= o.amount
    && (forall i :: 0 <= i < |db.bets| ==> !(db.bets[i].round == id && db.bets[i].user == o.user && db.bets[i].slot == o.slot))
    && (o.autoCashoutAt.Some? ==> 101 <= o.autoCashoutAt.value && o.autoCashoutAt.value as real <= 100.0 * db.maxMultiplier)
  }

  /** One active bet more, its stake taken from the balance as far as that goes and from the bonus for the rest. */
  ghost predicate Inserted(db: Db, db': Db, o: Order, id: nat)
  {
    && o.user in db.wallets
    && var w := db.wallets[o.user];
       var fromBalance := if o.amount <= w.balance then o.amount else w.balance;
       var fromBonus := o.amount - fromBalance;
       && db'.rounds == db.rounds && db'.maxMultiplier == db.maxMultiplier
       && db'.bets == db.bets + [Bet(id, o.user, o.slot, o.amount, fromBalance, fromBonus, o.autoCashoutAt, Active)]
       && db'.wallets == db.wallets[o.user := Wallet(w.balance - fromBalance, w.bonus - fromBonus)]
  }

  lemma InsertExactlyWhen(db: Db, o: Order, id: nat)
    ensures InsertBet(db, o, id).Committed? <==> Accepts(db, o, id)
    ensures InsertBet(db, o, id).Committed? ==> Inserted(db, InsertBet(db, o, id).db, o, id)
  {
  }

  /** At most the newest round is open. */
  lemma OpenIsNewest(rounds: seq<Round>)
    requires RoundsOk(rounds)
    ensures OpenRound(rounds) == if rounds != [] && !rounds[|rounds| - 1].status.Crashed? then Some(|rounds| - 1) else None
  {
  }

  /** What placeBet asks before it looks at the rows. */
  ghost predicate Orderly(cfg: House, o: Order)
  {
    (o.slot == 1 || o.slot == 2) && cfg.minBet <= o.amount <= cfg.maxBet
  }

  /**
   * From every reachable state a placeBet that gets to lock an open round places its bet exactly if the order is in order,
   * that round is waiting with its betting still open, and the rows accept it; a bet that is not placed leaves no trace.
   */
  lemma PlaceBetExactlyWhen(cfg: House, s: State, pid: nat, o: Order, t: Reads, start: map<nat, Wallet>)
    requires Inv(cfg, s, start) && Enabled(s, PlaceBet(pid, o, t))
    ensures var newest, db' := |s.db.rounds| - 1, Next(cfg, s, PlaceBet(pid, o, t)).db;
            if && Orderly(cfg, o) && newest >= 0
               && s.db.rounds[newest].status.Waiting? && t.check < s.db.rounds[newest].bettingEndsAt
               && Accepts(s.db, o, newest)
            then Inserted(s.db, db', o, newest) else db' == s.db
  {
    OpenIsNewest(s.db.rounds);
    if OpenRound(s.db.rounds).Some? {
      InsertExactlyWhen(s.db, o, |s.db.rounds| - 1);
    }
  }

  /** A placeBet that was given an unlocked round asks its rows alone. */
  lemma PlaceInsertingExactlyWhen(cfg: House, s: State, pid: nat, now: int)
    requires Placed(s) && Enabled(s, PlaceInserting(pid, now))
    ensures var o, id, db' := s.calls[pid].order, s.calls[pid].id, Next(cfg, s, PlaceInserting(pid, now)).db;
            if Accepts(s.db, o, id) then Inserted(s.db, db', o, id) else db' == s.db
  {
    InsertExactlyWhen(s.db, s.calls[pid].order, s.calls[pid].id);
  }

  /** One that found no open round and waited for the lock, alone or not: it opens the next round for its bet, or does nothing. */
  lemma PlaceCreatingExactlyWhen(cfg: House, s: State, pid: nat, roll: nat, now: int, start: map<nat, Wallet>)
    requires Inv(cfg, s, start) && Enabled(s, PlaceCreating(pid, roll, now))
    requires s.db.rounds == [] || s.db.rounds[|s.db.rounds| - 1].status.Crashed?
    ensures var o, id, db' := s.calls[pid].order, |s.db.rounds|, Next(cfg, s, PlaceCreating(pid, roll, now)).db;
            if Accepts(s.db, o, id) then
              && |db'.rounds| == id + 1 && OpensNext(cfg, s.db, db'.rounds[id], now)
              && Inserted(s.db.(rounds := s.db.rounds + [db'.rounds[id]]), db', o, id)
            else db' == s.db
  {
    OpenIsNewest(s.db.rounds);
    NextRound(cfg, s.db, roll, now, start);
    InsertExactlyWhen(CreateRound(cfg, s.db, roll, now), s.calls[pid].order, |s.db.rounds|);
  }

  /** And one that finds a round opened meanwhile takes that round for its insert while it waits, without locking it. */
  lemma PlaceCreatingTakesTheOpenRound(cfg: House, s: State, pid: nat, roll: nat, now: int, start: map<nat, Wallet>)
    requires Inv(cfg, s, start) && Enabled(s, PlaceCreating(pid, roll, now))
    requires s.db.rounds != [] && !s.db.rounds[|s.db.rounds| - 1].status.Crashed?
    ensures var s', newest := Next(cfg, s, PlaceCreating(pid, roll, now)), |s.db.rounds| - 1;
            && s'.db == s.db
            && s'.calls == if s.db.rounds[newest].status.Waiting?
                           then s.calls[pid := BetInserting(s.calls[pid].order, newest)] else s.calls - {pid}
  {
    OpenIsNewest(s.db.rounds);
  }

  /** The round that follows those of db: the next number, waiting, its betting open for eight seconds, its crash point drawn. */
  ghost predicate OpensNext(cfg: House, db: Db, r: Round, now: int)
  {
    && r.number == |db.rounds| + 1 && r.status.Waiting? && r.startedAt.None? && r.crashedAt.None?
    && StoredAs(cfg, now + 8000, r.bettingEndsAt)
    && 100 <= r.crashPoint && r.crashPoint as real <= 100.0 * db.maxMultiplier + 0.5
  }

  lemma NextRound(cfg: House, db: Db, roll: nat, now: int, start: map<nat, Wallet>)
    requires DbOk(db, start) && roll <= CrashPoint.MAX_ROLL
    ensures CreateRound(cfg, db, roll, now) == db.(rounds := db.rounds + [FreshRound(cfg, db, roll, now)])
    ensures OpensNext(cfg, db, FreshRound(cfg, db, roll, now), now)
  {
    MaxNumberIsLength(db.rounds);
    StampIsStored(cfg, now + 8000);
    CrashPoint.GenerateInRange(cfg.edge, db.maxMultiplier, roll);
    CentsBounds(db.maxMultiplier);
  }
}
