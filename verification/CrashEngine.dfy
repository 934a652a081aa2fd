/**
 * The engine's methods, statement by statement, on the rows they update in place. Each is one call without
 * another call in between, and is proved to leave what the model's transaction leaves.
 */
module CrashEngine {
  import opened Numbers
  import M = CrashModel
  import opened CrashModel
  import CrashPoint
  import CrashPaths
  import opened CrashMachine
  import opened CrashInvariant
  import opened CrashRuns
  import opened CrashOutcomes

  /** advanceWrite as one undisturbed transaction, creation of the next round included. */
  function AdvanceAlone(cfg: House, db: Db, t: Reads, roll: nat): Db
    requires Linked(db) && roll <= CrashPoint.MAX_ROLL
  {
    var open := OpenRound(db.rounds);
    if open.Some? then AdvanceOpen(cfg, db, open.value, t)
    else if CoolingDown(db.rounds, t.check) then db
    else M.CreateRound(cfg, db, roll, t.start)
  }

  /** placeBet as one undisturbed transaction. */
  function PlaceAlone(cfg: House, db: Db, o: Order, t: Reads, roll: nat): Outcome
    requires Linked(db) && roll <= CrashPoint.MAX_ROLL
  {
    if !Admissible(cfg, o) then RolledBack
    else
      var open := OpenRound(db.rounds);
      if open.Some? then PlaceOnOpen(cfg, db, o, open.value, t)
      else if CoolingDown(db.rounds, t.check) then RolledBack
      else InsertBet(M.CreateRound(cfg, db, roll, t.start), o, |db.rounds|)
  }

  /** A bet is accepted only before the betting ends: into the waiting round as it stands, or into a new one. */
  lemma BetsOnlyBeforeTakeOff(cfg: House, db: Db, o: Order, t: Reads, roll: nat)
    requires Linked(db) && roll <= CrashPoint.MAX_ROLL && PlaceAlone(cfg, db, o, t, roll).Committed?
    ensures var db' := PlaceAlone(cfg, db, o, t, roll).db;
            var id := db'.bets[|db.bets|].round;
            && db'.bets[..|db.bets|] == db.bets && |db'.bets| == |db.bets| + 1
            && db'.wallets.Keys == db.wallets.Keys && o.user in db.wallets
            && db'.wallets[o.user].Available() == db.wallets[o.user].Available() - o.amount
            && (OpenRound(db.rounds) == Some(id) ==>
                  db'.rounds == db.rounds && db.rounds[id].status.Waiting? && t.check < db.rounds[id].bettingEndsAt)
            && (OpenRound(db.rounds) != Some(id) ==>
                  OpenRound(db.rounds).None? && db'.rounds == db.rounds + [FreshRound(cfg, db, roll, t.start)])
  {
  }

  // ------------------------------------------------------ the same calls as steps

  /** advanceWrite is its locked step, with the creating step of an undisturbed call behind it. */
  lemma AdvanceIsItsSteps(cfg: House, s: State, pid: nat, t: Reads, roll: nat, start: map<nat, Wallet>)
    requires Inv(cfg, s, start) && pid !in s.calls && t.Ordered() && s.clock <= t.check && roll <= CrashPoint.MAX_ROLL
    ensures var end := CrashPaths.Take(cfg, CrashPaths.Take(cfg, s, AdvanceWrite(pid, t)), CreateWaiting(pid, roll, t.start));
            end.db == AdvanceAlone(cfg, s.db, t, roll) && end.calls == s.calls
  {
    if OpenRound(s.db.rounds).Some? || CoolingDown(s.db.rounds, t.check) {
      AdvanceAtOnce(cfg, s, pid, t, roll, start);
    } else {
      AdvanceByCreating(cfg, s, pid, t, roll, start);
    }
  }

  lemma AdvanceAtOnce(cfg: House, s: State, pid: nat, t: Reads, roll: nat, start: map<nat, Wallet>)
    requires Inv(cfg, s, start) && pid !in s.calls && t.Ordered() && s.clock <= t.check && roll <= CrashPoint.MAX_ROLL
    requires OpenRound(s.db.rounds).Some? || CoolingDown(s.db.rounds, t.check)
    ensures var s' := Next(cfg, s, AdvanceWrite(pid, t));
            && s'.db == AdvanceAlone(cfg, s.db, t, roll) && s'.calls == s.calls && Placed(s')
            && CrashPaths.Take(cfg, s', CreateWaiting(pid, roll, t.start)) == s'
  {
    StepKeeps(cfg, s, AdvanceWrite(pid, t), start);
  }

  lemma AdvanceByCreating(cfg: House, s: State, pid: nat, t: Reads, roll: nat, start: map<nat, Wallet>)
    requires Inv(cfg, s, start) && pid !in s.calls && t.Ordered() && s.clock <= t.check && roll <= CrashPoint.MAX_ROLL
    requires OpenRound(s.db.rounds).None? && !CoolingDown(s.db.rounds, t.check)
    ensures var s' := Next(cfg, s, AdvanceWrite(pid, t));
            && s' == State(s.db, s.calls[pid := Creating], t.check) && Placed(s')
            && var end := Next(cfg, s', CreateWaiting(pid, roll, t.start));
               end.db == AdvanceAlone(cfg, s.db, t, roll) && end.calls == s.calls
  {
    StepKeeps(cfg, s, AdvanceWrite(pid, t), start);
    assert s.calls[pid := Creating] - {pid} == s.calls;
  }

  /** placeBet is its locked step, with the creating and inserting step of an undisturbed call behind it. */
  lemma PlaceIsItsSteps(cfg: House, s: State, pid: nat, o: Order, t: Reads, roll: nat, start: map<nat, Wallet>)
    requires Inv(cfg, s, start) && pid !in s.calls && t.Ordered() && s.clock <= t.check && roll <= CrashPoint.MAX_ROLL
    ensures var end := CrashPaths.Take(cfg, CrashPaths.Take(cfg, s, PlaceBet(pid, o, t)), PlaceCreating(pid, roll, t.start));
            end.db == Result(s.db, PlaceAlone(cfg, s.db, o, t, roll)) && end.calls == s.calls
  {
    if OpenRound(s.db.rounds).Some? || CoolingDown(s.db.rounds, t.check) || !Admissible(cfg, o) {
      PlaceAtOnce(cfg, s, pid, o, t, roll, start);
    } else {
      PlaceByCreating(cfg, s, pid, o, t, roll, start);
    }
  }

  lemma PlaceAtOnce(cfg: House, s: State, pid: nat, o: Order, t: Reads, roll: nat, start: map<nat, Wallet>)
    requires Inv(cfg, s, start) && pid !in s.calls && t.Ordered() && s.clock <= t.check && roll <= CrashPoint.MAX_ROLL
    requires OpenRound(s.db.rounds).Some? || CoolingDown(s.db.rounds, t.check) || !Admissible(cfg, o)
    ensures var s' := Next(cfg, s, PlaceBet(pid, o, t));
            && s'.db == Result(s.db, PlaceAlone(cfg, s.db, o, t, roll)) && s'.calls == s.calls && Placed(s')
            && CrashPaths.Take(cfg, s', PlaceCreating(pid, roll, t.start)) == s'
  {
    StepKeeps(cfg, s, PlaceBet(pid, o, t), start);
  }

  lemma PlaceByCreating(cfg: House, s: State, pid: nat, o: Order, t: Reads, roll: nat, start: map<nat, Wallet>)
    requires Inv(cfg, s, start) && pid !in s.calls && t.Ordered() && s.clock <= t.check && roll <= CrashPoint.MAX_ROLL
    requires OpenRound(s.db.rounds).None? && !CoolingDown(s.db.rounds, t.check) && Admissible(cfg, o)
    ensures var s' := Next(cfg, s, PlaceBet(pid, o, t));
            && s' == State(s.db, s.calls[pid := BetCreating(o)], t.check) && Placed(s')
            && var end := Next(cfg, s', PlaceCreating(pid, roll, t.start));
               end.db == Result(s.db, PlaceAlone(cfg, s.db, o, t, roll)) && end.calls == s.calls
  {
    StepKeeps(cfg, s, PlaceBet(pid, o, t), start);
    assert s.calls[pid := BetCreating(o)] - {pid} == s.calls;
  }

  class CrashEngine {
    const cfg: House
    var rounds: seq<Round>
    var bets: seq<Bet>
    var wallets: map<nat, Wallet>
    var maxMultiplier: real

    function Rows(): Db
      reads this
    {
      Db(rounds, bets, wallets, maxMultiplier)
    }

    ghost predicate Valid()
      reads this
    {
      Linked(Rows())
    }

    constructor (cfg: House, wallets: map<nat, Wallet>, maxMultiplier: real)
      ensures Valid() && this.cfg == cfg && Rows() == Db([], [], wallets, maxMultiplier)
    {
      this.cfg := cfg;
      this.rounds, this.bets := [], [];
      this.wallets, this.maxMultiplier := wallets, maxMultiplier;
    }

    /** An exception undoes the writes of the transaction. */
    method Rollback(saved: Db)
      modifies this
      ensures Rows() == saved
    {
      rounds, bets, wallets, maxMultiplier := saved.rounds, saved.bets, saved.wallets, saved.maxMultiplier;
    }

    method SettleCashout(i: nat, multiplier: int)
      requires Valid() && i < |bets|
      modifies this
      ensures Valid() && Rows() == M.SettleCashout(old(Rows()), i, multiplier)
      ensures BetOk(old(bets)[i]) && multiplier >= 100 ==> CashedOutAt(old(Rows()), Rows(), i, multiplier)
    {
      ghost var db := Rows();
      var bet := bets[i];
      var payout := Payout(bet.amount, multiplier);
      bets := bets[i := bet.(status := CashedOut(multiplier, payout))];
      var user := wallets[bet.user];
      wallets := wallets[bet.user := CreditCashout(user, bet.amount, payout, bet.fromBalance, bet.fromBonus)];
      if BetOk(bet) && multiplier >= 100 { SettlePays(db, i, multiplier); }
    }

    method ProcessAutoCashouts(id: nat, now: int)
      requires Valid() && id < |rounds|
      modifies this
      ensures Valid()
      ensures Rows() == AutoCashouts(old(Rows()), id, CurrentMultiplier(cfg, old(maxMultiplier), old(rounds)[id], now), 0)
    {
      var multiplier := CurrentMultiplier(cfg, maxMultiplier, rounds[id], now);
      var i := 0;
      while i < |bets|
        invariant Valid() && i <= |bets| && rounds == old(rounds) && maxMultiplier == old(maxMultiplier)
        invariant AutoCashouts(Rows(), id, multiplier, i) == AutoCashouts(old(Rows()), id, multiplier, 0)
        decreases |bets| - i
      {
        var bet := bets[i];
        if bet.round == id && bet.status.Active? && bet.autoCashoutAt.Some? && bet.autoCashoutAt.value <= multiplier {
          var effective := Effective(maxMultiplier, rounds[id].crashPoint);
          var target := Min(bet.autoCashoutAt.value, effective - 1);
          if !(target < 101 || multiplier >= effective) {
            SettleCashout(i, bet.autoCashoutAt.value);
          }
        }
        i := i + 1;
      }
    }

    /** update ... set status = lost where round and status = active */
    method LoseActiveBets(id: nat)
      requires Valid()
      modifies this`bets
      ensures Valid() && bets == Bury(old(bets), id)
    {
      var i := 0;
      while i < |bets|
        invariant i <= |bets| == |old(bets)|
        invariant forall j :: 0 <= j < i ==> bets[j] == Bury(old(bets), id)[j]
        invariant forall j :: i <= j < |bets| ==> bets[j] == old(bets)[j]
      {
        if bets[i].round == id && bets[i].status.Active? {
          bets := bets[i := bets[i].(status := Lost)];
        }
        i := i + 1;
      }
    }

    method CrashRound(id: nat, now: int)
      requires Valid() && id < |rounds|
      modifies this
      ensures Valid() && Rows() == M.CrashRound(cfg, old(Rows()), id, now)
    {
      var round := rounds[id];
      var effective := Effective(maxMultiplier, round.crashPoint);
      if round.crashPoint != effective {
        round := round.(crashPoint := effective);
      }
      round := round.(status := Crashed, crashedAt := Some(Stamp(cfg, now)));
      rounds := rounds[id := round];
      LoseActiveBets(id);
    }

    /** Behind the advisory lock: the open round another caller has made meanwhile, or a new one. */
    method CreateWaitingRound(roll: nat, now: int) returns (id: nat)
      requires Valid() && roll <= CrashPoint.MAX_ROLL
      modifies this`rounds
      ensures Valid() && id < |rounds|
      ensures OpenRound(old(rounds)).Some? ==> id == OpenRound(old(rounds)).value && rounds == old(rounds)
      ensures OpenRound(old(rounds)).None? ==>
                id == |old(rounds)| && Rows() == M.CreateRound(cfg, old(Rows()), roll, now)
    {
      var existing := OpenRound(rounds);
      if existing.Some? {
        return existing.value;
      }
      var lastNumber := MaxNumber(rounds);
      var crashPoint := CrashPoint.Generate(cfg.edge, maxMultiplier, roll);
      id := |rounds|;
      rounds := rounds + [Round(lastNumber + 1, Waiting, crashPoint, Stamp(cfg, now + BETTING_MS), None, None)];
    }

    /** Some active bet of the round has an automatic cash-out. */
    predicate AnyAutoCashout(id: nat)
      reads this
    {
      exists i :: 0 <= i < |bets| && bets[i].round == id && bets[i].status.Active? && bets[i].autoCashoutAt.Some?
    }

    method AdvanceWrite(t: Reads, roll: nat) returns (id: nat)
      requires Valid() && roll <= CrashPoint.MAX_ROLL
      modifies this
      ensures Valid() && Rows() == AdvanceAlone(cfg, old(Rows()), t, roll)
      ensures id < |rounds|
      ensures OpenRound(old(rounds)).Some? ==> id == OpenRound(old(rounds)).value
      ensures OpenRound(old(rounds)).None? ==> id == |rounds| - 1
    {
      var open := OpenRound(rounds);
      if open.None? {
        if CoolingDown(rounds, t.check) {
          return |rounds| - 1;
        }
        id := CreateWaitingRound(roll, t.start);
        return;
      }
      id := open.value;
      if rounds[id].status.Waiting? && t.check >= rounds[id].bettingEndsAt {
        rounds := rounds[id := rounds[id].(status := Running, startedAt := Some(Stamp(cfg, t.start)))];
      }
      if rounds[id].status.Running? {
        ghost var up := Rows();
        if AnyAutoCashout(id) {
          ProcessAutoCashouts(id, t.auto);
        } else {
          CrashPaths.NothingDueNothingPaid(up, id, CurrentMultiplier(cfg, maxMultiplier, rounds[id], t.auto), 0);
        }
        var multiplier := CurrentMultiplier(cfg, maxMultiplier, rounds[id], t.decide);
        if multiplier >= Effective(maxMultiplier, rounds[id].crashPoint) {
          CrashRound(id, t.crash);
        }
      }
    }

    method PlaceBet(o: Order, t: Reads, roll: nat) returns (placed: bool)
      requires Valid() && roll <= CrashPoint.MAX_ROLL
      modifies this
      ensures Valid()
      ensures placed == PlaceAlone(cfg, old(Rows()), o, t, roll).Committed?
      ensures Rows() == if placed then PlaceAlone(cfg, old(Rows()), o, t, roll).db else old(Rows())
    {
      if o.slot < 1 || o.slot > 2 {
        return false;
      }
      if o.amount < cfg.minBet || o.amount > cfg.maxBet {
        return false;
      }
      var saved := Rows();
      var id := AdvanceWrite(t, roll);
      if !rounds[id].status.Waiting? {
        Rollback(saved);
        return false;
      }
      placed := InsertBet(o, id);
      if !placed {
        Rollback(saved);
      }
    }

    /**
     * placeBet from the user lock on, with whatever round it was given, open or not: the rows are as any other caller
     * left them. A refusal writes nothing.
     */
    method InsertBet(o: Order, id: nat) returns (placed: bool)
      requires Valid() && id < |rounds|
      modifies this`bets, this`wallets
      ensures Valid()
      ensures placed == M.InsertBet(old(Rows()), o, id).Committed?
      ensures Rows() == Result(old(Rows()), M.InsertBet(old(Rows()), o, id))
      ensures placed <==> Accepts(old(Rows()), o, id)
      ensures placed ==> Inserted(old(Rows()), Rows(), o, id)
    {
      InsertExactlyWhen(Rows(), o, id);
      if o.user !in wallets || wallets[o.user].Available() < o.amount {
        return false;
      }
      if SlotTaken(bets, id, o.user, o.slot) {
        return false;
      }
      if o.autoCashoutAt.Some?
         && (o.autoCashoutAt.value < 101 || o.autoCashoutAt.value as real / 100.0 > maxMultiplier) {
        return false;
      }
      var split := Debit(wallets[o.user], o.amount);
      if split.None? {
        return false;
      }
      wallets := wallets[o.user := split.value.wallet];
      bets := bets + [Bet(id, o.user, o.slot, o.amount, split.value.fromBalance, split.value.fromBonus,
                          o.autoCashoutAt, Active)];
      return true;
    }

    /** The cash-out of a user and slot pays their newest active bet, below the crash point, or changes nothing. */
    method Cashout(user: nat, slot: int, t: Reads) returns (paid: Option<nat>)
      requires Valid()
      modifies this
      ensures Valid()
      ensures paid.None? ==> Rows() == old(Rows())
      ensures paid.Some? ==>
                && NewestActive(old(bets), user, slot, |old(bets)|) == paid
                && CashoutLocked(cfg, old(Rows()), paid.value, t) == Committed(Rows())
      ensures paid.None? ==>
                var found := NewestActive(old(bets), user, slot, |old(bets)|);
                found.Some? ==> CashoutLocked(cfg, old(Rows()), found.value, t).RolledBack?
      ensures paid.Some? && Plausible(old(Rows())) ==> PaidInTheAir(cfg, old(Rows()), Rows(), paid.value, t)
    {
      var found := NewestActive(bets, user, slot, |bets|);
      if found.None? {
        return None;
      }
      var saved := Rows();
      var i := found.value;
      var id := bets[i].round;
      if rounds[id].status.Waiting? && t.check >= rounds[id].bettingEndsAt {
        rounds := rounds[id := rounds[id].(status := Running, startedAt := Some(Stamp(cfg, t.start)))];
      }
      if rounds[id].status.Waiting? {
        Rollback(saved);
        return None;
      }
      if rounds[id].status.Crashed? {
        bets := bets[i := bets[i].(status := Lost)];
        Rollback(saved);
        return None;
      }
      var multiplier := CurrentMultiplier(cfg, maxMultiplier, rounds[id], t.decide);
      if multiplier >= Effective(maxMultiplier, rounds[id].crashPoint) {
        CrashRound(id, t.crash);
        Rollback(saved);
        return None;
      }
      SettleCashout(i, multiplier);
      if Plausible(saved) { CashoutPaysInTheAir(cfg, saved, i, t); }
      return Some(i);
    }

    /** advanceLight's first update, decided on the row `seen` before, and whether it was due. */
    method TakeOffUpdate(id: nat, seen: Round, now: int) returns (due: bool)
      requires Valid() && id < |rounds|
      modifies this`rounds
      ensures Valid() && Rows() == LightTakeOff(cfg, old(Rows()), id, seen, now)
      ensures due == TakeoffDue(seen, now)
    {
      due := seen.status.Waiting? && now >= seen.bettingEndsAt;
      if due && rounds[id].status.Waiting? {
        rounds := rounds[id := rounds[id].(status := Running, startedAt := Some(Stamp(cfg, now)))];
      }
    }

    /** Its second update, and whether that hit the row. */
    method CrashUpdate(id: nat, seen: Round, now: int) returns (updated: bool)
      requires Valid() && id < |rounds|
      modifies this`rounds
      ensures Valid() && Rows() == LightCrash(cfg, old(Rows()), id, seen, now)
      ensures updated == LightCrashes(cfg, old(Rows()), id, seen, now)
    {
      updated := false;
      if seen.status.Running? {
        var multiplier := CurrentMultiplier(cfg, maxMultiplier, seen, now);
        if multiplier >= Effective(maxMultiplier, seen.crashPoint) && rounds[id].status.Running? {
          rounds := rounds[id := rounds[id].(status := Crashed, crashedAt := Some(Stamp(cfg, now)),
                                             crashPoint := Effective(maxMultiplier, seen.crashPoint))];
          updated := true;
        }
      }
    }

    /** advanceLight: its updates in turn. Each update's own contract holds on rows that others have written meanwhile. */
    method AdvanceLight(t: Reads, roll: nat)
      requires Valid() && roll <= CrashPoint.MAX_ROLL
      modifies this
      ensures Valid()
      ensures OpenRound(old(rounds)).Some? ==>
                Rows() == CrashPaths.LightRows(cfg, old(Rows()), OpenRound(old(rounds)).value, t)
      ensures OpenRound(old(rounds)).None? ==> Rows() == AdvanceAlone(cfg, old(Rows()), t, roll)
    {
      var open := OpenRound(rounds);
      if open.None? {
        if !CoolingDown(rounds, t.check) {
          var _ := AdvanceWrite(t, roll);
        }
        return;
      }
      var id := open.value;
      var seen := rounds[id];
      var due := TakeOffUpdate(id, seen, t.check);
      if due {
        seen := rounds[id];
      }
      var updated := CrashUpdate(id, seen, t.decide);
      if updated {
        LoseActiveBets(id);
      }
    }
  }
}
