/** What every statement and every transaction of the crash engine keeps of the rows. */
module CrashInvariant {
  import opened Numbers
  import opened CrashModel
  import CrashPoint

  // ------------------------------------------------------------- the invariant

  /** Numbers count up from one, and every round but the newest has crashed: at most one is open. */
  ghost predicate RoundsOk(rounds: seq<Round>)
  {
    forall i :: 0 <= i < |rounds| ==>
      && rounds[i].number == i + 1
      && rounds[i].crashPoint >= 100
      && (i < |rounds| - 1 ==> rounds[i].status.Crashed?)
      && (rounds[i].status.Running? ==> rounds[i].startedAt.Some?)
  }

  ghost predicate BetOk(b: Bet)
  {
    && 1 <= b.slot <= 2 && b.amount > 0
    && b.fromBalance >= 0 && b.fromBonus >= 0 && b.fromBalance + b.fromBonus == b.amount
    && (b.autoCashoutAt.Some? ==> b.autoCashoutAt.value >= 101)
    && (b.status.CashedOut? ==> b.status.multiplier >= 100 && b.status.payout == Payout(b.amount, b.status.multiplier))
  }

  ghost predicate SameSlot(a: Bet, b: Bet)
  {
    a.round == b.round && a.user == b.user && a.slot == b.slot
  }

  ghost predicate SlotsUnique(bets: seq<Bet>)
  {
    forall i, j :: 0 <= i < j < |bets| ==> !SameSlot(bets[i], bets[j])
  }

  /** What a bet has brought user u so far: the payout if any, less the stake. */
  ghost function Delta(b: Bet, u: nat): int
  {
    if b.user != u then 0 else (if b.status.CashedOut? then b.status.payout else 0) - b.amount
  }

  ghost function Net(bets: seq<Bet>, u: nat): int
  {
    if bets == [] then 0 else Net(bets[..|bets| - 1], u) + Delta(bets[|bets| - 1], u)
  }

  /** Conservation: a wallet holds its initial total, less all stakes, plus all payouts, and is never overdrawn. */
  ghost predicate Solvent(db: Db, start: map<nat, Wallet>)
  {
    && db.wallets.Keys == start.Keys
    && forall u :: u in start ==>
         && db.wallets[u].balance >= 0 && db.wallets[u].bonus >= 0
         && db.wallets[u].Available() == start[u].Available() + Net(db.bets, u)
  }

  ghost predicate DbOk(db: Db, start: map<nat, Wallet>)
  {
    && Linked(db) && db.maxMultiplier >= 1.0
    && RoundsOk(db.rounds)
    && (forall i :: 0 <= i < |db.bets| ==> BetOk(db.bets[i]))
    && SlotsUnique(db.bets)
    && Solvent(db, start)
  }

  // ------------------------------------------------------- how rows may change

  ghost function Rank(s: RoundStatus): int
  {
    match s case Waiting => 0 case Running => 1 case Crashed => 2
  }

  /** waiting, running, crashed, in this order; a crashed row is frozen. */
  ghost predicate RoundGrows(r: Round, r': Round)
  {
    && r'.number == r.number && r'.bettingEndsAt == r.bettingEndsAt
    && Rank(r.status) <= Rank(r'.status)
    && (r.status.Crashed? ==> r' == r)
    && (r.status.Running? ==> r'.startedAt == r.startedAt)
    && (!r'.status.Crashed? ==> r'.crashPoint == r.crashPoint)
  }

  /** cashed_out and lost are terminal, and a bet of a crashed round is never cashed out. */
  ghost predicate BetGrows(b: Bet, b': Bet, crashed: bool)
  {
    && b'.(status := b.status) == b
    && (!b.status.Active? ==> b' == b)
    && (b.status.Active? && crashed ==> !b'.status.CashedOut?)
  }

  ghost predicate Grows(db: Db, db': Db)
    requires Linked(db) && Linked(db')
  {
    && |db.rounds| <= |db'.rounds| && |db.bets| <= |db'.bets|
    && (forall i :: 0 <= i < |db.rounds| ==> RoundGrows(db.rounds[i], db'.rounds[i]))
    && (forall i :: 0 <= i < |db.bets| ==>
          BetGrows(db.bets[i], db'.bets[i], db.rounds[db.bets[i].round].status.Crashed?))
    && (forall i :: |db.bets| <= i < |db'.bets| ==>
          db'.bets[i].round < |db.rounds| && db.rounds[db'.bets[i].round].status.Crashed? ==> !db'.bets[i].status.CashedOut?)
  }

  lemma GrowsTransitive(a: Db, b: Db, c: Db)
    requires Linked(a) && Linked(b) && Linked(c)
    requires Grows(a, b) && Grows(b, c)
    ensures Grows(a, c)
  {
  }

  // --------------------------------------------------------------- rounding facts

  lemma EffectiveBounds(max: real, crashPoint: int)
    requires max >= 1.0 && crashPoint >= 100
    ensures 100 <= Effective(max, crashPoint) <= crashPoint
    ensures crashPoint as real / 100.0 <= max ==> Effective(max, crashPoint) == crashPoint
    ensures crashPoint as real / 100.0 > max ==> Effective(max, crashPoint) == RoundCents(max)
  {
  }

  /** Capping twice is capping once: the stored crash point of a crashed round is its effective one. */
  lemma EffectiveIsIdempotent(max: real, crashPoint: int)
    requires max >= 1.0 && crashPoint >= 100
    ensures Effective(max, Effective(max, crashPoint)) == Effective(max, crashPoint)
  {
  }

  // ------------------------------------------------------------ sums over bets

  lemma {:induction false} NetUpdate(bets: seq<Bet>, i: nat, b: Bet, u: nat)
    requires i < |bets|
    ensures Net(bets[i := b], u) == Net(bets, u) - Delta(bets[i], u) + Delta(b, u)
  {
    var n := |bets| - 1;
    if i == n {
      assert bets[i := b][..n] == bets[..n];
    } else {
      assert bets[i := b][..n] == bets[..n][i := b];
      NetUpdate(bets[..n], i, b, u);
    }
  }

  lemma {:induction false} NetSame(bets: seq<Bet>, bets': seq<Bet>, u: nat)
    requires |bets| == |bets'| && forall i :: 0 <= i < |bets| ==> Delta(bets[i], u) == Delta(bets'[i], u)
    ensures Net(bets, u) == Net(bets', u)
  {
    if bets != [] {
      NetSame(bets[..|bets| - 1], bets'[..|bets| - 1], u);
    }
  }

  // ---------------------------------------------------- every write, one by one

  lemma BuryKeeps(db: Db, id: nat, start: map<nat, Wallet>)
    requires DbOk(db, start)
    ensures DbOk(LightBury(db, id), start) && Grows(db, LightBury(db, id))
  {
    var db' := LightBury(db, id);
    forall u | u in start
      ensures Net(db'.bets, u) == Net(db.bets, u)
    {
      NetSame(db.bets, db'.bets, u);
    }
  }

  lemma CrashKeeps(cfg: House, db: Db, id: nat, now: int, start: map<nat, Wallet>)
    requires DbOk(db, start) && id < |db.rounds| && !db.rounds[id].status.Crashed?
    ensures DbOk(CrashRound(cfg, db, id, now), start) && Grows(db, CrashRound(cfg, db, id, now))
  {
    var r := CrashedRow(cfg, db.maxMultiplier, db.rounds[id], now);
    var mid := db.(rounds := db.rounds[id := r]);
    EffectiveBounds(db.maxMultiplier, db.rounds[id].crashPoint);
    BuryKeeps(mid, id, start);
    GrowsTransitive(db, mid, LightBury(mid, id));
  }

  lemma PayoutAtLeastStake(amount: int, multiplier: int)
    requires amount >= 0 && multiplier >= 100
    ensures Payout(amount, multiplier) >= amount
  {
    assert amount * multiplier - amount * 100 == amount * (multiplier - 100);
    QuotientBounds(amount * multiplier, 100);
  }

  /** A cash-out raises its owner's total by exactly the payout, stake included. */
  lemma CreditCashoutPays(w: Wallet, b: Bet, multiplier: int)
    requires BetOk(b) && multiplier >= 100
    ensures var w' := CreditCashout(w, b.amount, Payout(b.amount, multiplier), b.fromBalance, b.fromBonus);
            && w'.Available() == w.Available() + Payout(b.amount, multiplier)
            && w'.bonus == w.bonus + b.fromBonus && w'.balance >= w.balance
  {
    PayoutAtLeastStake(b.amount, multiplier);
  }

  lemma SettleSolvent(db: Db, i: nat, multiplier: int, start: map<nat, Wallet>)
    requires DbOk(db, start) && i < |db.bets| && db.bets[i].status.Active? && multiplier >= 100
    ensures Solvent(SettleCashout(db, i, multiplier), start)
  {
    var db', b := SettleCashout(db, i, multiplier), db.bets[i];
    CreditCashoutPays(db.wallets[b.user], b, multiplier);
    forall u | u in start
      ensures db'.wallets[u].Available() == start[u].Available() + Net(db'.bets, u)
    {
      NetUpdate(db.bets, i, Settled(b, multiplier), u);
    }
  }

  lemma SettleKeeps(db: Db, i: nat, multiplier: int, start: map<nat, Wallet>)
    requires DbOk(db, start) && i < |db.bets| && db.bets[i].status.Active? && multiplier >= 100
    requires !db.rounds[db.bets[i].round].status.Crashed?
    ensures DbOk(SettleCashout(db, i, multiplier), start) && Grows(db, SettleCashout(db, i, multiplier))
  {
    SettleSolvent(db, i, multiplier, start);
  }

  lemma AutoOneKeeps(db: Db, id: nat, multiplier: int, i: nat, start: map<nat, Wallet>)
    requires DbOk(db, start) && id < |db.rounds| && i < |db.bets| && !db.rounds[id].status.Crashed?
    requires AutoDue(db.bets[i], id, multiplier, Effective(db.maxMultiplier, db.rounds[id].crashPoint))
    ensures var next := SettleCashout(db, i, db.bets[i].autoCashoutAt.value);
            DbOk(next, start) && Grows(db, next)
  {
    SettleKeeps(db, i, db.bets[i].autoCashoutAt.value, start);
  }

  lemma {:induction false} AutoKeepsOk(db: Db, id: nat, multiplier: int, i: nat, start: map<nat, Wallet>)
    requires DbOk(db, start) && id < |db.rounds| && i <= |db.bets| && !db.rounds[id].status.Crashed?
    ensures DbOk(AutoCashouts(db, id, multiplier, i), start)
    decreases |db.bets| - i
  {
    if i < |db.bets| {
      if AutoDue(db.bets[i], id, multiplier, Effective(db.maxMultiplier, db.rounds[id].crashPoint)) {
        AutoOneKeeps(db, id, multiplier, i, start);
        AutoKeepsOk(SettleCashout(db, i, db.bets[i].autoCashoutAt.value), id, multiplier, i + 1, start);
      } else {
        AutoKeepsOk(db, id, multiplier, i + 1, start);
      }
    }
  }

  /** processAutoCashouts pays every bet that is due, at its own target, whatever it paid before it. */
  lemma {:induction false} DueIsPaid(db: Db, id: nat, multiplier: int, i: nat, j: nat)
    requires Linked(db) && id < |db.rounds| && i <= |db.bets| && j < |db.bets|
    ensures var b := db.bets[j];
            var due := b.round == id && b.status.Active? && b.autoCashoutAt.Some?
                       && 101 <= b.autoCashoutAt.value <= multiplier < Effective(db.maxMultiplier, db.rounds[id].crashPoint);
            AutoCashouts(db, id, multiplier, i).bets[j]
              == if i <= j && due then Settled(db.bets[j], db.bets[j].autoCashoutAt.value) else db.bets[j]
    decreases |db.bets| - i
  {
    if i < |db.bets| {
      if AutoDue(db.bets[i], id, multiplier, Effective(db.maxMultiplier, db.rounds[id].crashPoint)) {
        DueIsPaid(SettleCashout(db, i, db.bets[i].autoCashoutAt.value), id, multiplier, i + 1, j);
      } else {
        DueIsPaid(db, id, multiplier, i + 1, j);
      }
    }
  }

  lemma AutoGrows(db: Db, id: nat, multiplier: int)
    requires Linked(db) && id < |db.rounds| && !db.rounds[id].status.Crashed?
    ensures Grows(db, AutoCashouts(db, id, multiplier, 0))
  {
    forall j | 0 <= j < |db.bets|
      ensures BetGrows(db.bets[j], AutoCashouts(db, id, multiplier, 0).bets[j], db.rounds[db.bets[j].round].status.Crashed?)
    {
      DueIsPaid(db, id, multiplier, 0, j);
    }
  }

  lemma AutoKeeps(db: Db, id: nat, multiplier: int, start: map<nat, Wallet>)
    requires DbOk(db, start) && id < |db.rounds| && !db.rounds[id].status.Crashed?
    ensures DbOk(AutoCashouts(db, id, multiplier, 0), start) && Grows(db, AutoCashouts(db, id, multiplier, 0))
  {
    AutoKeepsOk(db, id, multiplier, 0, start);
    AutoGrows(db, id, multiplier);
  }

  lemma AirborneKeeps(cfg: House, db: Db, id: nat, multiplier: int, crashes: bool, now: int, start: map<nat, Wallet>)
    requires DbOk(db, start) && id < |db.rounds| && !db.rounds[id].status.Crashed?
    ensures var paid := AutoCashouts(db, id, multiplier, 0);
            var db' := if crashes then CrashRound(cfg, paid, id, now) else paid;
            DbOk(db', start) && Grows(db, db')
  {
    var paid := AutoCashouts(db, id, multiplier, 0);
    AutoKeeps(db, id, multiplier, start);
    if crashes {
      CrashKeeps(cfg, paid, id, now, start);
      GrowsTransitive(db, paid, CrashRound(cfg, paid, id, now));
    }
  }

  lemma TakeOffKeeps(cfg: House, db: Db, id: nat, t: Reads, start: map<nat, Wallet>)
    requires DbOk(db, start) && id < |db.rounds|
    ensures DbOk(TakeOffIfDue(cfg, db, id, t), start) && Grows(db, TakeOffIfDue(cfg, db, id, t))
  {
  }

  lemma AdvanceKeeps(cfg: House, db: Db, id: nat, t: Reads, start: map<nat, Wallet>)
    requires DbOk(db, start) && id < |db.rounds|
    ensures DbOk(AdvanceOpen(cfg, db, id, t), start) && Grows(db, AdvanceOpen(cfg, db, id, t))
  {
    var up := TakeOffIfDue(cfg, db, id, t);
    TakeOffKeeps(cfg, db, id, t, start);
    if up.rounds[id].status.Running? {
      var multiplier := CurrentMultiplier(cfg, up.maxMultiplier, up.rounds[id], t.auto);
      var crashes := CrashDue(cfg, up.maxMultiplier, up.rounds[id], t.decide);
      AirborneKeeps(cfg, up, id, multiplier, crashes, t.crash, start);
      GrowsTransitive(db, up, AdvanceOpen(cfg, db, id, t));
    }
  }

  lemma CashoutKeeps(cfg: House, db: Db, i: nat, t: Reads, start: map<nat, Wallet>)
    requires DbOk(db, start) && i < |db.bets| && CashoutLocked(cfg, db, i, t).Committed?
    ensures DbOk(CashoutLocked(cfg, db, i, t).db, start) && Grows(db, CashoutLocked(cfg, db, i, t).db)
  {
    var id := db.bets[i].round;
    var up := TakeOffIfDue(cfg, db, id, t);
    var m := CurrentMultiplier(cfg, up.maxMultiplier, up.rounds[id], t.decide);
    SettleKeeps(up, i, m, start);
    GrowsTransitive(db, up, SettleCashout(up, i, m));
  }

  /** An admitted bet costs its owner exactly the stake, split between balance and bonus. */
  lemma InsertKeeps(cfg: House, db: Db, o: Order, id: nat, start: map<nat, Wallet>)
    requires DbOk(db, start) && Admissible(cfg, o) && id < |db.rounds| && InsertBet(db, o, id).Committed?
    ensures DbOk(InsertBet(db, o, id).db, start) && Grows(db, InsertBet(db, o, id).db)
  {
    var db' := InsertBet(db, o, id).db;
    var b := db'.bets[|db.bets|];
    assert db'.bets == db.bets + [b];
    assert forall u :: u in start ==> db'.wallets[u].Available() == start[u].Available() + Net(db'.bets, u);
    forall i | 0 <= i < |db.bets|
      ensures !SameSlot(db.bets[i], b)
    {
    }
  }

  lemma {:induction false} MaxNumberIsLength(rounds: seq<Round>)
    requires forall i :: 0 <= i < |rounds| ==> rounds[i].number == i + 1
    ensures MaxNumber(rounds) == |rounds|
  {
    if rounds != [] {
      MaxNumberIsLength(rounds[..|rounds| - 1]);
    }
  }

  /** A new round takes the next number, so the unique index on round_number never rejects it. */
  lemma CreateKeeps(cfg: House, db: Db, roll: nat, now: int, start: map<nat, Wallet>)
    requires DbOk(db, start) && roll <= CrashPoint.MAX_ROLL && OpenRound(db.rounds).None?
    ensures DbOk(CreateRound(cfg, db, roll, now), start) && Grows(db, CreateRound(cfg, db, roll, now))
    ensures forall i :: 0 <= i < |db.rounds| ==> db.rounds[i].number < FreshRound(cfg, db, roll, now).number
  {
    MaxNumberIsLength(db.rounds);
    CrashPoint.GenerateInRange(cfg.edge, db.maxMultiplier, roll);
  }
}
