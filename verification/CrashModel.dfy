/**
 * The crash game as a state machine over database rows. Each function is one transaction, or one statement
 * that runs outside a transaction, of the engine. Money and multipliers are whole hundredths, times are
 * milliseconds; every `now()` of a call is a separate reading.
 */
module CrashModel {
  import opened Numbers
  import CrashPoint

  // ------------------------------------------------------------------ rows

  datatype RoundStatus = Waiting | Running | Crashed

  datatype Round = Round(
    number: int,
    status: RoundStatus,
    crashPoint: int,
    bettingEndsAt: int,
    startedAt: Option<int>,
    crashedAt: Option<int>)

  datatype BetStatus = Active | CashedOut(multiplier: int, payout: int) | Lost

  datatype Bet = Bet(
    round: nat,
    user: nat,
    slot: int,
    amount: int,
    fromBalance: int,
    fromBonus: int,
    autoCashoutAt: Option<int>,
    status: BetStatus)

  datatype Wallet = Wallet(balance: int, bonus: int)
  {
    function Available(): int { balance + bonus }
  }

  /** Row ids are positions. maxMultiplier is the setting of that name. */
  datatype Db = Db(rounds: seq<Round>, bets: seq<Bet>, wallets: map<nat, Wallet>, maxMultiplier: real)

  /** What a transaction leaves behind: its writes, or nothing when it throws. */
  datatype Outcome = Committed(db: Db) | RolledBack

  // --------------------------------------------------------------- settings

  const BETTING_MS: int := 8000
  const COOLDOWN_MS: int := 2000

  /** exp(0.00006 ms), by the only facts used of it. */
  ghost predicate IsGrowth(g: nat -> real)
  {
    && g(0) == 1.0
    && (forall ms: nat, later: nat :: ms <= later ==> g(ms) <= g(later))
    && (forall ms: nat :: g(ms) >= 1.0 + 0.00006 * ms as real)
  }

  type Growth = g: nat -> real | IsGrowth(g) ghost witness ((ms: nat) => 1.0 + 0.00006 * ms as real)

  /** `tick` is the precision of a stored timestamp: a time is cut down to a multiple of it. */
  datatype Config = Config(growth: Growth, tick: nat, minBet: int, maxBet: int, edge: CrashPoint.Edge)

  predicate Sensible(cfg: Config)
  {
    cfg.tick > 0 && cfg.minBet > 0
  }

  type House = c: Config | Sensible(c) ghost witness Config((ms: nat) => 1.0 + 0.00006 * ms as real, 1, 1, 1, 0.0)

  function Stamp(cfg: House, t: int): int { t - t % cfg.tick }

  // ------------------------------------------------------------ multipliers

  /** min(crash_point, max_multiplier), rounded to hundredths. */
  function Effective(max: real, crashPoint: int): int
  {
    RoundCents(RealMin(crashPoint as real / 100.0, max))
  }

  /** The multiplier of a round that has run for `elapsed` ms. */
  function RunningMultiplier(cfg: House, max: real, elapsed: nat): int
  {
    FloorCents(RealMin(max, cfg.growth(elapsed)))
  }

  function CurrentMultiplier(cfg: House, max: real, r: Round, now: int): int
  {
    if r.status.Waiting? || r.startedAt.None? then 100
    else if r.status.Crashed? then Effective(max, r.crashPoint)
    else RunningMultiplier(cfg, max, Max(0, now - r.startedAt.value))
  }

  // ------------------------------------------------------------------ wallet

  datatype Debited = Debited(wallet: Wallet, fromBalance: int, fromBonus: int)

  /** Stakes come out of the balance first, then out of the bonus. */
  function Debit(w: Wallet, amount: int): Option<Debited>
  {
    if amount <= 0 || w.Available() < amount then None
    else
      var fromBalance := Min(w.balance, amount);
      var fromBonus := amount - fromBalance;
      Some(Debited(Wallet(w.balance - fromBalance, w.bonus - fromBonus), fromBalance, fromBonus))
  }

  function Credit(w: Wallet, amount: int): Wallet
  {
    if amount <= 0 then w else w.(balance := w.balance + amount)
  }

  function CreditBonus(w: Wallet, amount: int): Wallet
  {
    if amount <= 0 then w else w.(bonus := w.bonus + amount)
  }

  /** A cash-out gives the stake back to where it came from and the profit to the balance. */
  function CreditCashout(w: Wallet, stake: int, payout: int, fromBalance: int, fromBonus: int): Wallet
  {
    if fromBalance + fromBonus <= 0 then Credit(w, payout)
    else CreditBonus(Credit(w, fromBalance + Max(0, payout - stake)), fromBonus)
  }

  // ------------------------------------------------------------------- rounds

  function OpenRoundBelow(rounds: seq<Round>, n: nat): (r: Option<nat>)
    requires n <= |rounds|
    ensures r.Some? ==> r.value < n && !rounds[r.value].status.Crashed?
                        && forall i :: r.value < i < n ==> rounds[i].status.Crashed?
    ensures r.None? ==> forall i :: 0 <= i < n ==> rounds[i].status.Crashed?
  {
    if n == 0 then None
    else if !rounds[n - 1].status.Crashed? then Some(n - 1)
    else OpenRoundBelow(rounds, n - 1)
  }

  /** The waiting or running round of the highest id. */
  function OpenRound(rounds: seq<Round>): (r: Option<nat>)
    ensures r.Some? ==> r.value < |rounds| && !rounds[r.value].status.Crashed?
                        && forall i :: r.value < i < |rounds| ==> rounds[i].status.Crashed?
    ensures r.None? ==> forall i :: 0 <= i < |rounds| ==> rounds[i].status.Crashed?
  {
    OpenRoundBelow(rounds, |rounds|)
  }

  /** With no open round: the last crash is less than two seconds old. */
  predicate CoolingDown(rounds: seq<Round>, now: int)
  {
    |rounds| > 0 && rounds[|rounds| - 1].crashedAt.Some? && rounds[|rounds| - 1].crashedAt.value > now - COOLDOWN_MS
  }

  function MaxNumber(rounds: seq<Round>): int
  {
    if rounds == [] then 0 else Max(MaxNumber(rounds[..|rounds| - 1]), rounds[|rounds| - 1].number)
  }

  function FreshRound(cfg: House, db: Db, roll: nat, now: int): Round
    requires roll <= CrashPoint.MAX_ROLL
  {
    Round(MaxNumber(db.rounds) + 1, Waiting, CrashPoint.Generate(cfg.edge, db.maxMultiplier, roll),
          Stamp(cfg, now + BETTING_MS), None, None)
  }

  function CreateRound(cfg: House, db: Db, roll: nat, now: int): Db
    requires roll <= CrashPoint.MAX_ROLL
  {
    db.(rounds := db.rounds + [FreshRound(cfg, db, roll, now)])
  }

  function Started(cfg: House, r: Round, now: int): Round
  {
    r.(status := Running, startedAt := Some(Stamp(cfg, now)))
  }

  function CrashedRow(cfg: House, max: real, r: Round, now: int): Round
  {
    r.(status := Crashed, crashPoint := Effective(max, r.crashPoint), crashedAt := Some(Stamp(cfg, now)))
  }

  predicate TakeoffDue(r: Round, now: int)
  {
    r.status.Waiting? && now >= r.bettingEndsAt
  }

  predicate CrashDue(cfg: House, max: real, r: Round, now: int)
  {
    r.status.Running? && CurrentMultiplier(cfg, max, r, now) >= Effective(max, r.crashPoint)
  }

  // --------------------------------------------------------------------- bets

  function Payout(amount: int, multiplier: int): int
  {
    if amount < 0 || multiplier < 0 then 0 else RoundedQuotient(amount * multiplier, 100)
  }

  function Settled(b: Bet, multiplier: int): Bet
  {
    b.(status := CashedOut(multiplier, Payout(b.amount, multiplier)))
  }

  /** Foreign keys: every bet belongs to a round and to a user. */
  predicate Linked(db: Db)
  {
    forall i :: 0 <= i < |db.bets| ==> db.bets[i].round < |db.rounds| && db.bets[i].user in db.wallets
  }

  /** settleCashout: the bet row and the owner's wallet. */
  function SettleCashout(db: Db, i: nat, multiplier: int): (db': Db)
    requires i < |db.bets| && Linked(db)
    ensures Linked(db')
    ensures db'.rounds == db.rounds && |db'.bets| == |db.bets| && db'.maxMultiplier == db.maxMultiplier
  {
    var b := db.bets[i];
    var w := CreditCashout(db.wallets[b.user], b.amount, Payout(b.amount, multiplier), b.fromBalance, b.fromBonus);
    db.(bets := db.bets[i := Settled(b, multiplier)], wallets := db.wallets[b.user := w])
  }

  /** The still active bets of a round are lost. */
  function Bury(bets: seq<Bet>, id: nat): (bets': seq<Bet>)
    ensures |bets'| == |bets|
  {
    seq(|bets|, i requires 0 <= i < |bets| =>
      if bets[i].round == id && bets[i].status.Active? then bets[i].(status := Lost) else bets[i])
  }

  function CrashRound(cfg: House, db: Db, id: nat, now: int): Db
    requires id < |db.rounds|
  {
    db.(rounds := db.rounds[id := CrashedRow(cfg, db.maxMultiplier, db.rounds[id], now)], bets := Bury(db.bets, id))
  }

  /** The bet is settled by processAutoCashouts at this multiplier. */
  predicate AutoDue(b: Bet, id: nat, multiplier: int, effective: int)
  {
    && b.round == id && b.status.Active? && b.autoCashoutAt.Some? && b.autoCashoutAt.value <= multiplier
    && !(Min(b.autoCashoutAt.value, effective - 1) < 101 || multiplier >= effective)
  }

  /** processAutoCashouts from bet i on. */
  function AutoCashouts(db: Db, id: nat, multiplier: int, i: nat): (db': Db)
    requires id < |db.rounds| && i <= |db.bets| && Linked(db)
    ensures Linked(db')
    ensures db'.rounds == db.rounds && |db'.bets| == |db.bets| && db'.maxMultiplier == db.maxMultiplier
    decreases |db.bets| - i
  {
    if i == |db.bets| then db
    else
      var next := if AutoDue(db.bets[i], id, multiplier, Effective(db.maxMultiplier, db.rounds[id].crashPoint))
                  then SettleCashout(db, i, db.bets[i].autoCashoutAt.value) else db;
      AutoCashouts(next, id, multiplier, i + 1)
  }

  // ------------------------------------------------------------- transactions

  /** The clock readings of one call, in the order the code takes them. */
  datatype Reads = Reads(check: int, start: int, auto: int, decide: int, crash: int)
  {
    predicate Ordered() { check <= start <= auto <= decide <= crash }
  }

  function AtInstant(t: int): Reads { Reads(t, t, t, t, t) }

  function TakeOffIfDue(cfg: House, db: Db, id: nat, t: Reads): (db': Db)
    requires id < |db.rounds| && Linked(db)
    ensures Linked(db') && |db'.rounds| == |db.rounds| && db'.bets == db.bets
  {
    if TakeoffDue(db.rounds[id], t.check)
    then db.(rounds := db.rounds[id := Started(cfg, db.rounds[id], t.start)])
    else db
  }

  /** advanceWrite on the open round it has locked. */
  function AdvanceOpen(cfg: House, db: Db, id: nat, t: Reads): (db': Db)
    requires id < |db.rounds| && Linked(db)
  {
    var up := TakeOffIfDue(cfg, db, id, t);
    if !up.rounds[id].status.Running? then up
    else
      var paid := AutoCashouts(up, id, CurrentMultiplier(cfg, up.maxMultiplier, up.rounds[id], t.auto), 0);
      if CrashDue(cfg, paid.maxMultiplier, paid.rounds[id], t.decide) then CrashRound(cfg, paid, id, t.crash) else paid
  }

  datatype Order = Order(user: nat, amount: int, slot: int, autoCashoutAt: Option<int>)

  /** What placeBet checks before it opens its transaction. */
  predicate Admissible(cfg: House, o: Order)
  {
    1 <= o.slot <= 2 && cfg.minBet <= o.amount <= cfg.maxBet
  }

  predicate SlotTaken(bets: seq<Bet>, round: nat, user: nat, slot: int)
  {
    exists i :: 0 <= i < |bets| && bets[i].round == round && bets[i].user == user && bets[i].slot == slot
  }

  predicate AutoAllowed(max: real, auto: Option<int>)
  {
    auto.Some? ==> 101 <= auto.value && auto.value as real / 100.0 <= max
  }

  /** placeBet from the user lock on: the checks, the debit and the bet row. */
  function InsertBet(db: Db, o: Order, id: nat): Outcome
  {
    if o.user !in db.wallets || db.wallets[o.user].Available() < o.amount then RolledBack
    else if SlotTaken(db.bets, id, o.user, o.slot) || !AutoAllowed(db.maxMultiplier, o.autoCashoutAt) then RolledBack
    else match Debit(db.wallets[o.user], o.amount)
      case None => RolledBack
      case Some(d) =>
        var bet := Bet(id, o.user, o.slot, o.amount, d.fromBalance, d.fromBonus, o.autoCashoutAt, Active);
        Committed(db.(bets := db.bets + [bet], wallets := db.wallets[o.user := d.wallet]))
  }

  /** placeBet when advanceWrite locked an open round. */
  function PlaceOnOpen(cfg: House, db: Db, o: Order, id: nat, t: Reads): Outcome
    requires id < |db.rounds| && Linked(db)
  {
    var advanced := AdvanceOpen(cfg, db, id, t);
    if !advanced.rounds[id].status.Waiting? then RolledBack else InsertBet(advanced, o, id)
  }

  /** The bet cashout works on: the newest active one of this user and slot. */
  function NewestActive(bets: seq<Bet>, user: nat, slot: int, n: nat): (r: Option<nat>)
    requires n <= |bets|
    ensures r.Some? ==> r.value < n && bets[r.value].status.Active? && bets[r.value].user == user && bets[r.value].slot == slot
                        && forall j :: r.value < j < n ==> !(bets[j].status.Active? && bets[j].user == user && bets[j].slot == slot)
    ensures r.None? ==> forall j :: 0 <= j < n ==> !(bets[j].status.Active? && bets[j].user == user && bets[j].slot == slot)
  {
    if n == 0 then None
    else if bets[n - 1].status.Active? && bets[n - 1].user == user && bets[n - 1].slot == slot then Some(n - 1)
    else NewestActive(bets, user, slot, n - 1)
  }

  /** cashout once it holds the locks on the round and on bet i: every throw undoes all of its writes. */
  function CashoutLocked(cfg: House, db: Db, i: nat, t: Reads): Outcome
    requires i < |db.bets| && Linked(db)
  {
    var id := db.bets[i].round;
    if !db.bets[i].status.Active? then RolledBack
    else
      var up := TakeOffIfDue(cfg, db, id, t);
      if !up.rounds[id].status.Running? || CrashDue(cfg, up.maxMultiplier, up.rounds[id], t.decide) then RolledBack
      else Committed(SettleCashout(up, i, CurrentMultiplier(cfg, up.maxMultiplier, up.rounds[id], t.decide)))
  }

  // ------------------------------- the statements of advanceLight, each on its own

  /** `update ... where id and status = waiting`, decided on the row read before. */
  function LightTakeOff(cfg: House, db: Db, id: nat, seen: Round, now: int): Db
    requires id < |db.rounds|
  {
    if TakeoffDue(seen, now) && db.rounds[id].status.Waiting?
    then db.(rounds := db.rounds[id := Started(cfg, db.rounds[id], now)])
    else db
  }

  /** `update ... where id and status = running`, decided on the row read before. */
  predicate LightCrashes(cfg: House, db: Db, id: nat, seen: Round, now: int)
    requires id < |db.rounds|
  {
    CrashDue(cfg, db.maxMultiplier, seen, now) && db.rounds[id].status.Running?
  }

  function LightCrash(cfg: House, db: Db, id: nat, seen: Round, now: int): Db
    requires id < |db.rounds|
  {
    if LightCrashes(cfg, db, id, seen, now)
    then db.(rounds := db.rounds[id := db.rounds[id].(
               status := Crashed, crashPoint := Effective(db.maxMultiplier, seen.crashPoint),
               crashedAt := Some(Stamp(cfg, now)))])
    else db
  }

  function LightBury(db: Db, id: nat): Db
  {
    db.(bets := Bury(db.bets, id))
  }
}
