/**
 * Every interleaving of the crash engine's calls. A call that gives up the database between two statements
 * is in flight: what it has read so far is kept under its id. A step takes one statement or one locked
 * transaction; a run is any sequence of steps. A call in flight can also die: what it has not committed is undone.
 */
module CrashMachine {
  import opened Numbers
  import opened CrashModel
  import CrashPoint

  datatype Call =
    | Creating                               // advanceWrite found no open round and waits for the advisory lock
    | BetCreating(order: Order)              // the same inside placeBet
    | BetInserting(order: Order, id: nat)    // placeBet read this waiting round under the advisory lock, without a row lock
    | CashingOut(bet: nat)                   // cashout located its bet, no locks yet
    | LightDeciding(id: nat, seen: Round)    // advanceLight read this row, before the take-off update
    | LightRefreshing(id: nat)               // after the take-off update, before refresh()
    | LightJudging(id: nat, seen: Round)     // before the crash update
    | LightBurying(id: nat)                  // its crash update hit, the bets are not yet lost

  datatype State = State(db: Db, calls: map<nat, Call>, clock: int)

  datatype Step =
    | Tick(now: int)
    | SetMaxMultiplier(max: real)
    | AdvanceWrite(pid: nat, t: Reads)
    | CreateWaiting(pid: nat, roll: nat, now: int)
    | PlaceBet(pid: nat, order: Order, t: Reads)
    | PlaceCreating(pid: nat, roll: nat, now: int)
    | PlaceInserting(pid: nat, now: int)
    | CashoutLocate(pid: nat, user: nat, slot: int)
    | CashoutCommit(pid: nat, t: Reads)
    | LightRead(pid: nat)
    | LightStart(pid: nat, now: int)
    | LightRefresh(pid: nat)
    | LightDecide(pid: nat, now: int)
    | LightLose(pid: nat)
    | Die(pid: nat)

  /**
   * The first reading a step takes and the last one; a step without a clock reading repeats the clock. Without an
   * open round an advance reads the clock once and goes on to the advisory lock.
   */
  function FirstReading(s: State, step: Step): int
  {
    match step
    case Tick(now) => now
    case AdvanceWrite(_, t) => t.check
    case CreateWaiting(_, _, now) => now
    case PlaceBet(_, _, t) => t.check
    case PlaceCreating(_, _, now) => now
    case PlaceInserting(_, now) => now
    case CashoutCommit(_, t) => t.check
    case LightStart(_, now) => now
    case LightDecide(_, now) => now
    case _ => s.clock
  }

  function LastReading(s: State, step: Step): int
  {
    match step
    case AdvanceWrite(_, t) => if OpenRound(s.db.rounds).Some? then t.crash else t.check
    case PlaceBet(_, _, t) => if OpenRound(s.db.rounds).Some? then t.crash else t.check
    case CashoutCommit(_, t) => t.crash
    case _ => FirstReading(s, step)
  }

  predicate OrderedReadings(step: Step)
  {
    match step
    case AdvanceWrite(_, t) => t.Ordered()
    case PlaceBet(_, _, t) => t.Ordered()
    case CashoutCommit(_, t) => t.Ordered()
    case _ => true
  }

  /** The call is where the step expects it; a step that begins a call takes a fresh id. */
  predicate AtRightPlace(s: State, step: Step)
  {
    match step
    case Tick(_) => true
    case SetMaxMultiplier(max) => max >= 1.0
    case AdvanceWrite(pid, _) => pid !in s.calls
    case CreateWaiting(pid, roll, _) => pid in s.calls && s.calls[pid].Creating? && roll <= CrashPoint.MAX_ROLL
    case PlaceBet(pid, _, _) => pid !in s.calls
    case PlaceCreating(pid, roll, _) => pid in s.calls && s.calls[pid].BetCreating? && roll <= CrashPoint.MAX_ROLL
    case PlaceInserting(pid, _) => pid in s.calls && s.calls[pid].BetInserting?
    case CashoutLocate(pid, _, _) => pid !in s.calls
    case CashoutCommit(pid, _) => pid in s.calls && s.calls[pid].CashingOut?
    case LightRead(pid) => pid !in s.calls
    case LightStart(pid, _) => pid in s.calls && s.calls[pid].LightDeciding?
    case LightRefresh(pid) => pid in s.calls && s.calls[pid].LightRefreshing?
    case LightDecide(pid, _) => pid in s.calls && s.calls[pid].LightJudging?
    case LightLose(pid) => pid in s.calls && s.calls[pid].LightBurying?
    case Die(pid) => pid in s.calls
  }

  predicate Enabled(s: State, step: Step)
  {
    AtRightPlace(s, step) && OrderedReadings(step) && s.clock <= FirstReading(s, step)
  }

  /** The rows a call in flight points at exist. */
  predicate CallPlaced(db: Db, c: Call)
  {
    match c
    case Creating => true
    case BetCreating(_) => true
    case BetInserting(_, id) => id < |db.rounds|
    case CashingOut(i) => i < |db.bets|
    case LightDeciding(id, _) => id < |db.rounds|
    case LightRefreshing(id) => id < |db.rounds|
    case LightJudging(id, _) => id < |db.rounds|
    case LightBurying(id) => id < |db.rounds|
  }

  predicate Placed(s: State)
  {
    Linked(s.db) && forall pid :: pid in s.calls ==> CallPlaced(s.db, s.calls[pid])
  }

  /** What a step does to the rows. */
  function StepDb(cfg: House, s: State, step: Step): Db
    requires Placed(s) && Enabled(s, step)
  {
    var db := s.db;
    match step
    case SetMaxMultiplier(max) => db.(maxMultiplier := max)
    case AdvanceWrite(_, t) =>
      var open := OpenRound(db.rounds);
      if open.Some? then AdvanceOpen(cfg, db, open.value, t) else db
    case CreateWaiting(_, roll, now) =>
      if OpenRound(db.rounds).Some? then db else CreateRound(cfg, db, roll, now)
    case PlaceBet(_, order, t) =>
      var open := OpenRound(db.rounds);
      if Admissible(cfg, order) && open.Some? then Result(db, PlaceOnOpen(cfg, db, order, open.value, t)) else db
    case PlaceCreating(pid, roll, now) =>
      if OpenRound(db.rounds).Some? then db
      else Result(db, InsertBet(CreateRound(cfg, db, roll, now), s.calls[pid].order, |db.rounds|))
    case PlaceInserting(pid, _) => Result(db, InsertBet(db, s.calls[pid].order, s.calls[pid].id))
    case CashoutCommit(pid, t) => Result(db, CashoutLocked(cfg, db, s.calls[pid].bet, t))
    case LightStart(pid, now) => LightTakeOff(cfg, db, s.calls[pid].id, s.calls[pid].seen, now)
    case LightDecide(pid, now) => LightCrash(cfg, db, s.calls[pid].id, s.calls[pid].seen, now)
    case LightLose(pid) => LightBury(db, s.calls[pid].id)
    case _ => db
  }

  function Result(db: Db, o: Outcome): Db { if o.Committed? then o.db else db }

  /** What a step does to the calls in flight. */
  function StepCalls(cfg: House, s: State, step: Step): map<nat, Call>
    requires Placed(s) && Enabled(s, step)
  {
    var db, calls := s.db, s.calls;
    var open := OpenRound(db.rounds);
    match step
    case Tick(_) => calls
    case SetMaxMultiplier(_) => calls
    case AdvanceWrite(pid, t) =>
      if open.Some? || CoolingDown(db.rounds, t.check) then calls else calls[pid := Creating]
    case PlaceBet(pid, order, t) =>
      if !Admissible(cfg, order) || open.Some? || CoolingDown(db.rounds, t.check) then calls
      else calls[pid := BetCreating(order)]
    case PlaceCreating(pid, _, _) =>
      if open.Some? && db.rounds[open.value].status.Waiting?
      then calls[pid := BetInserting(calls[pid].order, open.value)] else calls - {pid}
    case CashoutLocate(pid, user, slot) =>
      var found := NewestActive(db.bets, user, slot, |db.bets|);
      if found.Some? then calls[pid := CashingOut(found.value)] else calls
    case LightRead(pid) =>
      // without an open round advanceLight is advanceWrite: an AdvanceWrite step
      if open.Some? then calls[pid := LightDeciding(open.value, db.rounds[open.value])] else calls
    case LightStart(pid, now) =>
      if TakeoffDue(calls[pid].seen, now) then calls[pid := LightRefreshing(calls[pid].id)]
      else calls[pid := LightJudging(calls[pid].id, calls[pid].seen)]
    case LightRefresh(pid) => calls[pid := LightJudging(calls[pid].id, db.rounds[calls[pid].id])]
    case LightDecide(pid, now) =>
      if LightCrashes(cfg, db, calls[pid].id, calls[pid].seen, now)
      then calls[pid := LightBurying(calls[pid].id)] else calls - {pid}
    case CreateWaiting(pid, _, _) => calls - {pid}
    case PlaceInserting(pid, _) => calls - {pid}
    case CashoutCommit(pid, _) => calls - {pid}
    case LightLose(pid) => calls - {pid}
    case Die(pid) => calls - {pid}
  }

  /** A step that is not enabled leaves the state alone. */
  function Next(cfg: House, s: State, step: Step): State
    requires Placed(s)
  {
    if Enabled(s, step) then State(StepDb(cfg, s, step), StepCalls(cfg, s, step), LastReading(s, step)) else s
  }
}
