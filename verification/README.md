# Crash game, settlement and limiters: a verified model

This project models the stateful core of a betting platform in Dafny and proves what that core promises.

* **The crash game** (`CrashModel`, `CrashMachine`, `CrashInvariant`, `CrashRuns`, `CrashOutcomes`, `CrashTimes`,
  `CrashEarlyRound`, `CrashPayouts`, `CrashPlacement`, `CrashStranded`, `CrashLateBet`, `CrashCounterexamples`, `CrashPaths`,
  `CrashPoint`, `CrashEngine`). Rounds, bets, wallets and the `max_multiplier` setting are
  database rows. Each locked transaction, and each statement that runs outside one, is an atomic step; a run is any
  sequence of steps of any number of calls, with clock readings that never go back; a call in flight may also die. `CrashEngine` holds the engine's
  methods on the rows they update, each proved to leave what its transaction specifies.
* **Deposits, the ledger, affiliate commissions and their withdrawals** (`Books`, `Sums`, `DepositInvariant`,
  `CommissionInvariant`, `Agreement`, `SettlementOutcomes`, `SettlementRuns`, `SettlementDeposits`, `SettlementPayouts`,
  `SettlementTransfers`, `SettlementCounterexamples`, `SettlementService`), again as a state machine over rows, with
  confirmations, expiries and payouts that other calls can come in between, and as the methods of the services.
* **The Redis limiter** (`RedisLimiter`), **the token buckets** (`TokenBucket`), **the identifier generator**
  (`Snowflake`, `Decimal`), **the Go crash-point draw** (`ProvablyFair`) and **the jackpot** (`Jackpot`).

Money and multipliers are whole hundredths, times are integers, and growth is a monotone function g with g(0) = 1 and
g(ms) >= 1 + 0.00006 ms. Random rolls, hashes, clock readings, cancellations and gateway answers are parameters.

Runs are stated over the machine's steps. What a single call does is stated apart from the functions that compute it, in
`CrashOutcomes` and `SettlementOutcomes`: amounts by inequalities, acceptance and refusal by conditions on the rows.

`dafny verify dfyconfig.toml` checks everything. Module `Numbers` holds rounding and counting facts.

## What the proofs found

Each of these comes with a concrete input or run, and with the exact condition under which the promise does hold.

* **A bet can be placed after take-off, and can be stranded.** `placeBet` that finds no open round asks `createWaitingRound`
  for one. If another caller has just made it, the row comes back without a row lock, and the bet may be inserted after
  that round has taken off: it is then paid at a multiplier its player has already seen
  (`CrashCounterexamples.ABetGoesInLate`, `CrashCounterexamples.TheLateBetIsPaid`; exactly when:
  `CrashPlacement.BetsArePlacedInTime`, and by the deadline `CrashPlacement.BetsMeetTheDeadline`).
  If the round has crashed and its bets were marked lost, the bet stays active for good and its stake is kept
  (`CrashLateBet.ABetIsStranded`); besides a call that dies between its two updates, nothing else strands a bet
  (`CrashStranded.WhatStrandsOverRuns`).
* **A commission can be paid twice.** The payout service marks a withdrawal paid when the provider says so, also one that
  was rejected, and so released, in between: its commissions are open again and are confirmed again
  (`SettlementCounterexamples.ARejectedWithdrawalIsPaid`). And a payout call that comes back late writes APPROVED or PENDING
  over PAID, after which the withdrawal is paid again (`SettlementCounterexamples.AWithdrawalIsPaidTwice`; exactly when, for
  both: `SettlementPayouts.PayoutsMatchExactlyWhen`).
* **A deposit can be credited twice.** The expiry looks at the deposit, talks to the provider, and writes EXPIRED without a
  lock or a condition. If the deposit was paid in between, the next notification pays it again
  (`SettlementDeposits.OneDepositIsCreditedTwice`; exactly when: `SettlementDeposits.DepositsSettleOnce`, and why:
  `SettlementDeposits.ExpiryIsTheOnlyCause`).
* **A round can follow a crash at once.** The two seconds between rounds are asked before the advisory lock and not again
  behind it, so that a call which was waiting for the lock when the round crashed opens the next one without a pause
  (`CrashEarlyRound.ARoundFollowsAtOnce`; exactly when: `CrashEarlyRound.EarlyRoundsHaveAWaiter`).
* **A round can get stuck.** The multiplier is floored to hundredths and the crash point is rounded. A `max_multiplier`
  whose third decimal rounds up makes the cap unreachable (`CrashCounterexamples.ARoundGetsStuck` at 10.005), and only such a
  setting does (`CrashPaths.RoundsAreBounded`).
* **Lowering `max_multiplier`** to or below a multiplier already paid moves that round's effective crash point under the
  payment (`CrashCounterexamples.ALowerCapUndercutsAPayment`; exactly when: `CrashPayouts.PaymentsStayBelowTheCrash`).
* **The light path** differs from the write path exactly by the automatic cash-outs that are due
  (`CrashCounterexamples.TheTwoPathsDiffer`; exactly when: `CrashPaths.LightRefinesWrite`).
* **Identifiers repeat** from the 1025th call of a second on (`Snowflake.TheFirstIdComesBack`; exactly when:
  `Snowflake.DistinctWhenSpread`), since the text keeps the second read before the wait. They stop sorting and parsing after
  the thousandth (`Snowflake.SortedWhenSpread`), and workers of five digits can share identifiers with workers of four
  (`Snowflake.WideWorkersCollide`; exactly when: `Snowflake.WorkersCollideExactlyWhen`), and so can two users
  (`Snowflake.TwoUsersCollide`; exactly when: `Snowflake.UsersCollideExactlyWhen`). The code comment speaks of sequences
  0-999, the mask allows 1024; the model follows the code.
* **The limiter** is described as a sliding window; the code counts per aligned window, so that a stretch of one window can
  hold twice the limit (`RedisLimiter.TwiceTheLimitIsMet`; exactly when: `RedisLimiter.SlidesOnlyWhenAligned`). Requests of
  the same nanosecond count once (`RedisLimiter.SameInstantAdmitsAll`). A refused caller is told a reset time in the past
  (`RedisLimiter.WhatTheCallerIsTold`).

Besides, the LOST save at `CrashEngine.php:291` and the crash at `:299` are undone by the exception that follows them
(`CrashEngine.CrashEngine.Cashout`).

## Model

| member | source | states |
|---|---|---|
| CrashRuns.MoneyIsConserved | platform/app/Services/CrashEngine.php:187-307 | After any run, in any interleaving, a user's balance plus bonus is the initial total, less the stakes of all their bets, plus the payouts of their cashed-out bets; neither part is ever negative. |
| CrashRuns.OneOpenRound | platform/app/Services/CrashEngine.php:318-434 | After any run at most one round is waiting or running, the round numbers are 1, 2, 3, ... without a gap although creators compete, and no two bets share round, user and slot. |
| CrashRuns.SettledIsFinal | platform/app/Services/CrashEngine.php:246-307 | Between any two points of a run a cashed-out or lost bet does not change, and no bet becomes cashed out once its round has crashed. |
| CrashRuns.StepKeeps | platform/app/Services/CrashEngine.php:318-434 | Every step of every call, and every clock tick or change of the setting, keeps the invariant and lets rows only grow. |
| CrashTimes.CashOutsAreWorthTheirMultiple | platform/app/Services/CrashEngine.php:560-580 | After any run, in any interleaving, every cashed-out bet was paid its stake times its multiplier, to the nearest hundredth, a half going up. |
| CrashTimes.NobodyIsPaidAhead | platform/app/Services/CrashEngine.php:436-451 | Over every run no payment, automatic or asked for, is above max_multiplier or above what its round had grown to at the clock reading of the step that made it; no other step pays anyone. |
| CrashTimes.StepPaysAsReached | platform/app/Services/CrashEngine.php:539-580 | The same for one step. |
| CrashTimes.RoundsKeepTime | platform/app/Services/CrashEngine.php:410-429 | After any run: no round took off before its betting end; none crashed before its growth had come to the crash point it is stored with; only bets of rounds that took off are paid and only bets of crashed rounds are lost. |
| CrashEarlyRound.EarlyRoundsHaveAWaiter | platform/app/Services/CrashEngine.php:386-405 | Along a run a round is opened less than two seconds after the crash before it, if and only if a call that had been waiting for the advisory lock since before that crash opens it: the two seconds are not asked again behind the lock. |
| CrashEarlyRound.ARoundFollowsAtOnce | platform/app/Services/CrashEngine.php:479-505 | A concrete run of five steps from any empty house: a round crashes at 1.00 and the next is opened at the same instant. |
| CrashOutcomes.CashoutStepExactlyWhen | platform/app/Services/CrashEngine.php:246-307 | From every reachable state the second step of a cash-out pays the bet exactly if it is active, its round is running or its betting is over, and the multiplier is below the crash point; it then gets stake times multiplier, the stake going back to where it came from and the profit to the balance; otherwise nothing changes. (Multiplier, crash point and payout are given by inequalities.) |
| CrashOutcomes.CashoutExactlyWhen | platform/app/Services/CrashEngine.php:260-305 | The same for the transaction behind its locks, on any rows a run can lead to. |
| CrashOutcomes.CashoutLocatesTheNewest | platform/app/Services/CrashEngine.php:248-258 | The first step of a cash-out goes on with the user's newest active bet in the slot, or with none. |
| CrashOutcomes.AdvanceBet | platform/app/Services/CrashEngine.php:539-580 | After a locked advance an active bet of the round is cashed out exactly if the round is in the air, its target is set, at least 1.01 and at most the multiplier at that reading, and that multiplier is below the crash point; it is paid at its target. If the round crashes its other active bets are lost; every other bet stays as it was. |
| CrashOutcomes.AdvanceRound | platform/app/Services/CrashEngine.php:410-429 | The round itself takes off exactly when its betting is over, and crashes exactly when its multiplier has reached the lower of crash point and cap, which is then stored. |
| CrashOutcomes.PlaceBetExactlyWhen | platform/app/Services/CrashEngine.php:187-243 | From every reachable state a placeBet that locks an open round places its bet exactly if slot and amount are in order, that round waits with its betting open, the user exists and can pay, has no bet with this round and slot, and any automatic target lies from 1.01 to max_multiplier; the bet row and both parts of the wallet are spelled out. Otherwise nothing changes, the advance included. |
| CrashOutcomes.PlaceCreatingExactlyWhen | platform/app/Services/CrashEngine.php:479-505 | One that found no open round opens the next one and places its bet exactly if the rows accept it, and otherwise leaves no round behind. |
| CrashOutcomes.PlaceCreatingTakesTheOpenRound | platform/app/Services/CrashEngine.php:484-491 | One that finds a round opened meanwhile goes on to insert its bet into that round exactly if it waits, without a lock on it. |
| CrashOutcomes.PlaceInsertingExactlyWhen | platform/app/Services/CrashEngine.php:204-242 | One that was given an unlocked round asks the rows alone. |
| CrashOutcomes.InsertExactlyWhen | platform/app/Services/WalletService.php:22-45 | The stake is taken from the balance as far as that goes and from the bonus for the rest; exactly which bets the rows accept. |
| CrashOutcomes.NextRound | platform/app/Services/CrashEngine.php:494-505 | A new round has the next number, waits, keeps its betting open for eight seconds, and has a crash point from 1.00 to the rounded cap. |
| CrashOutcomes.LightStartExactlyWhen | platform/app/Services/CrashEngine.php:339-352 | The light path's first update, whatever happened since its read: the row takes off exactly if the row seen was waiting with its betting over and it still waits. |
| CrashOutcomes.LightDecideExactlyWhen | platform/app/Services/CrashEngine.php:354-365 | Its second: the row crashes exactly if it is running and the row seen was running with its multiplier at the crash point. |
| CrashOutcomes.LightLosesItsBets | platform/app/Services/CrashEngine.php:367-372 | Its third: the active bets of that round are lost and no others. |
| CrashPayouts.PaymentsStayBelowTheCrash | platform/app/Services/CrashEngine.php:246-307 | Throughout a run every paid multiplier is below its round's effective crash point, if and only if no change of max_multiplier along it goes down to a multiplier already paid. |
| CrashPayouts.FixedCapPayments | platform/app/Services/CrashEngine.php:539-580 | With max_multiplier left alone, every paid multiplier lies in [1.00, effective crash point). |
| CrashPayouts.CapChange | platform/app/Services/CrashEngine.php:453-459 | A new max_multiplier keeps all earlier payments below the effective crash points exactly when, rounded, it is above all of them. |
| CrashPayouts.RaisingTheCapIsSafe | platform/app/Services/CrashEngine.php:453-459 | A setting that is not lowered meets that condition. |
| CrashStranded.WhatStrandsOverRuns | platform/app/Services/CrashEngine.php:187-243 | A run ends with an active bet in a crashed round that nobody is about to mark lost, if and only if along it some placeBet inserted its bet into a round, got unlocked from createWaitingRound, that had crashed meanwhile, or some advanceLight call died between crashing a round and marking its bets lost. |
| CrashStranded.WhatStrands | platform/app/Services/CrashEngine.php:479-518 | The same for one step: it strands a bet exactly when it is such an insert or such a death. |
| CrashPlacement.BetsArePlacedInTime | platform/app/Services/CrashEngine.php:187-243 | Along every run, in any interleaving, each bet is placed into a waiting round, if and only if no placeBet inserts its bet into a round it was given unlocked and that has taken off or crashed meanwhile. |
| CrashPlacement.WhatPlacesLate | platform/app/Services/CrashEngine.php:479-491 | The same for one step: it adds a bet to a round that is not waiting exactly when it is such an insert and goes through. |
| CrashPlacement.BetsMeetTheDeadline | platform/app/Services/CrashEngine.php:197-243 | Along every run each bet is placed before its round's betting ends, by the clock of its call, if and only if no placeBet inserts its bet later than that into a round it was given unlocked, whether or not anyone has polled the round. |
| CrashPlacement.WhatMissesTheDeadline | platform/app/Services/CrashEngine.php:484-504 | The same for one step. |
| CrashCounterexamples.ABetGoesInLate | platform/app/Services/CrashEngine.php:484-491 | A concrete run from an empty house to a state in which the round is running and the insert still goes through. |
| CrashCounterexamples.TheLateBetIsPaid | platform/app/Services/CrashEngine.php:296-305 | Three steps later that bet is cashed out at the multiplier its player had already seen. |
| CrashCounterexamples.ALowerCapUndercutsAPayment | platform/app/Services/CrashEngine.php:456-459 | One step later, max_multiplier goes down to 2.00 and the payment is no longer below the round's effective crash point. |
| CrashCounterexamples.TheTwoPathsDiffer | platform/app/Services/CrashEngine.php:416-429 | A reachable state in which an automatic cash-out is due and the light and the write path leave different rows. |
| CrashCounterexamples.ARoundGetsStuck | platform/app/Services/CrashEngine.php:436-459 | With max_multiplier 10.005 the first round, drawn by the top roll, is never crashed by any run that leaves the setting alone. |
| CrashCounterexamples.TheRunExists | platform/app/Services/CrashEngine.php:446-450 | The run's parameters exist: a growth, two instants and a multiplier that fit. |
| CrashStranded.StrandedForever | platform/app/Services/CrashEngine.php:520-537 | A stranded bet stays active over every further run: no call settles it. |
| CrashLateBet.ABetIsStranded | platform/app/Services/CrashEngine.php:484-491 | A concrete run of ten steps from an empty house that strands a bet and keeps its stake. |
| CrashPaths.LightRefinesWrite | platform/app/Services/CrashEngine.php:318-434 | From any reachable state with an open round, advanceLight run to completion at an instant and advanceWrite at that instant leave the same state, if and only if no bet is due for an automatic cash-out. |
| CrashPaths.LightCallRows | platform/app/Services/CrashEngine.php:339-379 | Taking the steps of one advanceLight call in turn leaves exactly the rows its specification names, and no call in flight. |
| CrashPaths.LightAgreesWithoutAutoCashouts | platform/app/Services/CrashEngine.php:339-379 | The two paths agree whenever no active bet has an automatic cash-out. |
| CrashInvariant.DueIsPaid | platform/app/Services/CrashEngine.php:539-558 | The auto cash-out loop settles exactly the active bets of the round whose target is set, at least 1.01, at most the multiplier, with the multiplier below the crash point, each at its own target, and leaves all others as they were. |
| CrashPaths.RoundsAreBounded | platform/app/Services/CrashEngine.php:436-459 | Every crash point is reached (max - 1) / 0.00006 ms after take-off at the latest, if and only if max_multiplier rounds down to hundredths. |
| CrashPaths.LateAdvanceCrashes | platform/app/Services/CrashEngine.php:416-429 | Under that condition a locked advance that late leaves the round crashed, whatever its crash point. |
| CrashPaths.LateLightCrashes | platform/app/Services/CrashEngine.php:354-379 | So does the light path's conditional update, however stale the row it decides on. |
| CrashPaths.StuckForever | platform/app/Services/CrashEngine.php:453-459 | When max_multiplier rounds up, a round drawn at the cap is never crashed by any run that leaves the setting alone, and no other round begins. |
| CrashPaths.TopRollSticks | platform/app/Services/CrashEngine.php:461-477 | The draw does produce such a round: the top roll gives the rounded-up cap. |
| CrashInvariant.CreateKeeps | platform/app/Services/CrashEngine.php:479-518 | A created round's number is one above the previous maximum, and the row keeps the invariant. |
| CrashInvariant.SettleKeeps | platform/app/Services/CrashEngine.php:560-580 | Settling a bet conserves every user's total, changes only that bet and its wallet, and keeps the invariant. |
| CrashInvariant.CreditCashoutPays | platform/app/Services/WalletService.php:67-84 | Crediting a cash-out raises the available total by exactly the payout, however the stake was split between balance and bonus. |
| CrashInvariant.InsertKeeps | platform/app/Services/CrashEngine.php:204-243 | Inserting a bet keeps totals, slots and the links between rows. |
| CrashInvariant.CrashKeeps | platform/app/Services/CrashEngine.php:520-537 | Crashing a round loses exactly its active bets and keeps the invariant. |
| CrashInvariant.EffectiveIsIdempotent | platform/app/Services/CrashEngine.php:453-459 | Writing the effective crash point into the row does not change the effective crash point. |
| CrashModel.OpenRound | platform/app/Services/CrashEngine.php:389-393 | The open round is the waiting or running one of the highest id, or none if all have crashed. |
| CrashPoint.WinnersCount | platform/app/Services/CrashEngine.php:461-477 | Exact survival count: of the 2^32 rolls, floor(MAX_ROLL (1 - e)^2 / threshold) + 1 give a crash point above a target, or none when the cap or the clamp excludes the target. |
| CrashPoint.HouseEdgeHolds | platform/app/Services/CrashEngine.php:461-477 | For any fixed target of at least 1.00, winning rolls times target are at most (1 - e)^2 (2^32 - 1) plus one target, whatever the cap. |
| CrashPoint.BeatsTargetByRank | platform/app/Services/CrashEngine.php:461-477 | A roll beats a target exactly when it is among the topmost rolls and the target is reachable. |
| CrashPoint.GenerateInRange | platform/app/Services/CrashEngine.php:461-477 | The crash point lies in [1.00, round(max)] for every roll. |
| CrashPoint.GenerateIsMonotone | platform/app/Services/CrashEngine.php:461-477 | A higher roll never gives a lower crash point. |
| CrashPoint.TopRollDrawsTheCap | platform/app/Services/CrashEngine.php:472-476 | The cap is attained whenever the 0.999999 clamp allows it. |
| CrashEngine.BetsOnlyBeforeTakeOff | platform/app/Services/CrashEngine.php:197-242 | Of a placeBet with no other call between its steps: an accepted bet appends one row, takes its stake from the available total, and goes into the waiting round before its betting ends or into a round the call has created itself. (With other calls in between, see CrashPlacement.) |
| CrashEngine.AdvanceIsItsSteps | platform/app/Services/CrashEngine.php:386-405 | The advanceWrite of the class is, from every reachable state, the locked step of the interleaving machine followed by its creating step. |
| CrashEngine.PlaceIsItsSteps | platform/app/Services/CrashEngine.php:197-243 | So is placeBet: its locked step followed by its creating and inserting step. |
| CrashEngine.CrashEngine.PlaceBet | platform/app/Services/CrashEngine.php:187-244 | One call with no other between its steps leaves exactly what the transaction specifies, and every row as it was when it refuses, the nested advance included (which bets it accepts: CrashOutcomes.PlaceBetExactlyWhen). |
| CrashEngine.CrashEngine.InsertBet | platform/app/Services/CrashEngine.php:204-242 | The part of placeBet behind the user lock, on any rows and with any round, open or not: accepts exactly the bets that the rows accept, with the bet row and both parts of the wallet spelled out, or leaves everything alone. |
| CrashEngine.CrashEngine.Cashout | platform/app/Services/CrashEngine.php:246-307 | Pays the newest active bet of the user and slot what its round had reached in the air, below the crash point; every refusal leaves all rows alone, also the LOST save at line 291 and the crash at line 299. |
| CrashEngine.CrashEngine.AdvanceWrite | platform/app/Services/CrashEngine.php:386-434 | Leaves the rows of the specified transaction: take-off, automatic cash-outs, crash, or the next round (what these are: CrashOutcomes.AdvanceRound, CrashOutcomes.AdvanceBet, CrashOutcomes.NextRound). |
| CrashEngine.CrashEngine.AdvanceLight | platform/app/Services/CrashEngine.php:318-384 | Its updates in turn, each with its own clock reading, leave the rows of the light path, or of the write path when no round is open. |
| CrashEngine.CrashEngine.TakeOffUpdate | platform/app/Services/CrashEngine.php:340-352 | The first conditional update, on whatever row others have left, decided on the row read before. |
| CrashEngine.CrashEngine.CrashUpdate | platform/app/Services/CrashEngine.php:354-365 | The second one, and whether it hit the row. |
| CrashEngine.CrashEngine.ProcessAutoCashouts | platform/app/Services/CrashEngine.php:539-558 | The loop leaves what paying the due bets in id order leaves (which those are: CrashInvariant.DueIsPaid). |
| CrashEngine.CrashEngine.SettleCashout | platform/app/Services/CrashEngine.php:560-580 | The bet is worth stake times multiplier to the nearest hundredth; its stake goes back where it came from, the profit to the balance, and nothing else changes. |
| CrashEngine.CrashEngine.CrashRound | platform/app/Services/CrashEngine.php:520-537 | Caps the stored crash point, crashes the round and loses its active bets. |
| CrashEngine.CrashEngine.LoseActiveBets | platform/app/Services/CrashEngine.php:531-534 | Marks lost the active bets of the round and no others. |
| CrashEngine.CrashEngine.CreateWaitingRound | platform/app/Services/CrashEngine.php:479-505 | Returns the open round another call has made meanwhile, or appends one waiting round with the next number, the drawn crash point and the end of betting. |
| Agreement.PreviewAgreesWithConfirm | platform/app/Services/AffiliateCommissionService.php:191-282 | Confirming all affiliates right after previewing pays the same affiliates, in order, the same amounts as the preview's confirmable rows, and adds exactly one withdrawal row for each; confirming without a preview pays the same. |
| Agreement.PreviewIsIdempotent | platform/app/Services/AffiliateCommissionService.php:113-179 | Previewing again shows the same line, although the first preview created rows. |
| Agreement.RowSurvives | platform/app/Services/AffiliateCommissionService.php:191-239 | What happens only for one affiliate leaves another affiliate's preview line as it was. |
| Agreement.ConfirmPaysItsRow | platform/app/Services/AffiliateCommissionService.php:287-348 | An undisturbed confirmation succeeds exactly when its preview line can be confirmed, and pays its total. |
| Agreement.EligibleDepositsExact | platform/app/Services/AffiliateCommissionService.php:131-136 | The loop meets each paid deposit of the affiliate's players in the period exactly once, and no other. |
| Agreement.EligibleSorted | platform/app/Services/AffiliateCommissionService.php:131-136 | It meets them in the order of payment. |
| SettlementOutcomes.VisitedIffPaid | platform/app/Services/AffiliateCommissionService.php:118-136 | Previews and confirmations visit a deposit exactly if it is paid, by a player of the affiliate, within the period, both ends included. |
| SettlementOutcomes.PreviewCompletes | platform/app/Services/AffiliateCommissionService.php:141-168 | A preview only adds rows: one for each deposit paid in the period that has none and is worth at least half a hundredth, open, with the deposit's net (or gross less a plausible fee, or gross) as its base and the percentage of that, to the nearest hundredth, as its amount. |
| SettlementOutcomes.PreviewAddsUp | platform/app/Services/AffiliateCommissionService.php:173-231 | A preview's line is the number and the sum of all open commissions of the affiliate for deposits paid in the period, once the missing ones are there; it can be confirmed exactly with a PIX key and a positive sum. |
| SettlementOutcomes.ConfirmPaysTheDue | platform/app/Services/AffiliateCommissionService.php:287-348 | An undisturbed confirmation goes through exactly if the affiliate is active, has a PIX key and something is due; then exactly the rows that are due, those it creates included, are reserved under one withdrawal of their sum. |
| SettlementOutcomes.SettlementEarns | platform/app/Services/AffiliateCommissionService.php:23-72 | What settling a deposit earns: the player's own affiliate, if active, else the active one behind the deposit's code, who then becomes the player's if there was none, gets one open commission on the net just written, unless there is one already or it rounds to nothing; without an earner nothing happens. |
| SettlementOutcomes.SettlesAs | platform/app/Services/DepositSettlementService.php:22-97 | Settling a pending or expired deposit, in every state a run can lead to: a net reported by the gateway is the net, at most the gross, and the rest is the fee; without one the fee is the percentage to the nearest hundredth plus the fixed part, at most the gross, and the rest is the net; the gross is credited and booked, so is a positive fee, and the signup branch runs for a referred player without another paid deposit. Any other deposit is left alone. |
| SettlementRuns.CommissionsArePaidOnce | platform/app/Services/AffiliateCommissionService.php:287-378 | After any run of previews, interleaved confirmations, releases and payments: a commission is linked iff reserved or paid, to one withdrawal of its own affiliate; each affiliate withdrawal that still has links is worth its linked commissions; the withdrawals whose commissions are marked paid are worth those commissions. |
| SettlementPayouts.UnreleasedAreBacked | platform/app/Services/AffiliateCommissionService.php:350-363 | After any run an affiliate's withdrawal has lost its commissions if and only if a rejection of the run reached it, pending, before its commissions were marked paid; otherwise it is worth exactly its linked commissions. |
| SettlementPayouts.PayoutsMatchExactlyWhen | platform/app/Services/WithdrawalPayoutService.php:23-107 | After any run of payout calls, provider answers, webhooks and rejections: what the ledger has paid to affiliates is at least what the paid commissions are worth, and equal to it if and only if no payment met a withdrawal of theirs that had been released or already paid. |
| SettlementPayouts.WithdrawalsPaidOnce | platform/app/Services/WithdrawalPayoutService.php:242-269 | After any run no withdrawal, of an affiliate or a player, was paid twice, if and only if no payment met one that had been paid. |
| SettlementPayouts.LateCallsAreTheOnlyCause | platform/app/Services/WithdrawalPayoutService.php:55-99 | Every withdrawal was paid once if its status says paid, and never otherwise, if and only if no payout call came back to a paid withdrawal and wrote its own status over it. |
| SettlementTransfers.NoOutflowWithoutATransfer | platform/app/Services/WithdrawalPayoutService.php:23-107 | After any run there is an outflow in the ledger only for withdrawals that the provider has made a transfer for. |
| SettlementTransfers.BooksExactlyWhen | platform/app/Services/WithdrawalPayoutService.php:242-268 | An outflow of a withdrawal's amount is booked exactly by an answer that its transfer is done, and by a notice of that while its status is not paid. |
| SettlementTransfers.StatusMoves | platform/app/Services/WithdrawalPayoutService.php:23-240 | Every change of a withdrawal's status: from which status, by which call, and for which transfer. |
| SettlementTransfers.PaysWithoutATransferOnly | platform/app/Services/WithdrawalPayoutService.php:29-51 | A payout goes on to the provider exactly for withdrawals that are pending or approved and have no transfer. |
| SettlementTransfers.RejectsPendingOnly | platform/app/Services/WithdrawalPayoutService.php:109-137 | A rejection goes through exactly for pending withdrawals; any other changes nothing. |
| SettlementTransfers.AcceptsOnce | platform/app/Services/WithdrawalPayoutService.php:55-61 | A call makes one transfer, for the withdrawal it has approved. |
| SettlementTransfers.ValidationRemembersTheTransfer | platform/app/Services/WithdrawalPayoutService.php:148-187 | The provider's question before a payout writes its transfer to a withdrawal that has none, and nothing else. |
| SettlementRuns.ExpiryBeginsExactlyWhen | platform/app/Services/PendingDepositCleanupService.php:42-50 | An expiry goes on to the provider exactly for deposits it finds pending. |
| SettlementRuns.ConfirmationBeginsExactlyWhen | platform/app/Services/AffiliateCommissionService.php:287-303 | A confirmation lists its draft exactly for active affiliates with a PIX key. |
| SettlementCounterexamples.ARejectedWithdrawalIsPaid | platform/app/Services/WithdrawalPayoutService.php:109-146 | A concrete run from an empty house: a payout call fails, its withdrawal is rejected and then reported paid, its commission is confirmed again, and 10.00 of commission have cost 20.00. |
| SettlementCounterexamples.AWithdrawalIsPaidTwice | platform/app/Services/WithdrawalPayoutService.php:63-99 | Another, without a rejection: a payout call fails, the withdrawal is paid again, the first transfer is reported, the second call comes back and pays once more. |
| SettlementPayouts.StepKeepsPayments | platform/app/Services/WithdrawalPayoutService.php:242-256 | One step: an affiliate withdrawal with a payment has its commissions marked or was released, and nothing but a payment marks commissions. |
| SettlementPayouts.StepExcess | platform/app/Services/WithdrawalPayoutService.php:242-268 | One step: what affiliates got beyond their commissions grows by a payment's amount exactly if it met a withdrawal released or already paid. |
| SettlementRuns.FirstComeDecidesForGood | platform/app/Services/AffiliateCommissionService.php:350-378 | Whichever of release and payment comes first makes the other a no-op for the rest of every run. |
| SettlementRuns.OverlappingConfirmations | platform/app/Services/AffiliateCommissionService.php:309-317 | Of two confirmations in flight that list the same commission, one that commits directly after the other is refused. |
| SettlementPayouts.OverlapOverRuns | platform/app/Services/AffiliateCommissionService.php:301-347 | Whatever happens between the two commits, the second is refused if and only if a row it lists is no longer open or one it would create exists by then; the shared commission alone sees to that as long as the first one's withdrawal is not released. |
| SettlementPayouts.CommitIsRefused | platform/app/Services/AffiliateCommissionService.php:303-317 | A commit of any draft in flight is refused exactly when the draft is empty or outdated. |
| SettlementCounterexamples.AStaleDraftGoesThrough | platform/app/Services/AffiliateCommissionService.php:350-363 | After a release, a draft listed before the first commit goes through: a concrete run. |
| SettlementDeposits.DepositsSettleOnce | platform/app/Services/DepositSettlementService.php:22-97 | After any run of notifications, expiries and payouts: no deposit was credited twice, if and only if no notification met a deposit that had been paid and then overwritten; and exactly then the books are exact: one entry for the gross of each deposit that was paid, one for a positive fee, no others, and a ledger balance that is their nets less everything paid out on withdrawals. |
| SettlementDeposits.ExpiryIsTheOnlyCause | platform/app/Services/PendingDepositCleanupService.php:42-79 | After any run every deposit has its one entry iff its row says paid, if and only if no expiry wrote over a paid row; then no deposit was credited twice and no user had the signup branch twice. |
| SettlementDeposits.BonusesOnce | platform/app/Services/DepositSettlementService.php:49-63 | The signup branch ran at most once for every user, if and only if no settlement found its user with the bonus and without another row that says paid. |
| SettlementDeposits.CreditsAreBooked | platform/app/Services/DepositSettlementService.php:55-89 | After any run, overwritten rows or not: each balance grew by exactly the credits in the ledger, and every entry belongs to a deposit or withdrawal there is, with its amount. |
| SettlementDeposits.OneDepositIsCreditedTwice | platform/app/Services/PendingDepositCleanupService.php:44-76 | A concrete run of five steps from an empty house: 100.00 are credited as 200.00, booked twice, and the signup bonus is given twice. |
| DepositInvariant.SettleKeepsOnce | platform/app/Services/DepositSettlementService.php:44-89 | Settling a deposit that was never paid keeps the books exact. |
| DepositInvariant.WriteExpiredKeeps | platform/app/Services/PendingDepositCleanupService.php:73-76 | The expiry's write, on whatever row it meets, leaves ledger and balances in line. |
| SettlementRuns.RunKeeps | platform/app/Services/AffiliateCommissionService.php:287-378 | The joint invariant of deposits, ledger, commissions, withdrawals and calls in flight holds after every run; deposits keep their owner, their amount and the fact that they were paid, and paid commissions are frozen. |
| CommissionInvariant.ConfirmKeeps | platform/app/Services/AffiliateCommissionService.php:301-347 | A confirmation of any earlier draft, outdated or not, keeps every withdrawal backed by exactly its commissions. |
| CommissionInvariant.ReleaseKeeps | platform/app/Services/AffiliateCommissionService.php:350-363 | A release keeps the invariant: the withdrawal's commissions come back together or not at all. |
| CommissionInvariant.MarkPaidKeeps | platform/app/Services/AffiliateCommissionService.php:365-378 | A payment keeps the invariant: the withdrawal's commissions become paid together or not at all. |
| CommissionInvariant.FirstComeDecides | platform/app/Services/AffiliateCommissionService.php:350-378 | A payment right after a release marks nothing, and a release right after a payment reopens nothing. |
| CommissionInvariant.PayoutsMatchCommissions | platform/app/Services/AffiliateCommissionService.php:365-378 | The withdrawals whose commissions are marked paid are worth exactly the commissions marked paid. |
| CommissionInvariant.NewWithdrawalIsBacked | platform/app/Services/AffiliateCommissionService.php:329-344 | A confirmed draft's withdrawal has links and is worth exactly the rows linked to it. |
| DepositInvariant.SettleKeepsDeposits | platform/app/Services/DepositSettlementService.php:22-97 | Every settlement, also that of an overwritten deposit, keeps ledger and balances in line. |
| DepositInvariant.SettleTwice | platform/app/Services/DepositSettlementService.php:30-37 | A repeated notification changes nothing, whatever it reports. |
| DepositInvariant.FeeBounds | platform/app/Services/GatewayFeeService.php:50-73 | Fee and net are never negative and add up to the gross, whatever the gateway reports (what they are: SettlementOutcomes.SettlesAs). |
| SettlementService.SettlementService.SettlePaid | platform/app/Services/DepositSettlementService.php:22-97 | Leaves the specified transaction and returns true exactly for the call that credits; that call's credit, fee, net and ledger entries are spelled out. |
| SettlementService.SettlementService.CreditAndRecord | platform/app/Services/DepositSettlementService.php:44-89 | The credit, the signup branch, the deposit row and the ledger entries, as specified (what fee and net are: SettlementOutcomes.SettlesAs). |
| SettlementService.SettlementService.CreateFromDeposit | platform/app/Services/AffiliateCommissionService.php:23-72 | Links the player by the deposit's code if unlinked, and creates at most one commission: open, for the affiliate that earns it, with its base and share spelled out. |
| SettlementService.SettlementService.VisitDeposit | platform/app/Services/AffiliateCommissionService.php:141-168 | One deposit of the preview's loop: lists its open row of this affiliate, or creates one with its base and share spelled out, or neither. |
| SettlementService.SettlementService.PreviewPeriod | platform/app/Services/AffiliateCommissionService.php:113-179 | The loop creates the missing rows and lists exactly the open rows of the affiliate in the period, with their total (which rows those are: SettlementOutcomes.PreviewCompletes, SettlementOutcomes.PreviewAddsUp). |
| SettlementService.SettlementService.PreviewAll | platform/app/Services/AffiliateCommissionService.php:191-239 | One row per active affiliate, with the flag that it can be confirmed. |
| SettlementService.SettlementService.ConfirmPeriod | platform/app/Services/AffiliateCommissionService.php:287-348 | With no other call in between: reserves the listed rows under one new withdrawal of their total, or leaves every row alone. |
| SettlementService.SettlementService.ReserveListed | platform/app/Services/AffiliateCommissionService.php:307-346 | The part behind the row locks, on whatever others have made of the listed rows: refused, with nothing written, exactly when one is no longer open; otherwise all are reserved under one new withdrawal of their total. |
| SettlementService.SettlementService.ConfirmAll | platform/app/Services/AffiliateCommissionService.php:246-282 | The payments created, in affiliate order, as specified. |
| SettlementService.SettlementService.ReleaseCommissions | platform/app/Services/AffiliateCommissionService.php:350-363 | Reopens and unlinks the reserved commissions of the withdrawal and no others. |
| SettlementService.SettlementService.MarkCommissionsPaid | platform/app/Services/AffiliateCommissionService.php:365-378 | Marks paid the reserved commissions of the withdrawal and no others. |
| RedisLimiter.AgreesWithHistory | internal/infrastructure/ratelimit/redis_limiter.go:84-108 | After any requests in time order, a request is admitted exactly when fewer than `limit` different times were admitted in its aligned window, counted over the whole history: trimming and EXPIRE never change a decision. |
| RedisLimiter.CountsRequests | internal/infrastructure/ratelimit/redis_limiter.go:84-108 | With strictly increasing times that is the number of requests admitted in the window. |
| RedisLimiter.EachWindowIsLimited | internal/infrastructure/ratelimit/redis_limiter.go:80-108 | No aligned window holds more than `limit` different admitted times. |
| RedisLimiter.AnyStretchIsLimited | internal/infrastructure/ratelimit/redis_limiter.go:80-108 | No stretch of one window's length holds more than twice the limit, wherever it starts. |
| RedisLimiter.SlidesOnlyWhenAligned | internal/infrastructure/ratelimit/redis_limiter.go:77-108 | The sliding-window promise, exactly: the stretch of one window's length from an instant on never holds more than `limit` different admitted times, whatever the requests, if and only if that instant starts an aligned window, or the limit admits nothing, or it is at least the window's length. |
| RedisLimiter.AStretchOverflows | internal/infrastructure/ratelimit/redis_limiter.go:80-108 | For every other instant, limit and window: requests of which limit + 1 are admitted within the stretch. |
| RedisLimiter.TwiceTheLimitIsMet | internal/infrastructure/ratelimit/redis_limiter.go:80-108 | Requests around a window's boundary of which twice the limit are admitted within one window's length. |
| RedisLimiter.SameInstantAdmitsAll | internal/infrastructure/ratelimit/redis_limiter.go:103-107 | Requests of one instant share a member of the set: from a limit of two on, all of them are admitted. |
| RedisLimiter.WhatTheCallerIsTold | internal/infrastructure/ratelimit/redis_limiter.go:97-137 | The reported remaining count, reset time and wait: an admission reports the count before itself; a refusal reports the full limit and the oldest admitted time, so its wait is positive only if the limit admits nothing. |
| RedisLimiter.SeesTheWindow | internal/infrastructure/ratelimit/redis_limiter.go:91-95 | At any later check the stored set, expired and trimmed, is the history's part in the current window. |
| RedisLimiter.WindowsAreAligned | internal/infrastructure/ratelimit/redis_limiter.go:80 | Windows begin at whole multiples of their length after the start of year 1, and every instant lies in its window. |
| RedisLimiter.LivesThroughItsWindow | internal/infrastructure/ratelimit/redis_limiter.go:105 | A key is kept for the window's length rounded up to whole seconds. |
| RedisLimiter.RedisLimiter.CheckLimit | internal/infrastructure/ratelimit/redis_limiter.go:78-140 | One script run on one key: the specified answer and entry, all other keys unchanged. |
| RedisLimiter.RedisLimiter.Trim | internal/infrastructure/ratelimit/redis_limiter.go:91-95 | Drops an expired key, the entries before the window, and a key left without entries. |
| Snowflake.DistinctWhenSpread | internal/infrastructure/id/snowflake.go:48-91 | Over every run of a new generator whose clock does not go back, the identifiers are pairwise distinct if and only if no 1025 calls in a row read the same second. |
| Snowflake.DistinctUnlessASecondRunsOut | internal/infrastructure/id/snowflake.go:48-91 | Under any clock, the same in terms of the run: distinct if and only if the sequence never ran out within a second. |
| Snowflake.TheFirstIdComesBack | internal/infrastructure/id/snowflake.go:62-73 | 1025 calls within one second: identifiers 0 and 1024 have the same text. |
| Snowflake.WrapsWhenCrowded | internal/infrastructure/id/snowflake.go:61-71 | The sequence runs out exactly when 1025 calls in a row read the same second. |
| Snowflake.SortedWhenSpread | internal/infrastructure/id/snowflake.go:75-82 | Under such a clock they sort as text in the order of issue if and only if no 1001 calls in a row read the same second. |
| Snowflake.SortedUnlessAThousand | internal/infrastructure/id/snowflake.go:75-82 | Under any clock: they sort as text in the order of issue if and only if no sequence number passed 999. |
| Snowflake.RunMovesForward | internal/infrastructure/id/snowflake.go:48-73 | Over any stretch of any run (lastTime, sequence) moves strictly forward with every identifier, wraps included; a refused call changes nothing. |
| Snowflake.ParsesWhenItFits | internal/infrastructure/id/snowflake.go:93-104 | An identifier parses if and only if its worker is below 10000 and its sequence below 1000, and then into its own three parts. |
| Snowflake.WorkersCollideExactlyWhen | internal/infrastructure/id/snowflake.go:75-82 | Two different workers can issue the same identifier if and only if one is a four-digit number and the other is ten times it plus one. |
| Snowflake.SharedIds | internal/infrastructure/id/snowflake.go:75-82 | Which identifiers they share: those of one second in which the four-digit worker's sequence is 1000 above the other's. |
| Snowflake.WorkersDoNotCollide | internal/infrastructure/id/snowflake.go:75-82 | In particular, generators of different workers below 10000 never issue the same identifier. |
| Snowflake.SameWorkerSameIds | internal/infrastructure/id/snowflake.go:75-82 | Generators of the same worker share exactly the identifiers of the same second and sequence. |
| Snowflake.UsersCollideExactlyWhen | internal/infrastructure/id/snowflake.go:116-125 | The first identifiers that two users' generators issue in a second are the same text if and only if the users' polynomials agree modulo 10000. |
| Snowflake.TwoUsersCollide | internal/infrastructure/id/snowflake.go:116-125 | The users Aa and BB do. |
| Snowflake.WideWorkersCollide | internal/infrastructure/id/snowflake.go:34-46 | With five-digit workers they can: a concrete pair. |
| Snowflake.StampsInOrder | internal/infrastructure/id/snowflake.go:75-76 | Later seconds have later fourteen-digit timestamps as text, over the calendar up to year 9999. |
| Snowflake.DateIsTheCalendars | internal/infrastructure/id/snowflake.go:75-76 | The date shown for a day is the one whose place in the Gregorian calendar, by the closed formula, is that day. |
| Snowflake.StampNamesItsSecond | internal/infrastructure/id/snowflake.go:75-76 | The fourteen digits of a timestamp, read as year, month, day, hour, minute and second, give back the local second they were made of. |
| Snowflake.SnowflakeGenerator.GenerateID | internal/infrastructure/id/snowflake.go:48-82 | Returns the specified identifier of the second read on entry and leaves the specified state; a clock that moved back changes nothing. |
| Snowflake.WaitNextSecond | internal/infrastructure/id/snowflake.go:84-91 | Ends at the first reading past the last second. |
| Snowflake.NewSnowflakeGenerator | internal/infrastructure/id/snowflake.go:33-45 | Fails exactly for workers outside 0..65535. |
| Snowflake.UserSpecificGenerator | internal/infrastructure/id/snowflake.go:116-125 | Never fails: the worker is the user id's base-31 polynomial modulo 10000, as if reduced once. |
| Decimal.PadReadsBack | internal/infrastructure/id/snowflake.go:78-80 | A padded number is all digits and reads back as the number. |
| Decimal.PadWidth | internal/infrastructure/id/snowflake.go:78-80 | It has the asked width exactly when the number fits. |
| TokenBucket.GrantsAreBounded | internal/odds/sportradar/ratelimiter.go:45-64 | Over any run, by any callers, the tokens stay in [0, maxTokens] and at most maxTokens + floor((now - t0) / interval) are granted since creation. |
| TokenBucket.StretchIsBounded | internal/odds/sportradar/ratelimiter.go:45-64 | Of the attempts of any stretch of a run at most maxTokens + 1 plus one per whole interval of the stretch are granted. |
| TokenBucket.TokensAccountedFor | internal/odds/sportradar/ratelimiter.go:45-64 | Tokens held and granted are paid for by the time the refill has moved forward. |
| TokenBucket.AttemptSucceeds | internal/odds/sportradar/ratelimiter.go:45-64 | An attempt succeeds exactly when a token is held or a whole interval has gone by since the last refill. |
| TokenBucket.IdleTimeIsGranted | internal/odds/sportradar/ratelimiter.go:45-64 | After k whole intervals in which nobody asked, the next attempts get k tokens more than were left, up to the capacity. |
| TokenBucket.RefillAddsOnePerInterval | internal/odds/sportradar/ratelimiter.go:50-55 | A refill after k whole intervals adds k tokens, up to the capacity. |
| TokenBucket.NothingToGrant | internal/communications/africastalking/types.go:60-89 | A bucket without capacity never grants a token. |
| TokenBucket.PollingLimiter.TryConsume | internal/odds/sportradar/ratelimiter.go:45-64 | The specified attempt on the bucket's fields. |
| TokenBucket.PollingLimiter.Wait | internal/odds/sportradar/ratelimiter.go:29-43 | For a single caller: ends by success, by the context, or by a panic exactly when the capacity is zero and no token is found; all earlier attempts failed; leaves what its attempts leave in turn. |
| TokenBucket.FailuresAreBounded | internal/odds/sportradar/ratelimiter.go:29-64 | A single caller that pauses at least `pause` between attempts on a bucket with some capacity fails at most ceil(interval / pause) times. |
| TokenBucket.BothWaitsAreShort | internal/odds/sportradar/ratelimiter.go:29-64 | With the clients' own pauses: at most ceil(interval / (interval div maxTokens)) failures when maxTokens <= interval, and at most one in the other client. |
| TokenBucket.FailuresChangeNothing | internal/odds/sportradar/ratelimiter.go:45-64 | While a bucket with some capacity has none left to give, it stays as it was, empty and less than an interval old. |
| TokenBucket.AttemptsAreARun | internal/odds/sportradar/ratelimiter.go:29-43 | The attempts of a waiting call are a run, so that the bounds hold of them. |
| TokenBucket.SleepingLimiter.Refill | internal/communications/africastalking/types.go:77-89 | The second form of the refill is the first one's function. |
| TokenBucket.SleepingLimiter.Wait | internal/communications/africastalking/types.go:60-74 | For a single caller: the same wait written around the refill, with any capacity; ends by success exactly when an attempt would, otherwise by the context. |
| ProvablyFair.SurvivorCount | internal/core/usecase/provably_fair.go:69-88 | Exactly floor(100 * 2^52 / k) + 1 of the 2^52 values reach a target of k hundredths, for k in 101..1000000. |
| ProvablyFair.WinnersCount | internal/core/usecase/provably_fair.go:58-90 | Counted over both inputs, the instant-bust word included: 4166118277 (floor(100 * 2^52 / k) + 1) pairs reach the target. |
| ProvablyFair.HouseEdgeHolds | internal/core/usecase/provably_fair.go:17-90 | A fixed target returns at most 97% of the stake, up to one value of r. |
| ProvablyFair.SurvivesUpTo | internal/core/usecase/provably_fair.go:80-88 | Reaching a target is a bound on r. |
| ProvablyFair.BustsNeverSurvive | internal/core/usecase/provably_fair.go:64-67 | A round whose word is an instant bust reaches no target above 1.00, whatever r. |
| ProvablyFair.PlayingCount | internal/core/usecase/provably_fair.go:64-67 | How many words below any n are not instant busts. |
| ProvablyFair.CalculateCrashPoint | internal/core/usecase/provably_fair.go:58-90 | The result lies in [1.00, 10000.00]. |
| Jackpot.MatchesSameNumbers | internal/jackpots/helpers.go:119-136 | Against winning numbers without repeats the one-sided check holds exactly for the tickets with the same set of numbers and no repeats. |
| Jackpot.AcceptedTicketWins | internal/jackpots/helpers.go:54-136 | An accepted ticket wins against drawn numbers exactly when the two sets are equal. |
| Jackpot.ValidateTicketPurchase | internal/jackpots/helpers.go:54-87 | Accepts exactly the valid tickets; otherwise names the first rule broken. |
| Jackpot.GenerateWinningNumbers | internal/jackpots/helpers.go:90-106 | Fills the slice with the first `count` different draws, all in 1..49. |
| Jackpot.DrawUnseen | internal/jackpots/helpers.go:95-102 | The retry loop ends at the next number not seen before. |
| Jackpot.DrawsAreValid | internal/jackpots/helpers.go:90-106 | Drawn numbers are in range and without repeats. |
| Jackpot.IsWinner | internal/jackpots/helpers.go:119-136 | True exactly when the lengths agree and every winning number is on the ticket. |
| Jackpot.FindWinner | internal/jackpots/helpers.go:109-116 | The first matching ticket, or none exactly when no ticket matches. |

## Left out

- Floating point: hundredths and exact rationals stand for PHP and Go doubles, so effects such as floor(1.15 * 100) or a
  quotient rounded up to an integer are not modelled.
- Lua and Redis scores are doubles too: nanosecond scores and `window_start - 1` are exact integers here, and Redis'
  clock for EXPIRE is the caller's clock. Scores below zero, which the trim keeps, do not occur.
- The exponential is known only by monotonicity, g(0) = 1 and the linear lower bound.
- Hashing, seeds and random bytes: the 32-bit roll, the bust word and the 52-bit r are inputs.
- CrashMachine: the advisory lock's blocking is over-approximated by letting creators interleave; deadlock retries and the
  UniqueConstraintViolation branch of createWaitingRound (unreachable under that lock) are left out.
- CrashMachine: the check and the update of one conditional update of advanceLight use one clock reading.
- CrashEngine.CrashEngine.PlaceBet: no other call comes between its steps; what others can do in between is CrashMachine's
  matter, and CrashEngine.CrashEngine.InsertBet states the second half on whatever rows it meets.
- CrashEngine.CrashEngine.AdvanceLight: likewise; its two updates are stated on their own, on whatever rows they meet.
- CrashEngine.BetsOnlyBeforeTakeOff: of a call with no other in between; over interleavings it fails exactly as
  CrashPlacement.BetsArePlacedInTime says.
- SettlementService.SettlementService.ConfirmPeriod: with no other call in between, so that its refusal behind the locks
  does not arise; SettlementService.SettlementService.ReserveListed and SettlementPayouts.OverlapOverRuns state it.
- Wagering requirements, ops metrics, the history cache, the ghost feed and getState: presentation or services beside the
  rows modelled.
- Player bonuses: the bonus amounts of a first deposit are not modelled; the signup branch is recorded as having run.
- CrashPayouts.PaymentsStayBelowTheCrash: max_multiplier is read once in each step, with its transaction. The code reads it
  several times in a call, unlocked and through a cache of 30 seconds (`platform/app/Models/Setting.php:21`), so that a cap
  lowered between two reads of one call can also undercut the payment that call is about to make.
- RedisLimiter.WhatTheCallerIsTold: the oldest score is the admitted time itself. Redis prints a score of nanoseconds in
  exponent form, which the Go code's conversion does not read (`internal/infrastructure/ratelimit/redis_limiter.go:267-270`),
  so that a refusal in fact reports the start of 1970.
- The CANCELLED status of deposits and commissions, which nothing sets.
- SettlementPayouts.PayoutsMatchExactlyWhen: payments are those the ledger books. Whether a transfer that was made is ever
  reported, or is made twice and booked once, is the provider's; a withdrawal is looked up by the reference its transfer was
  made with, which is also where its transfer id is written.
- SettlementRuns: the balances of players are those of their deposits; what their own withdrawals, bets and bonuses do to
  them is left out, and so is the age an expiry asks of a deposit.
- Texts: the lists of skipped affiliates, notes, messages and error strings; confirmable totals are the sums of the
  modelled rows.
- GatewayFeeService: only the PIX fee, the one that settlement uses.
- Snowflake.SnowflakeGenerator.GenerateID: the zone's offset is fixed, local times run from 1970 to year 9999, and the
  mutex makes each call atomic.
- GetTimestampFromID, the country and service generators: parsing of a date and constant tables.
- TokenBucket.PollingLimiter.Wait: for one caller; with several, others may take the token between two attempts, and only
  the bound of TokenBucket.GrantsAreBounded is claimed. That the wait ends at all needs a context that ends or a clock that
  goes on.
- TokenBucket.SleepingLimiter.Wait: for one caller; this form has no mutex, and concurrent callers are outside the claim.
- Jackpot.GenerateWinningNumbers: assumes that every number is drawn again sooner or later and that at most 49 numbers are
  asked for; otherwise the source does not end.
- Drawing the same jackpot twice: the code checks no status before drawing, so no single payout is claimed.
- Handlers, configuration, client protocols of the payment and data providers, tax and wallet engines written in Go.
