# Position manager: a verified model

This project models an off-chain order engine for positions on a decentralised exchange and proves what it
keeps. A position has levels (stop-losses and take-profits); a trigger engine watches prices for them; a manager executes the
level that a price reaches as a swap on chain, through an executor contract that takes a fee and, for signed
positions, draws on a Permit2 allowance.

The files follow the program.

| file | what it holds |
|---|---|
| `Types`, `Permit2`, `Fees` | enumerations and records; the Permit2 allowance; the fee breakdown |
| `TriggerIndex` | the sorted index as a value, with the theory of selection, sorted insertion and stable sorting |
| `TriggerEngine` | the engine as a class over backing arrays: binary search, shifting, in-place filtering, reslicing |
| `NaiveRegistry` | a flat list of registrations that the engine refines, and the price-path theorem |
| `Lifecycle` | the manager as a transition system over (store, index, in-flight events, swap log, Permit2 allowances) |
| `Opening`, `Execution`, `Firing`, `Revival`, `Edits` | what each operation accepts, stores and registers, field by field and entry by entry, in terms of what was there before |
| `Identity`, `MarketPrices` | over every run: what never changes of a position, and where a recorded execution price comes from |
| `SwapOnce`, `Closure`, `Accounting`, `PermitBudget` | one invariant each, over every run |
| `SwapTwice` | when a level is swapped twice all the same: exact conditions, and runs that do it |
| `Overlaps` | operations on one position that overlap: what of each survives, what the index loses, and a cancelled position that is swapped |
| `Coverage`, `Upkeep`, `FailedWrites`, `NoLostTrigger` | no trigger is lost: what covers a level, how each operation keeps it, what a failed store write costs, and the exact condition step by step |
| `Demand`, `Solvency`, `Insolvency`, `SharedAllowance`, `OnChain` | the allowance that positions of one owner share: who draws on it, when it pays for them all, what happens when it does not, and that the calls a run makes leave the contract's ledger at it |
| `LevelLoops`, `Manager` | the manager's loops and methods, imperative, each proved to take the step of `Lifecycle` |
| `Amounts`, `Prices`, `Twap` | basis points and decay; minimum output and pool prices; ticks and their average |
| `Rates`, `Minimum` | two rates with their floors compared for every amount; what a swap's minimum output means for long and for short positions |
| `Renewal` | the least amount a renewed permit has to be for |
| `RateLimiter`, `CircuitBreaker`, `Nonces` | guards whose state is explained by their history |
| `SwapExecutor` | the contract as a machine over token ledgers |

A run is a trace of states with the operation between each two. Each operation is one atomic step, and what
the outside world answers (store, fee provider, circuit breaker, Permit2, chain, clock, signatures) is a
parameter of the step that the theorems quantify over. The theorems hold in every state of every run from the
empty manager, under a condition on each step that `IsRun` is given. The end of the process, which a panic
brings about, and a restart are steps like the others.

Where a theorem needs a condition, a lemma says what happens without it:

| theorem | condition | without it |
|---|---|---|
| `SwapOnce.SwappedAtMostOnce` | every swap that is made is stored | `SwapTwice.StaysActiveExactlyWhen`, `SwapTwice.UnstoredIsSwappedAgain` |
| all | operations on one position do not overlap | an operation that stores over an execution: `SwapTwice.LateWriteKeepsDoneExactlyWhen`, `SwapTwice.LateWriteSwapsTwice`; an execution that stores over an operation: `Overlaps.LateExecutionIsFailedWrite`, `Overlaps.LateExecutionKeepsWatchExactlyWhen`, `Overlaps.CancelUndoneExactlyWhen`, `Overlaps.CancelledIsSwapped`; two operations without the lock: `Overlaps.LateOverUnlocked` |
| `NoLostTrigger.NoTriggerIsLost` | `Safe`, a guard for each operation | `NoLostTrigger.StepKeepsWatchExactlyWhen` has the exact loss for each, `FailedWrites` operation by operation |
| `Closure.ClosedMeansFinished` | levels added within the limits | `Closure.AddedIsOrderlyExactlyWhen`, `Closure.PortionLimitHoldsExactlyWhen` |
| `Accounting.SizeIsConserved`, `Accounting.SizeDecays` | as for `SwappedAtMostOnce`, and added portions are at most 10000 | `Amounts.ClampDiscardsExactlyWhen` |
| `PermitBudget.PermitCoversAllSwaps` | as for `SizeIsConserved`, and the permit is not renewed | `PermitBudget.CoversExactlyWhen`, `Renewal.CoversLevelsExactlyWhen` |
| `Nonces.NoncesAreUsedOnce` | every rollback returns the last nonce handed out, and nothing is resynced | `Nonces.RollbackKeepsExactlyWhen`, `Nonces.ResyncKeepsExactlyWhen` |
| `Solvency.NoDebitFallsShort` | every activation covers those who share its allowance | `Insolvency.SolventExactlyWhenNothingFallsShort`, `SharedAllowance.SharedAllowanceFallsShort` |

`dafny verify dfyconfig.toml` checks everything with default settings.

## Where the code and its description differ

The model follows the code.

- The quick start (README.md:77-78) opens a stop-loss for 10000 basis points beside a take-profit for 3300.
  OpenPosition refuses it: portions may add up to 10000 at most (`Closure.FullPortionStandsAlone`).
- The limit on the sum of portions is computed in 32 bits. For otherwise valid levels it is the real limit
  exactly when there are at most 10000 of them (`Closure.PortionLimitHoldsExactlyWhen`, with an accepted list in
  `Closure.PortionLimitWraps`).
- executeTrigger is described as serialised per position (manager.go:304-310), but only it takes the lock. When
  another operation stores what it read before an execution, the executed level is open again unless the
  operation cancels the position or removes that level (`SwapTwice.LateWriteKeepsDoneExactlyWhen`), and it can
  be swapped a second time (`SwapTwice.LateWriteSwapsTwice`).
- The other way round, an execution holds its copy of the position while it waits for the receipt
  (manager.go:312-573), and its store write takes no account of what was stored meanwhile. It acts as if that
  other write had failed (`Overlaps.LateExecutionIsFailedWrite`): a cancellation is undone, and the position may
  be swapped again (`Overlaps.CancelUndoneExactlyWhen`, `Overlaps.CancelledIsSwapped`).
- Prices are quote per base (types.go:161). A short position sells quote, so that its output is the amount over
  the price; computeMinAmountOut multiplies (manager.go:357-362). The minimum is off by the price squared: at a
  price above one it cannot be met, below one it protects nothing (`Minimum.ShortClearsExactlyWhen`,
  `Minimum.ShortMinimumIsIntendedExactlyWhen`; `Minimum.ShortAtTwoThousand` and `Minimum.ShortAtOneHalf` are
  positions that OpenPosition accepts).
- A comment at manager.go:581-582 calls a failed store write after a swap safe because the next swap would
  fail on chain. If the chain does oblige, the level is swapped twice. The same happens after a receipt that was
  not seen (executor.go:147-150), which executeTrigger takes for a failed swap
  (`SwapTwice.StaysActiveExactlyWhen`, `SwapTwice.UnstoredIsSwappedAgain`).
- executeTrigger persists before it touches the trigger index. The other operations do it the other way round,
  so a failed write leaves the two apart: a level may lose its trigger, and the entry left by a failed AddLevel
  fires the next level added (`NoLostTrigger.StepKeepsWatchExactlyWhen`, `FailedWrites.GhostEntryFires`).
- Permit2 keeps one allowance per owner, token and spender (SwapExecutorV2.sol:66-70), and activation replaces
  it. ValidatePermit compares a permit with its own position only, so a second position's permit can leave the
  first one short (`SharedAllowance.SharedAllowanceFallsShort`). The check that is missing is in
  `SharedAllowance.ActivationCoversExactlyWhen`.
- AddLevel validates nothing. `Closure.AddedIsOrderlyExactlyWhen` says when its result is orderly;
  a negative CancelOnFire index that it lets in panics after the swap, which ends the process, and a portion
  above 10000 is recorded as more than was there (`Amounts.ClampDiscardsExample`).
- The permit monitor multiplies a lifetime in seconds by 10^9 in 64 bits.
  `PermitBudget.MonitorIsRightExactlyWhen` says for which deadlines its verdict is right; Permit2's largest
  expiration counts as expired (`PermitBudget.MonitorWrapsExample`), so OpenPosition refuses it, and RenewPermit,
  which accepts it, is undone by the monitor.
- activatePermit's checks are there to prevent silent truncation (executor.go:350-365). The nonce is cut to 64
  bits before it is checked (`PermitBudget.PermitArrivesExactlyWhen`, `PermitBudget.TruncatedNonceExample`).
- RenewPermit takes any signature from the owner's caller, and sets no token (manager.go:1066-1107). A position
  that was opened without a permit gets one for address zero, which grants nothing its swaps draw on
  (`Revival.LatePermitGrantsNothing`).
- RenewPermit takes any amount. `PermitBudget.CoversExactlyWhen` is the check it lacks when levels may still be
  added, `Renewal.CoversLevelsExactlyWhen` the one for the levels there are.
- The slippage of a level's type is not limited to 10000; above that the minimum output wraps
  (`Prices.MinAmountOutWrapsExactlyWhen`, `Prices.MinAmountOutWrapExample`).
- Wait's loop is written for a positive rate. With any other, or a burst below one, a refused call is never
  let through (`RateLimiter.WaitEndsExactlyWhen`).
- The comment on HalfOpenMaxAttempts (circuitbreaker.go:39-40) calls it the number of trial calls allowed. It
  is the number of successes needed; calls are not limited (`CircuitBreaker.HalfOpenIsUncapped`).
- rollbackNonce is described as a decrement (executor.go:238). It assigns, and keeps the numbering exact only
  when it returns the very last nonce handed out (`Nonces.RollbackKeepsExactlyWhen`). That the nonce is the
  latest one still outstanding is not enough: a later one may have been sent.
- LookupPool's reading of a pool for the reverse pair is the reciprocal orientation only when both tokens have
  equal decimals (`Prices.ReversedPoolIsOtherOrientationExactlyWhen`).

## Model

| member | source | states |
|---|---|---|
| NaiveRegistry.EngineRefinesNaive | pkg/positionmanager/trigger.go:50-157 | over every history of register, unregister, update and price operations the engine emits exactly what a linear scan of a flat list emits, in the same order, and each slice is sorted, holds exactly the multiset of live registrations, and keeps equal prices in registration order |
| NaiveRegistry.RunRefines | pkg/positionmanager/trigger.go:50-157 | the same from any pair of corresponding states |
| NaiveRegistry.PricePathTheorem | pkg/positionmanager/trigger.go:113-157 | after a path of prices the survivors are those its maximum and minimum alone would leave, and each crossed entry fired once, with the first price that crossed it |
| NaiveRegistry.CrossedByExtreme | pkg/positionmanager/trigger.go:122-150 | an entry fires on a path if and only if the path's extreme price reaches it |
| NaiveRegistry.FirstCrossingIsFirst | pkg/positionmanager/trigger.go:122-150 | the first crossing of the theorem crosses the entry and no earlier price does |
| NaiveRegistry.PathReports | pkg/positionmanager/trigger.go:126-152 | every event of a path names an entry of the pair and carries the first price of the path that reaches it |
| TriggerIndex.FiredMeans | pkg/positionmanager/trigger.go:122-152 | every event of a price carries that price, the pair's chain and the position, level and type of an entry the price reaches, and every such entry has one |
| TriggerIndex.RegisterMeans | pkg/positionmanager/trigger.go:84-99 | registering adds the entry once, on its side of its pair, and nothing else |
| TriggerIndex.UnregisterMeans | pkg/positionmanager/trigger.go:101-108 | unregistering a level takes all its entries from both sides of the pair, and no others |
| TriggerIndex.UnregisterPositionMeans | pkg/positionmanager/trigger.go:64-74 | unregistering a position takes all its entries, and no others |
| TriggerIndex.PriceTakes | pkg/positionmanager/trigger.go:122-152 | a price takes out exactly the entries it reaches |
| NaiveRegistry.RepeatIsSilent | pkg/positionmanager/trigger.go:113-157 | repeating a price fires nothing and changes nothing |
| TriggerIndex.CrossedMeans | pkg/positionmanager/trigger.go:182-185 | a take-profit fires at its trigger or better for the position, a stop-loss at its trigger or worse |
| TriggerIndex.StableSortIsStable | pkg/positionmanager/trigger.go:188-196 | insertion one by one keeps equal prices in the order inserted |
| TriggerIndex.SortedStableUnique | pkg/positionmanager/trigger.go:188-196 | sortedness and order among equal prices determine a slice completely |
| TriggerIndex.InsertSorted | pkg/positionmanager/trigger.go:188-196 | insertion keeps a slice sorted |
| TriggerEngine.Search | pkg/positionmanager/trigger.go:123-125 | binary search finds the first entry the test accepts, on any window of a backing array |
| TriggerEngine.InsertEntry | pkg/positionmanager/trigger.go:188-196 | appending, shifting and storing gives the sorted insertion, in the old array or a grown one |
| TriggerEngine.RemoveEntries | pkg/positionmanager/trigger.go:198-218 | the in-place filter keeps exactly the entries not selected, in order |
| TriggerEngine.Collect | pkg/positionmanager/trigger.go:126-135 | one event for each entry of a stretch, in order, with the market price |
| TriggerEngine.Engine.Register | pkg/positionmanager/trigger.go:50-55 | adds one entry on the side its type and direction give, and keeps the engine valid |
| TriggerEngine.Engine.Unregister | pkg/positionmanager/trigger.go:57-62 | removes every entry of the level from both slices, nothing else |
| TriggerEngine.Engine.UnregisterPosition | pkg/positionmanager/trigger.go:64-74 | removes every entry of the position from both slices, nothing else |
| TriggerEngine.Engine.UpdateTriggerPrice | pkg/positionmanager/trigger.go:77-82 | replaces all entries of the level by one at the new price |
| TriggerEngine.Engine.OnPrice | pkg/positionmanager/trigger.go:113-157 | returns and drops exactly the entries the price crosses, above first, each side in its order; every event carries the price and the chain and reports an entry that was there |
| Opening.AcceptsExactlyWhen | pkg/positionmanager/manager.go:635-725 | what OpenPosition accepts: a positive size, a known chain, at least one level, each with a positive price, 1 to 10000 basis points and indices in range, a 32-bit sum of at most 10000, and a sound permit if any |
| Opening.PermitAcceptedExactlyWhen | pkg/positionmanager/permit.go:144-208 | a permit is accepted if and only if its signer is the owner, its amount covers the size, its deadline is ahead and at least the configured lifetime is left, in 64-bit nanoseconds |
| Opening.OpenMeans | pkg/positionmanager/manager.go:727-785 | opening stores the position with every field as asked, its levels active and its permit as signed for the token it sells, and registers each level at its price on its side; otherwise nothing changes |
| Opening.EveryPositionWasOpened | pkg/positionmanager/manager.go:635-1181 | every position in every state of every run was opened with acceptable parameters, has kept its identity, and has the permit it was opened with unless it was renewed since |
| Opening.SignedByItsOwner | pkg/positionmanager/permit.go:171-208 | so a signed position that was not renewed was opened with a permit whose recovered signer is its owner, for its size at least and for the token it sells |
| Identity.RunKeepsIdentity | pkg/positionmanager/manager.go:306-1181 | over every run no operation changes a position's owner, tokens, direction, size, chain or decimals, or what a level is set up to do |
| Execution.SwapsExactlyWhen | pkg/positionmanager/manager.go:312-484 | an execution swaps if and only if every lookup answers, the level is active in a live position, the breaker allows, the chain does not fail, and a signed position's permit is not expired, is active or fits the activation call, and its allowance pays |
| Execution.EndsExactlyWhen | pkg/positionmanager/manager.go:405-419 | it ends the process if and only if a permit field is missing when it is needed, or a confirmed swap's take-profit has a negative CancelOnFire index |
| Execution.LoggedSwapMeans | pkg/positionmanager/manager.go:335-462 | the swap sells the level's part of what remains, for the other token, for at least the code's minimum at the slippage of the level's type, in the mode the signature decides |
| Execution.ActivationIsStored | pkg/positionmanager/manager.go:403-449 | an activation that the chain confirms is stored at once if that write succeeds, whatever becomes of the swap, and nothing else is stored without a recorded swap |
| Firing.FiringMeans | pkg/positionmanager/manager.go:505-569 | every field of every level and of the position after a firing: the record at the market price, what is cancelled, the first stop-loss still open moved to MoveSLTo, size and state |
| Firing.RecordedMeans | pkg/positionmanager/manager.go:571-584 | an execution that is stored leaves exactly that, at the price its event carries, and no other position changed |
| Firing.FiringIndexes | pkg/positionmanager/manager.go:586-592 | a moved stop-loss then has one entry, at its new price, a level taken down has none, and the others have those they had |
| Edits.MovedStopLossFires | pkg/positionmanager/manager.go:548-553 | after that a price puts the moved stop-loss in flight if and only if it is at MoveSLTo or worse |
| MarketPrices.RecordedAtMarket | pkg/positionmanager/manager.go:505-510 | in every run a recorded execution price is a price the market had for the position's pair earlier in it |
| MarketPrices.RecordIsFinal | pkg/positionmanager/manager.go:505-510 | and it is never changed |
| Revival.RenewMeans | pkg/positionmanager/manager.go:1066-1107 | the owner of a live position gets the deadline and signature given, the nonce and amount given or the old ones, an activation to be made anew, and the suspended levels active and registered; anybody else changes nothing |
| Revival.RenewalHolds | pkg/positionmanager/manager.go:1082-1099 | over every run, from a stored renewal to the next, no execution before the new deadline ends in a suspension, and the monitor does not find the position due |
| Revival.SuspendsExactlyWhen | pkg/positionmanager/manager.go:380-401 | an execution suspends if and only if it gets to a signed permit with a deadline that is past |
| Revival.DueExactlyWhen | pkg/positionmanager/manager.go:1143-1160 | within 2^63 nanoseconds the monitor suspends if and only if a signed live position with an active level has a deadline that is past |
| Revival.WarnsExactlyWhen | pkg/positionmanager/manager.go:1134-1178 | and warns its owner if and only if it is ahead by at most the threshold, 48 hours unless configured |
| Revival.LatePermitGrantsNothing | pkg/positionmanager/manager.go:1076-1085 | over every run, a position opened without a permit activates an allowance for address zero, never the one it draws on |
| Edits.UpdateMeans | pkg/positionmanager/manager.go:816-841 | a positive price for an active level of a live position is stored, and the level has one entry, at that price; otherwise nothing changes |
| Edits.AddMeans | pkg/positionmanager/manager.go:844-870 | any level is added to a live position, active, last, and registered |
| Edits.RemoveMeans | pkg/positionmanager/manager.go:873-891 | a level of a live position, of whatever status, is cancelled and has no entries left |
| Edits.CancelMeans | pkg/positionmanager/manager.go:799-813 | a live position is cancelled with its active levels, which have no entries left; suspended ones stay |
| Edits.ExpireMeans | pkg/positionmanager/manager.go:1147-1160 | a position found due has its active levels suspended, which have no entries left |
| Edits.LoadMeans | pkg/positionmanager/manager.go:972-979 | loading registers the active levels of a live position, each at its price on its side |
| Edits.RestartMeans | pkg/positionmanager/manager.go:138-147 | a new process has exactly the entries of the active levels of the live positions listed, whatever the index held, and nothing in flight |
| Edits.RequeueMeans | pkg/positionmanager/manager.go:369-484 | an execution that is put back registers its level at its price again |
| Edits.PriceMeans | pkg/positionmanager/manager.go:293-302 | a price takes what it reaches out of the index and puts an event for each in flight |
| Edits.PriceCounts | pkg/positionmanager/trigger.go:122-152 | a price turns entries into events one for one |
| Edits.CutPriceMeans | pkg/positionmanager/manager.go:293-302 | a price whose events are cut off leaves the index of a whole one, and in flight the first of its events in order |
| SwapOnce.SwappedAtMostOnce | pkg/positionmanager/manager.go:306-630 | over every run whose swaps are all stored, no level of any position is swapped twice, whatever failures, retries, duplicate registrations and renewals occur |
| SwapOnce.TerminalIsFinal | pkg/positionmanager/manager.go:319-321 | a closed or cancelled position is never changed or swapped again |
| SwapOnce.StepEvolves | pkg/positionmanager/manager.go:306-1107 | no operation drops a level or makes a finished one unfinished |
| SwapTwice.StaysActiveExactlyWhen | pkg/positionmanager/manager.go:464-592 | after a swap its level is still active, and nothing but the permit of its position has changed in the store, if and only if the receipt was not seen, CancelOnFire has a negative index, or the store write failed |
| SwapTwice.UnstoredIsSwappedAgain | pkg/positionmanager/manager.go:571-584 | for every environment in which the swap is made and not stored there is a run from the empty manager whose log holds two swaps of one level |
| SwapTwice.LateWriteKeepsDoneExactlyWhen | pkg/positionmanager/manager.go:304-318 | any of the six operations without the lock that stores what it read before a recorded execution leaves the executed level done if and only if it cancels the position or removes that level |
| SwapTwice.LateWriteSwapsTwice | pkg/positionmanager/manager.go:816-841 | a run from the empty manager in which an UpdateLevel stores late and the level is swapped twice |
| Overlaps.LateExecutionIsFailedWrite | pkg/positionmanager/manager.go:312-573 | an execution that stores what it read before any of the six operations without the lock leaves exactly the state that the execution leaves after that operation with a failed store write |
| Overlaps.LateExecutionUndoes | pkg/positionmanager/manager.go:312-573 | in store, log and allowances it leaves what it would have left alone, and no level is swapped twice by it |
| Overlaps.CancelUndoneExactlyWhen | pkg/positionmanager/manager.go:799-813 | over a CancelPosition it never leaves the position cancelled, and leaves it live if and only if a take-profit fired, some size is left, and another active level is not taken down |
| Overlaps.LateExecutionKeepsWatchExactlyWhen | pkg/positionmanager/manager.go:586-592 | for each of the six, all active levels are watched in the end if and only if the operation did nothing that counts to a level that stays open and is not moved: repriced it, removed it with no event in flight, or the like; never for AddLevel, and for RenewPermit if nothing was suspended |
| Overlaps.CancelledIsSwapped | pkg/positionmanager/manager.go:799-813 | a run from the empty manager in which a position is cancelled while its first level executes, and its second level is swapped later |
| Overlaps.LateOverUnlocked | pkg/positionmanager/manager.go:799-1107 | of two operations without the lock the later store acts as if the write of the other had failed |
| Overlaps.LateOverCancel | pkg/positionmanager/manager.go:799-813 | so a cancellation is undone by any of them but another cancellation |
| NoLostTrigger.NoTriggerIsLost | pkg/positionmanager/manager.go:306-1107 | over every run of safe steps, restarts included, an active level of a live position is in the index at its price on its side or in flight, a suspended one has no entry, and an active level's entries have its current price, side and type |
| NoLostTrigger.StepKeepsWatchExactlyWhen | pkg/positionmanager/manager.go:306-1107 | from a state in which every level is watched, each operation, with whatever failures, ends in one exactly when its guard `Safe` holds |
| NoLostTrigger.ExecuteKeepsExactly | pkg/positionmanager/manager.go:312-592 | an execution loses no level if and only if, at the first of its failures: for a lookup, fee or final store write the level has another event or entry; for the write of a suspension every active level is in flight; there is no missing permit field and no negative CancelOnFire index after a swap |
| NoLostTrigger.CutPriceKeepsExactly | pkg/positionmanager/manager.go:293-302 | a price whose events are sent only in part loses no level if and only if every dropped event's level is not active or has another event in flight |
| FailedWrites.FailedUpdate | pkg/positionmanager/manager.go:816-841 | an UpdateLevel that cannot store loses nothing if and only if the price is the stored one |
| FailedWrites.FailedAdd | pkg/positionmanager/manager.go:844-870 | an AddLevel that cannot store always leaves an entry of no level |
| FailedWrites.FailedRemove | pkg/positionmanager/manager.go:873-891 | a RemoveLevel that cannot store loses nothing if and only if the level is not active or is in flight |
| FailedWrites.FailedCancel | pkg/positionmanager/manager.go:799-813 | a CancelPosition that cannot store loses nothing if and only if every active level is in flight |
| FailedWrites.FailedSuspend | pkg/positionmanager/manager.go:1054-1062 | the same for a suspension, by the monitor or by an execution |
| FailedWrites.FailedRenew | pkg/positionmanager/manager.go:1066-1107 | a RenewPermit that cannot store loses nothing if and only if no level was suspended |
| FailedWrites.GhostEntryFires | pkg/positionmanager/manager.go:844-870 | after an AddLevel that could not store, the next level added takes its index, is right if and only if price and type are the same, and is put in flight by the price of the failed one |
| NoLostTrigger.RestartCoversExactlyWhen | pkg/positionmanager/manager.go:138-147 | from any store, whatever was lost before, a restart covers every active level if and only if every live position with one is listed |
| Closure.ClosedMeansFinished | pkg/positionmanager/manager.go:528-569 | in every state of every run within the limits: active and suspended levels never coexist, a terminal position has no active level, one closed by execution has every level triggered or cancelled, a live one has size left |
| Closure.ClosesCleanlyExactlyWhen | pkg/positionmanager/manager.go:528-569 | for any position, a closing execution leaves nothing open if and only if nothing is suspended and every other active level is taken down |
| Closure.AddedIsOrderlyExactlyWhen | pkg/positionmanager/manager.go:844-870 | AddLevel keeps the invariant if and only if no level is suspended and the new portion is at least 1 and fits |
| Closure.PortionLimitHoldsExactlyWhen | pkg/positionmanager/manager.go:646-664 | for accepted levels the true sum of portions is within 10000 if and only if there are at most 10000 levels |
| Closure.PortionLimitWraps | pkg/positionmanager/manager.go:646-664 | 429497 levels of 10000 basis points each are accepted |
| Closure.FullPortionStandsAlone | pkg/positionmanager/manager.go:646-664 | among at most 10000 levels, one of 10000 basis points is accepted only alone |
| Closure.EmptiesAlone | pkg/positionmanager/manager.go:513-516 | within the limit, only a lone level can bring the remaining size to zero |
| Accounting.SizeIsConserved | pkg/positionmanager/manager.go:506-517 | in every state of every run: remaining plus recorded amounts is the opening size, so is remaining plus the swaps on chain, and remaining is in range |
| Accounting.SizeDecays | pkg/positionmanager/manager.go:506-517 | in the same states: the product of kept shares up to one unit a swap, at least the size less the plain sum of portions, and zero only after a portion of 10000 |
| Minimum.SwapIsExchanged | pkg/positionmanager/manager.go:982-989 | a short position swaps exactly as the long one with tokens and decimals exchanged and the same price, which for it is not the same price |
| Minimum.SwapIsBounded | pkg/positionmanager/manager.go:322-362 | a long position sells base, a short one quote, at most what there is, for at least amount times price less the slippage of the level's type, to within two units |
| Minimum.LongClearsExactlyWhen | pkg/positionmanager/manager.go:346-362 | a pool that honours the trigger price, on what the fee leaves, pays the minimum of a long position's level at every size, if and only if fee and slippage add up to at most what they may |
| Minimum.ShortClearsExactlyWhen | pkg/positionmanager/manager.go:357-362 | of a short position's, if and only if the price squared, less the slippage, is at most one less the fee |
| Minimum.LongMinimumIsIntended | pkg/positionmanager/executor.go:517-536 | a long position's minimum is the output at the trigger price less the slippage |
| Minimum.ShortMinimumIsIntendedExactlyWhen | pkg/positionmanager/executor.go:517-536 | a short position's is never below that at any size if and only if the price is at least one, and never above it if and only if it is at most one, unless nothing is asked |
| Minimum.ShortAtTwoThousand | pkg/positionmanager/manager.go:357-362 | a short position worth one base unit at its price of 2000 that OpenPosition accepts and whose minimum is four million, so that with any fee and slippage short of everything it cannot be executed |
| Minimum.ShortAtOneHalf | pkg/positionmanager/manager.go:357-362 | one at a price of a half whose minimum is a quarter of what it is worth |
| OnChain.MissedMinimumReverts | contracts/SwapExecutorV2.sol:372-383 | a swap whose minimum such a pool does not reach reverts |
| Accounting.FiredBalanced | pkg/positionmanager/manager.go:506-517 | an execution moves its amount from the remaining size to the level and the clamp to zero discards nothing |
| Accounting.StepKeepsAccounts | pkg/positionmanager/manager.go:306-1107 | every operation keeps all accounts balanced and in agreement with the swap log |
| Amounts.DecayBounds | pkg/positionmanager/bps.go:6-9 | two-sided bound on the remaining size after any sequence of portions: the exact product of kept shares, plus at most one unit a level |
| Amounts.RemainingAtLeastSum | pkg/positionmanager/manager.go:992-994 | the remaining size is at least the opening size less the plain sum of portions |
| Amounts.RemainingPositive | pkg/positionmanager/manager.go:513-516 | it is positive if and only if no portion was 10000 |
| Amounts.ClampDiscardsExactlyWhen | pkg/positionmanager/manager.go:513-516 | for any portion, the clamp loses size if and only if the excess over 10000 reaches one unit on this size |
| Amounts.ClampDiscardsExample | pkg/positionmanager/manager.go:513-516 | a portion of 20000 on a size of 100 is recorded as 200 |
| Amounts.MulBpsWithin | pkg/positionmanager/bps.go:6-9 | a portion takes at most all there is, and all of it only at 10000 |
| PermitBudget.PermitCoversAllSwaps | pkg/positionmanager/manager.go:383-449 | over every run without renewal of the permit, all swaps of a signed position go through the permit, their amounts survive the 160-bit cast, and their total is within what was signed for it; what the shared allowance pays is in the rows of Solvency |
| PermitBudget.SpentIsTaken | pkg/positionmanager/manager.go:506-517 | between any two states, what was swapped is what the remaining size lost |
| PermitBudget.CoversExactlyWhen | pkg/positionmanager/manager.go:1066-1085 | a renewed amount covers any portions that may fire, those AddLevel may still bring included, if and only if it is at least the remaining size |
| Renewal.CoversLevelsExactlyWhen | pkg/positionmanager/manager.go:1066-1085 | it covers the levels the position has now, in whatever order they fire and take others down, if and only if it is at least their need |
| Renewal.SpentWithinNeed | pkg/positionmanager/manager.go:306-1107 | over every run from there without an added level or another renewal, no more than the need is swapped |
| Renewal.NeedIsAllExactlyWhen | pkg/positionmanager/manager.go:505-517 | the need is at most the remaining size, and all of it if and only if an active level has a portion of 10000 |
| PermitBudget.StepKeepsPermit | pkg/positionmanager/executor.go:355-365 | only activation within Permit2's bounds changes a permit, renewal aside |
| PermitBudget.PermitArrivesExactlyWhen | pkg/positionmanager/executor.go:355-395 | the words the call packs are within the contract's types and are the amount, expiration and nonce that were signed if and only if the checks pass, the amount is not negative and the nonce has 64 bits |
| PermitBudget.NonceArrives | pkg/positionmanager/manager.go:411 | whatever its sign and length, the nonce that arrives is what its magnitude leaves of multiples of 2^64 |
| PermitBudget.TruncatedNonceExample | pkg/positionmanager/executor.go:362-364 | a nonce beyond 64 bits that passes the check |
| PermitBudget.MonitorIsRightExactlyWhen | pkg/positionmanager/manager.go:1147-1149 | for every deadline and time, with the seconds to it times 5^9 taken modulo 2^55: the verdict is right if and only if that lies strictly between 0 and 2^54 exactly when the deadline is ahead |
| PermitBudget.MonitorIsRightWithinRange | pkg/positionmanager/manager.go:1147-1149 | in particular for deadlines less than 2^63 nanoseconds away |
| PermitBudget.MonitorSuspendsAll | pkg/positionmanager/manager.go:1141-1160 | a round of the monitor whose writes succeed leaves no listed position active on a permit it judges expired |
| PermitBudget.MonitorWrapsExample | pkg/positionmanager/manager.go:1147-1149 | Permit2's largest expiration counts as expired |
| PermitBudget.AcceptedPermitLives | pkg/positionmanager/permit.go:180-190 | an accepted permit does not expire within the configured lifetime, whatever its deadline |
| PermitBudget.NewIsPermitted | pkg/positionmanager/permit.go:175-178 | an opened position's permit is for at least its size |
| Permit2.AllowanceSuffices | contracts/SwapExecutorV2.sol:282-287 | debits that add up to no more than the allowance are all paid, and leave the difference |
| Solvency.NoDebitFallsShort | contracts/SwapExecutorV2.sol:269-290 | over every run whose activations each cover those who share the allowance, renewals and restarts included, whenever a signed position gets to its swap the shared allowance pays it in full |
| Solvency.StepKeepsSolvent | pkg/positionmanager/manager.go:306-1107 | for each allowance, every operation keeps it at or above the remaining sizes of all live positions that draw on it, an activation if it covers them |
| Solvency.CoveredExactlyWhen | pkg/positionmanager/manager.go:395-430 | an activation covers them if and only if its amount is at least the remaining sizes of those who draw already plus its own |
| Insolvency.SolventExactlyWhenNothingFallsShort | contracts/SwapExecutorV2.sol:282-287 | in any accounted state, the allowance is at or above that demand if and only if no run without an activation ends in a swap it does not pay |
| SharedAllowance.ActivationCoversExactlyWhen | contracts/SwapExecutorV2.sol:251-264 | after an activation no run without another one ends in a swap of the shared allowance that falls short, if and only if the permit is for at least the remaining sizes of all live positions that draw on it, its own included |
| SharedAllowance.UnsharedActivationCovers | pkg/positionmanager/permit.go:175-178 | if nobody else draws, a permit for at least the remaining size covers |
| SharedAllowance.SharedAllowanceFallsShort | contracts/SwapExecutorV2.sol:66-70 | a run from the empty manager with permits for 100 and 50 of one owner in one token: 30 is swapped, the second permit is activated, and the swap of the other 70 is refused on an allowance of 50 |
| OnChain.AllowanceFollowsSwaps | pkg/positionmanager/manager.go:395-484 | in every run, between two activations an allowance is what it was less what the logged swaps drew on it |
| OnChain.ChainFollowsRun | contracts/SwapExecutorV2.sol:251-290 | over a whole run, activations included, the calls that the run makes leave the contract's grant at the manager's allowance in every state, if what the run takes to have gone through did and nobody else touches the grant |
| OnChain.UncoveredReverts | contracts/SwapExecutorV2.sol:269-290 | a swap that the manager's allowance does not cover reverts, if the contract holds nothing and the router takes its whole input |
| LevelLoops.CheckLevels | pkg/positionmanager/manager.go:646-664 | the validation loop accepts exactly the valid level lists, its sum wrapping at 32 bits |
| LevelLoops.BuildLevels | pkg/positionmanager/manager.go:747-760 | every opened level is active, at its index, with the parameters given |
| LevelLoops.FindActiveSL | pkg/positionmanager/types.go:148-155 | finds the first active stop-loss |
| LevelLoops.CancelOthers | pkg/positionmanager/manager.go:528-536 | a stop-loss cancels every other active level and lists exactly those |
| LevelLoops.CancelListed | pkg/positionmanager/manager.go:538-544 | a take-profit cancels exactly the listed levels that are active, and fails if and only if an index is negative |
| LevelLoops.Fire | pkg/positionmanager/manager.go:505-569 | the position, the cancelled levels and the moved stop-loss after an execution |
| Lifecycle.TraceIsRun | pkg/positionmanager/manager.go:132-302 | every list of operations has a run from every state |
| Lifecycle.ActiveSLIsFirst | pkg/positionmanager/types.go:148-155 | what the search for an active stop-loss returns |
| PositionManager.Manager.OpenPosition | pkg/positionmanager/manager.go:635-785 | takes the opening step, and succeeds if and only if the parameters are acceptable and approval and store are willing |
| PositionManager.Manager.CancelPosition | pkg/positionmanager/manager.go:799-813 | takes the cancelling step, and succeeds if and only if the position is live and stored |
| PositionManager.Manager.UpdateLevel | pkg/positionmanager/manager.go:816-841 | takes the repricing step, and succeeds if and only if price, position and level are right and it is stored |
| PositionManager.Manager.AddLevel | pkg/positionmanager/manager.go:844-870 | takes the adding step, and succeeds if and only if the position is live and stored |
| PositionManager.Manager.RemoveLevel | pkg/positionmanager/manager.go:873-891 | takes the removing step, whatever the level's status, and succeeds if and only if position and index are right and it is stored |
| PositionManager.Manager.RenewPermit | pkg/positionmanager/manager.go:1066-1107 | takes the renewal step, and succeeds if and only if the owner asks for a live position and it is stored |
| PositionManager.Manager.VisitPermit | pkg/positionmanager/manager.go:1143-1178 | takes the monitor's step for one position: suspends it, or warns its owner within the threshold, or nothing |
| PositionManager.Manager.CheckPermitExpiry | pkg/positionmanager/manager.go:1125-1181 | visits the listed positions in turn, suspending and warning, or nothing at all if nobody listens |
| PositionManager.Manager.Load | pkg/positionmanager/manager.go:138-147 | registers every live position listed, in turn |
| PositionManager.Manager.Restart | pkg/positionmanager/manager.go:132-147 | after the end of a process, with whatever it left in the store, a new manager takes the restart step |
| PositionManager.Manager.HandlePriceUpdate | pkg/positionmanager/manager.go:293-302 | takes the price step: everything fired is put in flight, or as much of it as is sent before the context ends |
| PositionManager.Manager.ExecuteTrigger | pkg/positionmanager/manager.go:306-592 | takes the execution step, in each of its outcomes, and says exactly when it ends the process |
| PositionManager.Manager.Retire | pkg/positionmanager/manager.go:1011-1062 | sweeping the active levels one by one is one change of status and one removal |
| PositionManager.Manager.Reactivate | pkg/positionmanager/manager.go:1089-1099 | reactivating level by level is one change of status and one registration of all |
| PositionManager.Manager.RegisterPositionTriggers | pkg/positionmanager/manager.go:972-979 | registers exactly the active levels, in ascending order |
| PositionManager.Manager.Follow | pkg/positionmanager/manager.go:586-592 | the index catches up with a stored execution |
| PositionManager.RemoveNext | pkg/positionmanager/trigger.go:101-108 | unregistering levels one after another is one removal of them all |
| Prices.MinAmountOutIsTight | pkg/positionmanager/executor.go:517-536 | the minimum is at most the exact rational value and less than 2 below it |
| Prices.MinAmountOutMonotone | pkg/positionmanager/executor.go:517-536 | it rises with amount and price and falls with slippage |
| Prices.MinAmountOutSuperadditive | pkg/positionmanager/executor.go:517-536 | splitting an order never raises the total minimum |
| Prices.MinAmountOutWrapsExactlyWhen | pkg/positionmanager/executor.go:531-533 | it stays within the expected output if and only if slippage is at most 10000, or the wrapped excess is below one unit |
| Prices.MinAmountOutWrapExample | pkg/positionmanager/executor.go:531-533 | a slippage of 10001 asks for 65535 where the trigger price gives 10000 |
| Prices.FeeWithinSlippageClears | contracts/SwapExecutorV2.sol:360-383 | where output is amount times price, a fee of at most the slippage never makes a pool that honours the price miss the minimum, amount by amount |
| Prices.FeeBeyondSlippageFails | contracts/SwapExecutorV2.sol:360-383 | any fee above the slippage does, at some price and amount |
| Prices.SpotPriceMeans | pkg/positionmanager/pricefeed_uniswapv3.go:405-427 | the spot price is the floor of 10^8 times the squared root over 2^192 with the decimals set right, or of one over that |
| Prices.SpotPriceOfEqualDecimals | pkg/positionmanager/pricefeed_uniswapv3.go:405-427 | with equal decimals, of the squared root over 2^192; a root of 2^96 is a price of one |
| Prices.OrientationsAreReciprocal | pkg/positionmanager/pricefeed_uniswapv3.go:405-427 | base and non-base prices are reciprocal at scale 10^8 up to their two floors |
| Prices.OrientationsAreMonotone | pkg/positionmanager/pricefeed_uniswapv3.go:405-427 | one rises with the pool price and the other falls |
| Prices.DecimalsShift | pkg/positionmanager/pricefeed_uniswapv3.go:405-427 | one more decimal of token 0 is one more digit of one price and one less of the other |
| Prices.ReversedPoolIsOtherOrientationExactlyWhen | pkg/positionmanager/pricefeed_uniswapv3.go:228-233 | a reversed pool reads as the other orientation at every price if and only if the decimals are equal |
| Twap.PowBySquaring | pkg/positionmanager/pricefeed_uniswapv3.go:371-379 | square-and-multiply computes the plain power |
| Twap.TickToPrice | pkg/positionmanager/pricefeed_uniswapv3.go:360-402 | the price of a tick, in both orientations |
| Twap.TickRatioStarts | pkg/positionmanager/pricefeed_uniswapv3.go:360-382 | tick zero is a ratio of 1 and tick one of 1.0001 |
| Twap.TickRatioStep | pkg/positionmanager/pricefeed_uniswapv3.go:380-382 | one more tick is one more factor of 1.0001, below zero as above |
| Twap.TickPriceMeans | pkg/positionmanager/pricefeed_uniswapv3.go:384-402 | the price of a tick is the floor of 10^8 times its ratio with the decimals set right, or of one over that |
| Twap.TickRatioReciprocal | pkg/positionmanager/pricefeed_uniswapv3.go:380-382 | the ratios of a tick and its negative multiply to one |
| Twap.TickPriceMonotone | pkg/positionmanager/pricefeed_uniswapv3.go:360-402 | a higher tick is a higher base price and a lower inverse price |
| Twap.TickOrientationsAreReciprocal | pkg/positionmanager/pricefeed_uniswapv3.go:390-395 | the two orientations are reciprocal up to their two floors |
| Twap.SpotAndTickAgree | pkg/positionmanager/pricefeed_uniswapv3.go:360-427 | the integer spot price and the real tick price are one function of the squared root over 2^192, in both orientations |
| Twap.ReadTWAP | pkg/positionmanager/pricefeed_uniswapv3.go:350-354 | the result is the price of the average of the window's ticks |
| Twap.TwapIsContained | pkg/positionmanager/pricefeed_uniswapv3.go:350-354 | ticks within bounds give an average within them and a price between theirs |
| Twap.TwapDampens | pkg/positionmanager/pricefeed_uniswapv3.go:322-323 | one second at any tick moves the average by its change over the window, rounded |
| RateLimiter.TokensAreLeastRoom | pkg/positionmanager/ratelimiter.go:67-84 | the tokens a call finds are the least, over all earlier start points, of burst plus refill less what was admitted since |
| RateLimiter.AdmitsExactlyWhenAllWindowsAllow | pkg/positionmanager/ratelimiter.go:67-84 | a call is admitted if and only if, in every window, burst plus rate times seconds less the number admitted is at least one |
| RateLimiter.WindowBound | pkg/positionmanager/ratelimiter.go:36-84 | between any two calls the number admitted is at most the burst plus the rate times the seconds between them |
| RateLimiter.SleepSuffices | pkg/positionmanager/ratelimiter.go:52-55 | with a positive rate, a refused call that then calls alone gets through if and only if the burst is at least 1 and it slept the deficit over the rate, which the code's sleep misses by less than a nanosecond if it fits a duration |
| RateLimiter.WaitEndsExactlyWhen | pkg/positionmanager/ratelimiter.go:36-64 | with any rate, a refused call can get through at some later time if and only if the rate is positive and the burst at least 1 |
| RateLimiter.RPCRateLimiter.Allow | pkg/positionmanager/ratelimiter.go:67-84 | admits exactly when every window has room, and records the decision |
| RateLimiter.RPCRateLimiter.Wait | pkg/positionmanager/ratelimiter.go:36-64 | for any rate: refused at every reading but possibly the last, sleeping each time for the truncated deficit, or for what the platform makes of one that fits no duration |
| CircuitBreaker.StateIsExplained | pkg/positionmanager/circuitbreaker.go:81-135 | every reachable state is explained by its calls: closed by fewer than the maximum of failures since the last success, open by a failure that tripped it with every later call within the timeout, half-open by a trial without failure |
| CircuitBreaker.AllowedMeans | pkg/positionmanager/circuitbreaker.go:81-99 | a call let through has fewer than the maximum of failures before it or belongs to a trial begun a full timeout after the last failure |
| CircuitBreaker.RefusedMeans | pkg/positionmanager/circuitbreaker.go:81-99 | a refused call comes within the timeout of the latest failure of a tripped breaker |
| CircuitBreaker.ClosingNeedsFullTrial | pkg/positionmanager/circuitbreaker.go:102-116 | nothing closes the breaker but a success, and it takes exactly the configured number since the trial began, with no failure among them |
| CircuitBreaker.OpensExactlyWhen | pkg/positionmanager/circuitbreaker.go:119-135 | a failure leaves the breaker closed if and only if it was and fewer than the maximum have failed in a row, and open otherwise |
| CircuitBreaker.HalfOpenIsUncapped | pkg/positionmanager/circuitbreaker.go:95-97 | once half-open any number of calls is let through |
| CircuitBreaker.Breaker.constructor | pkg/positionmanager/circuitbreaker.go:61-73 | what is not positive is set to 5 failures, 30 seconds and 2 successes |
| CircuitBreaker.Breaker.Allow | pkg/positionmanager/circuitbreaker.go:81-99 | lets a call through exactly when its history says so |
| CircuitBreaker.Breaker.RecordSuccess | pkg/positionmanager/circuitbreaker.go:102-116 | appends a success to the history its state replays |
| CircuitBreaker.Breaker.RecordFailure | pkg/positionmanager/circuitbreaker.go:119-135 | appends a failure to the history its state replays |
| Nonces.NoncesAreUsedOnce | pkg/positionmanager/executor.go:219-243 | over every orderly interleaving no nonce is sent twice, and with nothing outstanding the sent ones have no gap |
| Nonces.RollbackKeepsExactlyWhen | pkg/positionmanager/executor.go:239-243 | a rollback keeps the numbering exact if and only if it returns the last nonce handed out |
| Nonces.EarlyRollbackCollides | pkg/positionmanager/executor.go:239-243 | after any other, the next nonce but one is somebody's already |
| Nonces.ResyncKeepsExactlyWhen | pkg/positionmanager/executor.go:246-257 | a resync keeps it exact if and only if the chain's count is the counter's |
| Nonces.NonceCounter.AcquireNonce | pkg/positionmanager/executor.go:220-236 | hands out the next nonce, starting from the chain's answer, and nothing if the chain fails |
| Nonces.NonceCounter.RollbackNonce | pkg/positionmanager/executor.go:239-243 | sets the counter back to a held nonce |
| Nonces.NonceCounter.ResyncNonce | pkg/positionmanager/executor.go:246-257 | takes the chain's count, or changes nothing if the chain fails |
| SwapExecutor.SwapsExactlyWhen | contracts/SwapExecutorV2.sol:227-394 | a swap goes through if and only if a keeper calls, the amount is positive, the fee is at most 500 basis points, the input is let go in its mode, and contract and pool can pay fee, input and minimum |
| SwapExecutor.SwapUses | contracts/SwapExecutorV2.sol:227-324 | and takes from the approval, the grant or the nonces exactly what its mode uses, leaving all others |
| SwapExecutor.GrantsExactlyWhen | contracts/SwapExecutorV2.sol:251-264 | a grant is replaced, by what the permit says, if and only if a keeper calls with a valid permit |
| SwapExecutor.SwapSettles | contracts/SwapExecutorV2.sol:227-394 | the change of every balance in a swap that goes through, in all three modes; the user gets the minimum, the fee is at most 5% and is the total fee the host is told |
| SwapExecutor.ContractIsUntouchedExactlyWhen | contracts/SwapExecutorV2.sol:269-290 | with an exact-input router the contract's balances are unchanged if and only if the 160-bit cast cut nothing |
| SwapExecutor.ContractKeepsNothing | contracts/SwapExecutorV2.sol:227-394 | over any sequence of calls the contract's balances and its approval of the router are unchanged |
| SwapExecutor.SignatureIsNotReplayed | contracts/SwapExecutorV2.sol:297-324 | given that Permit2 refuses a spent nonce and the contract's calls never free one, after a signed swap no later call with its nonce passes, whatever is called in between |
| SwapExecutor.GrantFollowsDraws | contracts/SwapExecutorV2.sol:269-290 | until granted again, a grant is what was granted less what swaps drew |
| SwapExecutor.SettlesOnlyWhatIsPaid | contracts/SwapExecutorV2.sol:269-290 | holding nothing, the contract settles a swap by grant only if the grant pays the whole amount uncut |
| SwapExecutor.Contract.ExecuteSwap | contracts/SwapExecutorV2.sol:227-243 | settles by direct approval or reverts with nothing written |
| SwapExecutor.Contract.ExecuteSwapViaPermit2 | contracts/SwapExecutorV2.sol:269-290 | settles by a grant, pulling the low 160 bits of the amount, or reverts |
| SwapExecutor.Contract.ExecuteSwapWithSignature | contracts/SwapExecutorV2.sol:297-324 | settles by a signature and spends its nonce, or reverts |
| SwapExecutor.Contract.Settle | contracts/SwapExecutorV2.sol:351-394 | fee, approval and swap, all or nothing |
| SwapExecutor.Contract.ActivatePermit | contracts/SwapExecutorV2.sol:251-264 | a keeper with a valid signature replaces the grant |
| Fees.FeeSplitsExactly | pkg/positionmanager/fees.go:54-81 | the fee is the floor of its part of the amount, platform and referral shares add up to it, the referrer's is the floor of its part if there is a referrer, and exactly when the platform's is not negative |

## Left out

- Overlaps.LateExecution: of operations that overlap, one takes place while the other has read its position and done nothing else, or for an execution activated its permit. Index and store changes that interleave step by step, and three operations at once, are not modelled; the theorems over runs hold for operations one after another.
- OnChain.ChainFollowsRun: what a transaction reported as taking effect did on the chain, and that no other keeper acts for the same owner and token, are hypotheses.
- TriggerEngine.Engine: `Count` is not modelled; it is a statistic that nothing in the manager acts on. Entries are values, so the sharing of price pointers between entries and levels is not captured.
- TriggerEngine.Grow: the capacity Go picks when a slice grows is not modelled, only that there is room.
- PositionManager.Manager.CheckPermitExpiry: the store's listings are a parameter, one after another in any order. The code's loop works on a snapshot, which is the same thing when operations are atomic. The hours in a warning are not modelled.
- PositionManager.Manager.Load: the store's listing is a parameter; subscriptions, worker pools and shutdown are not modelled.
- PositionManager.Manager.HandlePriceUpdate: how many events are sent before the context ends is a parameter. The channel's capacity is not modelled: sending waits.
- PositionManager.Manager.ExecuteTrigger: the three store attempts after a swap are one outcome, as are all ways a swap or an activation can fail, whose receipt may also stay unseen; a missing executor is a chain missing from the configuration; error and execution callbacks, metrics, timestamps, transaction hashes and gas are not modelled. A panic ends the process at once; that other workers may get further in the same instant is not modelled.
- PositionManager.Manager.OpenPosition: the random identifier is a parameter; a store that already holds it refuses the save; nil sizes and prices count as not positive, and a nil entry price is not modelled.
- PermitBudget.StepKeepsPermit: the signer recovered from a signature is given; hashing and signature recovery are not modelled.
- Solvency.NoDebitFallsShort: the owner acts on Permit2 only through permits that the manager activates. Whether Permit2 accepts an activation (its nonce order and expiration) or a debit of an expired allowance is part of the environment's answer.
- Twap.TickToPrice: over exact reals, where the code rounds to 256 bits; ticks are unbounded integers.
- RateLimiter.WindowBound: over exact reals, where the code has 64-bit floats, and for a clock that does not go back.
- RateLimiter.RPCRateLimiter.Wait: the sleep for a deficit that fits no duration is a parameter, as Go leaves the conversion to the platform.
- CircuitBreaker.Breaker.Allow: failures are unbounded integers, and the time of each call is a parameter.
- Nonces.NonceCounter.AcquireNonce: nonces are unbounded, where the code has 64 bits.
- SwapExecutor.SwapSettles: tokens move exactly what is asked and reduce every approval; tokens that charge on transfer or treat the largest approval as unlimited are not modelled. Native ETH, the admin and rescue functions and changes of the keeper list are left out: swaps of positions never use the former, and the latter are single guarded assignments.
- SwapExecutor.Contract.ActivatePermit: Permit2's check of the signature, of the nonce order and of the signature's deadline is one validity flag of the call. Permit2's code is not part of the repository, which declares only its interface.
- SwapExecutor.ContractKeepsNothing: the router takes the whole input; what a partial fill leaves behind is in `ContractIsUntouchedExactlyWhen`.
- MarketSwap, CleanupClosedPositionLocks, the other price feed, subscriptions, gas pricing and configuration presets are not part of this model.
