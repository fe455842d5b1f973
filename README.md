# VWAP order slicer — a Dafny model

This project models the core of a small VWAP (volume-weighted average price)
execution algorithm. A parent order has a start time, an end time, a quantity,
a limit and a side. It is worked by slicing it into child orders ("slices")
on every timer tick.

On each tick the scheduler (`Vwap.run`) does the following:

- It does nothing outside the order's trading window, or once the filled
  quantity equals the order quantity exactly.
- It rolls a one-hour interval when there is none or when its due time has
  passed.
- It reads a target from one of three volume curves: the lower curve is read
  ten minutes before the due time, the desired curve at the due time, and the
  upper curve 400 seconds after it. Which one depends on the urgency and on
  the "get done" flag.
- When the order is more than one lot behind that target, it sends exactly
  one new slice at the passive touch, sized to the shortfall rounded down to
  whole lots.
- Otherwise it pegs every open slice that rests more aggressively than the
  passive touch back to that touch. Once crossing time is reached (10, 20 or
  30 minutes before the due time), it moves every open slice to the far
  touch.

The slice ledger (`SliceManager`) has these parts:

- It keeps slices in a map keyed by reference. References are numbered
  `"Slice 1"`, `"Slice 2"`, … from a counter.
- It sums open and filled quantities over the map.
- It amends prices and records absolute fills.
- It computes the fill-weighted average price with the same running formula
  the trade tracker (`VolumeTracker`) uses for its benchmark price.

## How the model is built

| Dafny module | file | models |
|---|---|---|
| `Orders` | order.dfy | the order record and rounding to lot size |
| `MathUtil` | mathutil.dfy | the aggressiveness comparisons |
| `LinearProfiles` | linear_profile.dfy | the linear volume curve |
| `Weighted` | weighted.dfy | the running weighted average shared by the ledger and the tracker |
| `VolumeTracking` | volume_tracker.dfy | the benchmark tracker, as a class |
| `Slices` | slice_manager.dfy | slices, references and ledger sums, and the slice ledger as a class |
| `Scheduler` | vwap.dfy | one tick as a function `Tick`, and the scheduler class whose `Run` is proved to compute it |
| `Scenarios` | scenarios.dfy | concrete ticks of a 100000-share buy order over a seven-hour linear curve |

- **Numbers.**
  - Quantities and prices are `real`.
  - Times are `int` milliseconds, so the 3600-second interval becomes
    `3_600_000`.
  - `Double.compare(a, b) > 0` becomes `a > b`.
- **Remainder.** Java's `%` on doubles truncates toward zero. It is written
  out with `Truncate`, so `RoundDownToLotSize` also agrees with the source
  for negative shortfalls.
- **Non-finite averages.** A running average that divides by a zero total
  becomes NaN or an infinity in Java, and stays non-finite forever after.
  `Weighted.Ratio` models this with a `NonFinite` value that absorbs.
- **HashMap iteration.** The source iterates over a HashMap in an order it
  does not specify. The model's loops take an arbitrary remaining key (`:|`).
  `GetAvgFilledPrice` returns the order it visited as a ghost `visitOrder`,
  and its result is stated for that order.
- **Collaborators.** The clock, the order book and the parameters are
  collaborators, so a tick takes them as inputs: `now`, `bid`, `ask`,
  `urgency` and `done`. The volume profile is a function `int -> real`.
- **Amend and fill.** `amend` and `fill` call `slices.remove(slice)`, which
  removes a `Slice` object from a `String`-keyed map. That call removes
  nothing, and the following `put` under `slice.getSliceRef()` overwrites the
  entry. The model stores the passed slice, changed, under its reference.

### Behaviour worth knowing

- **The first tick already trades.** Take the first tick at the order
  start, with high urgency and without the get-done flag. It reads the lower
  curve at the new interval's due time minus ten minutes, which is 50
  minutes into the window. So the first tick of a 100000-share order over
  seven hours sends a slice of 11900 (`Scenarios.FirstTickAtStart`). With
  the get-done flag set, it reads the upper curve 4000 seconds into the
  window and sends 15800 (`Scenarios.FirstTickAtStartGetDone`).
- **Targets look one interval ahead.** Take the first tick, on an empty
  ledger with no interval yet, with medium urgency 3.5 hours into the
  window. It opens an interval due one hour later and reads the desired
  curve there. So the same order gets a slice of 64200, not half of the
  order (`Scenarios.MediumTickAtMidday`).
- **The peg only pulls back.** A slice is re-pegged only when it is
  strictly more aggressive than the passive touch
  (`isAggressive(isBuy, slicePrice, touch)`). So a buy slice at 10.0 stays
  at 10.0 when the bid rises to 10.05, and moves to 9.9 when the bid falls
  to 9.9 (`Scenarios.PegOnlyPullsBack`).

## Model

| member | source | states |
|---|---|---|
| Orders.Order.RoundDownToLotSize | src/main/java/order/Order.java:53-55 | the result is a whole number of lots; for a non-negative amount it lies in [0, x] and is less than one lot below x; for a non-positive amount it lies in [x, 0] and is less than one lot above x (truncating remainder); above one lot it is at least one lot |
| Orders.Truncate | src/main/java/order/Order.java:54 | truncation toward zero: the integer part lies within one of its argument, on the side of zero |
| Orders.RoundDownIdempotent | src/main/java/order/Order.java:53-55 | rounding leaves whole lots unchanged, so rounding twice is rounding once |
| MathUtil.AggressiveIrreflexive | src/main/java/util/MathUtil.java:5-15 | no price is more aggressive than itself, and every price is aggressive-or-equal to itself |
| MathUtil.AggressiveImpliesOrEqual | src/main/java/util/MathUtil.java:5-15 | strictly aggressive implies aggressive-or-equal |
| MathUtil.AggressiveSideSymmetry | src/main/java/util/MathUtil.java:5-15 | a buy comparison is the sell comparison with the prices swapped |
| MathUtil.AggressiveDuality | src/main/java/util/MathUtil.java:5-15 | aggressive-or-equal is exactly "the other price is not strictly aggressive" |
| LinearProfiles.LinearProfile.GetVolume | src/main/java/volume/LinearProfile.java:16-26 | 0 up to and at the start, 1 from the end on, otherwise the elapsed fraction of the window; always within [0, 1] |
| LinearProfiles.GetVolumeMonotone | src/main/java/volume/LinearProfile.java:16-26 | the cumulative curve never decreases over time |
| LinearProfiles.GetVolumeMidpoint | src/main/java/volume/LinearProfile.java:25 | half-way through the window the curve is 0.5 |
| Weighted.Accumulate | src/main/java/slice/SliceManager.java:131-132 | one step of the running average is finite exactly when the previous average was finite and the new total is not zero |
| Weighted.AccumulateBalances | src/main/java/slice/SliceManager.java:131-132 | a finite step balances: new average times new total equals the old notional plus price times weight |
| Weighted.ReplayVolume | src/main/java/volume/VolumeTracker.java:23 | the running total after any sequence of samples is the sum of their weights |
| Weighted.ReplayIsVwap | src/main/java/slice/SliceManager.java:121-136 | with positive weights the running average is total notional over total weight |
| Weighted.FirstSample | src/main/java/volume/VolumeTracker.java:20-21 | a first sample of non-zero weight sets the average to its own price and the total to its weight |
| Weighted.SumPermutation | src/main/java/slice/SliceManager.java:126-134 | sums of weights and notionals do not depend on the order of the samples |
| Weighted.ReplayOrderIndependent | src/main/java/slice/SliceManager.java:126-134 | the running total never depends on the order, and with positive weights neither does the average |
| Weighted.ReplayWithinPrices | src/main/java/slice/SliceManager.java:121-136 | with positive weights the average is finite and lies between the lowest and highest price |
| Weighted.AverageBetween | src/main/java/slice/SliceManager.java:121-136 | notional over weight lies within the price bounds |
| Weighted.ReplayZeroWeights | src/main/java/slice/SliceManager.java:131-132 | a non-empty run of zero weights leaves the total at 0 and makes the average non-finite |
| Weighted.NonZero | src/main/java/slice/SliceManager.java:126-134 | the samples kept for the corrected average all have non-zero weight and are no more than the input |
| Weighted.NonZeroPositive | src/main/java/slice/SliceManager.java:126-134 | with non-negative weights, the kept samples have positive weights |
| Weighted.NonZeroSums | src/main/java/slice/SliceManager.java:126-134 | dropping zero-weight samples changes neither total weight nor total notional |
| Weighted.SkippedAverage | src/main/java/slice/SliceManager.java:121-136 | skipping zero weights, the average is notional over weight when anything weighs, and 0 otherwise; never non-finite |
| VolumeTracking.VolumeTracker.constructor | src/main/java/volume/VolumeTracker.java:5-8 | a new tracker has benchmark price 0, volume 0 and no trades |
| VolumeTracking.VolumeTracker.GetBenchmarkPrice | src/main/java/volume/VolumeTracker.java:12-14 | the benchmark is the running average over all trades seen, in arrival order |
| VolumeTracking.VolumeTracker.OnTradeEvent | src/main/java/volume/VolumeTracker.java:17-24 | the trade is appended, the benchmark takes one accumulation step, and the volume grows by the trade size and equals the sum of all trade sizes |
| Slices.NatToStringDigits | src/main/java/slice/SliceManager.java:39 | the decimal rendering of the counter is non-empty and made of digits only |
| Slices.ParseNatToString | src/main/java/slice/SliceManager.java:39 | reading the decimal rendering back gives the number |
| Slices.RefCounterOfSliceRef | src/main/java/slice/SliceManager.java:39 | a reference `prefix + " " + counter` gives back its counter whatever the prefix, so distinct counters give distinct references |
| Slices.TotalOverRemove | src/main/java/slice/SliceManager.java:21-35 | a ledger sum can take out any one slice first: the sum does not depend on the map's order |
| Slices.TotalAfterPut | src/main/java/slice/SliceManager.java:21-35 | storing a slice under a reference replaces that reference's contribution to a sum |
| Slices.OpenSlices | src/main/java/slice/SliceManager.java:80-85 | exactly the stored slices with positive open quantity, unchanged |
| Slices.EntryRefFresh | src/main/java/slice/SliceManager.java:39 | the next reference is never already in use in a valid ledger |
| Slices.EntryEffect | src/main/java/slice/SliceManager.java:37-73 | a positive quantity adds exactly one fresh, unfilled slice and raises the open total by it; otherwise no slice is added; the counter advances either way; no stored slice changes; the invariant holds |
| Slices.AmendEffect | src/main/java/slice/SliceManager.java:87-119 | amending changes one slice's price and nothing else: same references, same quantities, same totals, the invariant holds |
| Slices.FillEffect | src/main/java/slice/SliceManager.java:139-172 | a fill sets the slice's absolute filled quantity, its remaining open quantity and its price, keeps it consistent, moves the filled and open totals by the differences, and touches no other slice |
| Slices.OpenSlicesCarryOpenQty | src/main/java/slice/SliceManager.java:80-85 | while no open quantity is negative, the open slices carry all of the open total |
| Slices.EnumeratesInit | src/main/java/slice/SliceManager.java:126 | dropping the last visited slice leaves an enumeration of the other slices |
| Slices.ReplayFillStep | src/main/java/slice/SliceManager.java:131-133 | one more visited slice is one running-average step with its price and filled quantity |
| Slices.ReplayNonZeroFillStep | src/main/java/slice/SliceManager.java:126-134 | in the corrected average, one more slice is one step when it has a fill and no change otherwise |
| Slices.FillSamplesSum | src/main/java/slice/SliceManager.java:126-134 | over an enumeration of the slices, the samples' total weight and notional are the ledger's filled quantity and filled notional |
| Slices.AvgFilledPriceOutcomes | src/main/java/slice/SliceManager.java:121-136 | the visit-order average is 0 for an empty ledger, filled notional over filled quantity when every slice is filled, non-finite when none is |
| Slices.AvgFilledPriceDependsOnOrder | src/main/java/slice/SliceManager.java:126-134 | for one unfilled and one filled slice the average is non-finite in one visiting order and 10.1 in the other |
| Slices.TwoSlicesValid | src/main/java/slice/SliceManager.java:37-73 | that two-slice ledger satisfies the ledger invariant |
| Slices.TwoSlicesReachable | src/main/java/slice/SliceManager.java:37-172 | that two-slice ledger is reached from the empty ledger by entry, entry and fill |
| Slices.SkippedAvgFilledPrice | src/main/java/slice/SliceManager.java:121-136 | the corrected average is filled notional over filled quantity, or 0 when nothing is filled, in every visiting order |
| Slices.SliceManager.constructor | src/main/java/slice/SliceManager.java:14-19 | an empty ledger with the counter at 1 |
| Slices.SliceManager.GetOpenQty | src/main/java/slice/SliceManager.java:21-27 | the sum of all stored open quantities |
| Slices.SliceManager.GetFilledQty | src/main/java/slice/SliceManager.java:29-35 | the sum of all stored filled quantities |
| Slices.SliceManager.SumOf | src/main/java/slice/SliceManager.java:21-35 | folding the map in any order gives the ledger sum |
| Slices.SliceManager.Entry | src/main/java/slice/SliceManager.java:37-73 | the new state is the entry of the ledger value (see EntryEffect), and the invariant holds |
| Slices.SliceManager.Amend | src/main/java/slice/SliceManager.java:87-119 | the new state is the amend of the ledger value, and amending a stored slice keeps the invariant |
| Slices.SliceManager.Fill | src/main/java/slice/SliceManager.java:139-172 | the new state is the fill of the ledger value, and filling a stored slice keeps the invariant |
| Slices.SliceManager.GetAvgFilledPrice | src/main/java/slice/SliceManager.java:121-136 | the running average over the slices in the order visited, each exactly once; 0 when empty, the VWAP of fills when every slice is filled, non-finite when none is |
| Slices.SliceManager.GetAvgFilledPriceOfFills | src/main/java/slice/SliceManager.java:121-136 | the corrected average: with non-negative fills, filled notional over filled quantity or 0, independent of the visiting order |
| Scheduler.TickEntryCase | src/main/java/model/Vwap.java:133-140 | a tick more than one lot behind is one entry of the rounded shortfall at the passive touch |
| Scheduler.TickRepriceCase | src/main/java/model/Vwap.java:142-162 | a tick not more than one lot behind is a peg, then a cross if crossing time is reached, with the counter unchanged |
| Scheduler.TickInactiveIsNoOp | src/main/java/model/Vwap.java:108-110 | outside the trading window a tick changes nothing, not even the interval |
| Scheduler.TickFullyFilledIsNoOp | src/main/java/model/Vwap.java:112-114 | once the filled total equals the order quantity a tick changes nothing |
| Scheduler.TickRollsInterval | src/main/java/model/Vwap.java:120-124 | an active tick starts an interval due an hour from now exactly when there is none or the old one's due time has strictly passed |
| Scheduler.TargetChoice | src/main/java/model/Vwap.java:205-217 | low urgency reads the upper curve, medium the desired curve, high the upper curve if "done" and the lower curve otherwise, at the due time shifted by +400 s, 0 or −600 s |
| Scheduler.CrossingOffsets | src/main/java/model/Vwap.java:190-202 | crossing starts a sixth, a third or half of the hour before the due time |
| Scheduler.IsAggressiveAgrees | src/main/java/model/Vwap.java:176-180 | the scheduler's private comparison is the shared one |
| Scheduler.TickCreatesOneSlice | src/main/java/model/Vwap.java:126-140 | more than one lot behind, a tick adds exactly one fresh slice of whole lots, at least one lot, at the passive touch, and changes no stored slice |
| Scheduler.TickRepricesOnly | src/main/java/model/Vwap.java:142-162 | otherwise only prices move: open slices go to the far touch once crossing time is reached, else back to the passive touch when strictly more aggressive; fully filled slices and all quantities stay |
| Scheduler.CrossOverridesPeg | src/main/java/model/Vwap.java:152-162 | crossing after pegging equals crossing alone |
| Scheduler.PeggedNotAggressive | src/main/java/model/Vwap.java:144-150 | after a peg no open slice rests more aggressively than the passive touch |
| Scheduler.RepricedTotals | src/main/java/model/Vwap.java:142-162 | repricing changes neither the open nor the filled total |
| Scheduler.RepricingKeepsValid | src/main/java/slice/SliceManager.java:87-119 | changing only prices of stored slices keeps the ledger invariant |
| Scheduler.TickKeepsQuantities | src/main/java/model/Vwap.java:105-166 | a tick keeps the ledger invariant, never removes a slice or changes its reference or quantities, keeps the filled total, and raises the open total only when it creates a slice |
| Scheduler.TargetWithinOrder | src/main/java/model/Vwap.java:80-90 | with a curve within [0, 1] every target lies between 0 and the order quantity |
| Scheduler.TickNeverOverCommits | src/main/java/model/Vwap.java:126-140 | with such a curve, if open plus filled is within the order quantity before a tick, it is within it after |
| Scheduler.Vwap.constructor | src/main/java/model/Vwap.java:47-64 | the scheduler holds the order, curve and ledger it was given, with no interval yet |
| Scheduler.Vwap.Run | src/main/java/model/Vwap.java:105-166 | one run keeps the ledger invariant and moves the scheduler and its ledger to exactly the state `Tick` gives for the old state and the collaborators' answers |
| Scheduler.Vwap.PegOpenSlices | src/main/java/model/Vwap.java:144-150 | the peg loop leaves exactly the pegged ledger, counter unchanged, invariant kept |
| Scheduler.Vwap.CrossOpenSlices | src/main/java/model/Vwap.java:154-162 | the cross loop leaves exactly the crossed ledger, counter unchanged, invariant kept |
| Scenarios.EmptyTotals | src/main/java/slice/SliceManager.java:21-35 | an empty ledger has open and filled totals of 0 |
| Scenarios.FirstTickAtStart | src/main/java/model/Vwap.java:126-140 | at the start, high urgency without "done": one slice "Slice 1" of 11900 at the bid, interval due an hour later |
| Scenarios.FirstTickAtStartGetDone | src/main/java/model/Vwap.java:205-217 | at the start, high urgency with the get-done flag: the upper curve is read, and one slice "Slice 1" of 15800 goes out at the bid |
| Scenarios.MediumTickAtMidday | src/main/java/model/Vwap.java:126-140 | half-way in, on an empty ledger with no interval yet, medium urgency: one slice of 64200 at the bid |
| Scenarios.RestingTotals | src/main/java/slice/SliceManager.java:21-35 | the resting one-slice ledger has open 11900 and filled 0 |
| Scenarios.PegOnlyPullsBack | src/main/java/model/Vwap.java:144-150 | a rising bid (10.05) leaves a slice at 10.0 alone; a falling bid (9.9) pulls it down to 9.9 |
| Scenarios.AvgFilledPriceAfterFirstTick | src/main/java/slice/SliceManager.java:121-136 | the ledger after the first tick holds one unfilled slice, and the average fill price of that ledger is non-finite in every visiting order |
| Scenarios.CrossAfterOffset | src/main/java/model/Vwap.java:152-162 | after crossing time the resting slice ends at the ask: it stays at 10.0 (though the peg alone would take it to 9.9), or goes up to 10.3 |

## Left out

- Logging, `printInfo` and `Formatter`: output only, and they change no state.
- `MathUtil.getRandomIntegerBetweenRange` and `getRandomDoubleBetweenRange`: random helpers the core never calls.
- The `TimerTask` scheduling thread and any concurrency: a tick is one atomic call of `Run`.
- Floating-point rounding: quantities and prices are exact reals. NaN and the infinities are collapsed into one absorbing `NonFinite` value. Negative zero is not modelled.
- `Double.compare` on NaN operands: compared quantities are always finite sums here.
- The Java `int` counter's wrap-around after 2^31 − 1 slices: the counter is a `nat`.
- `Instant` precision finer than one millisecond.
- The order's `limit` and `getTickSize`: they are kept on the order record, but nothing in the core reads them.
- The parameter's `maxPct` and the scheduler's `volumeTracker`, `timerService` and `orderBook` fields: nothing reads them, or they become tick inputs.
- `SliceManager.onSliceFill`: an empty stub.
- The end-to-end simulation in `VwapTest.testVwap` (src/test/java/model/VwapTest.java:112-144): it is a loop over thousands of ticks with a simulated venue. The model proves the per-tick properties it relies on instead: `TickNeverOverCommits` and `TickKeepsQuantities`.
- Scheduler.Vwap.Run: reads the clock, the bid and the ask once per tick. The source reads the clock twice, once in `isActive` (src/main/java/model/Vwap.java:68) and again before rolling the interval (src/main/java/model/Vwap.java:116). A clock that moves between the two reads is not modelled: at the window edge the source can pass the activity check at `endTime` and then build the interval from a later time. The source also asks the order book again in every pass of the peg and cross loops, so a quote that moves in the middle of a loop is not modelled either.
- Scheduler.Vwap.PegOpenSlices: the iteration order of the open-slice list is abstracted as an arbitrary order. The result does not depend on it.
- Slices.SliceManager.GetAvgFilledPrice: the visiting order of the HashMap is an arbitrary order returned as a ghost value. The model does not say which order a JVM picks.

## Findings

| source | as written | input that shows it | evidently intended | confidence | as-written member | corrected member |
|---|---|---|---|---|---|---|
| src/main/java/slice/SliceManager.java:131-132 | every slice takes a running-average step, including slices with no fill; while every slice visited so far is unfilled the step divides 0 by 0, and the NaN persists through every later step | the ledger right after the first tick of an order, which holds one unfilled slice: the average is NaN in every visiting order. With an unfilled "Slice 1" at 10.0 and a filled "Slice 2" at 10.1 (100 shares), the result depends on which slice the HashMap yields first: NaN or 10.1 | the fill-weighted average of the filled slices (0 when nothing is filled), whatever the map order | not executed | Slices.SliceManager.GetAvgFilledPrice, Scenarios.AvgFilledPriceAfterFirstTick, Slices.AvgFilledPriceDependsOnOrder | Slices.SliceManager.GetAvgFilledPriceOfFills, Slices.SkippedAvgFilledPrice |
