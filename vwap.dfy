/**
 * The VWAP scheduler: on each timer tick it rolls a fixed-length interval,
 * picks a target from one of three volume curves, and then either creates
 * one passive slice or re-pegs open slices and crosses the spread near the
 * interval's due time.
 */
module Scheduler {
  import opened Orders
  import opened Slices
  import MathUtil

  datatype Option<T> = None | Some(value: T)

  datatype Urgency = Low | Medium | High

  /** An interval is identified by its due time (epoch milliseconds). */
  datatype Interval = Interval(dueTime: int)

  /** Durations in milliseconds: one hour, ten minutes, four hundred seconds. */
  const IntervalLength: int := 3_600_000
  const LowerCurveDelay: int := 600_000
  const UpperCurveAhead: int := 400_000

  /** The order trades between its start and end time, both included. */
  predicate IsActive(o: Order, now: int)
  {
    o.startTime <= now <= o.endTime
  }

  function LowerTargetQuantity(o: Order, profile: int -> real, iv: Interval): real
  {
    profile(iv.dueTime - LowerCurveDelay) * o.quantity
  }

  function DesireTargetQuantity(o: Order, profile: int -> real, iv: Interval): real
  {
    profile(iv.dueTime) * o.quantity
  }

  function UpperTargetQuantity(o: Order, profile: int -> real, iv: Interval): real
  {
    profile(iv.dueTime + UpperCurveAhead) * o.quantity
  }

  /** Low urgency follows the upper curve, medium the desired one, high the upper or lower one. */
  function TargetQuantity(o: Order, profile: int -> real, iv: Interval, urgency: Urgency, done: bool): real
  {
    match urgency
    case Low => UpperTargetQuantity(o, profile, iv)
    case Medium => DesireTargetQuantity(o, profile, iv)
    case High => if done then UpperTargetQuantity(o, profile, iv) else LowerTargetQuantity(o, profile, iv)
  }

  /** How long before the due time crossing starts. */
  function CrossingStartOffset(urgency: Urgency): int
  {
    match urgency
    case Low => IntervalLength / 6
    case Medium => IntervalLength / 3
    case High => IntervalLength / 2
  }

  /** The scheduler's own copy of the side-aware comparison. */
  predicate IsAggressive(isBuy: bool, price1: real, price2: real)
  {
    if isBuy then price1 > price2 else price2 > price1
  }

  /** Same side of the book as the order: the bid for a buy, the ask for a sell. */
  function PassivePrice(o: Order, bid: real, ask: real): real
  {
    if o.isBuy then bid else ask
  }

  /** The opposite side of the book. */
  function FarTouch(o: Order, bid: real, ask: real): real
  {
    if o.isBuy then ask else bid
  }

  predicate NeedsNewInterval(interval: Option<Interval>, now: int)
  {
    interval.None? || now > interval.value.dueTime
  }

  /** The interval in force for this tick: the current one, or a new one due an interval length from now. */
  function NextInterval(interval: Option<Interval>, now: int): Interval
  {
    if NeedsNewInterval(interval, now) then Interval(now + IntervalLength) else interval.value
  }

  predicate CrossingTimeReached(iv: Interval, now: int, urgency: Urgency)
  {
    now > iv.dueTime - CrossingStartOffset(urgency)
  }

  /** An open slice priced more aggressively than the passive touch is moved back to it. */
  function PegSlice(s: Slice, isBuy: bool, touch: real): Slice
  {
    if s.open > 0.0 && IsAggressive(isBuy, s.price, touch) then s.(price := touch) else s
  }

  /** An open slice is repriced to the far touch. */
  function CrossSlice(s: Slice, farTouch: real): Slice
  {
    if s.open > 0.0 then s.(price := farTouch) else s
  }

  function Pegged(m: map<string, Slice>, isBuy: bool, touch: real): map<string, Slice>
  {
    map k | k in m :: PegSlice(m[k], isBuy, touch)
  }

  function Crossed(m: map<string, Slice>, farTouch: real): map<string, Slice>
  {
    map k | k in m :: CrossSlice(m[k], farTouch)
  }

  /** The two repricing loops of a tick. */
  datatype Repricing = Peg(isBuy: bool, touch: real) | Cross(farTouch: real)

  function Reprice(r: Repricing, s: Slice): Slice
  {
    match r
    case Peg(isBuy, touch) => PegSlice(s, isBuy, touch)
    case Cross(farTouch) => CrossSlice(s, farTouch)
  }

  /** The ledger part-way through a repricing loop: the slices under `done` have been repriced. */
  function RepricedOver(m: map<string, Slice>, done: set<string>, r: Repricing): map<string, Slice>
  {
    map k | k in m :: if k in done then Reprice(r, m[k]) else m[k]
  }

  /** One more slice done in a repricing loop is one more entry stored. */
  lemma RepricedOverStep(m: map<string, Slice>, done: set<string>, k: string, r: Repricing)
    requires k in m
    ensures RepricedOver(m, done + {k}, r) == RepricedOver(m, done, r)[k := Reprice(r, m[k])]
  {
  }

  /** Once every open slice is done, the loop has computed the whole repricing. */
  lemma RepricedOverOpen(m: map<string, Slice>, r: Repricing)
    ensures RepricedOver(m, OpenSlices(m).Keys, r)
         == match r
            case Peg(isBuy, touch) => Pegged(m, isBuy, touch)
            case Cross(farTouch) => Crossed(m, farTouch)
  {
  }

  /** Changing nothing but prices keeps the ledger invariant. */
  lemma RepricingKeepsValid(l: Ledger, m: map<string, Slice>)
    requires LedgerValid(l) && m.Keys == l.slices.Keys
    requires forall k :: k in m ==> m[k] == l.slices[k].(price := m[k].price)
    ensures LedgerValid(Ledger(m, l.counter))
  {
  }

  /** The scheduler's own state (the interval) with the ledger it drives. */
  datatype State = State(ledger: Ledger, interval: Option<Interval>)

  /** What the collaborators answer during one tick. */
  datatype TickInput = TickInput(now: int, bid: real, ask: real, urgency: Urgency, done: bool)

  /** The label every slice reference starts with. */
  const SliceLabel: string := "Slice"

  /** The open and filled quantity still to be placed to reach this tick's target. */
  ghost function BehindQty(o: Order, profile: int -> real, st: State, input: TickInput): real
  {
    TargetQuantity(o, profile, NextInterval(st.interval, input.now), input.urgency, input.done)
      - FilledQty(st.ledger.slices) - OpenQty(st.ledger.slices)
  }

  /** The state after one tick. */
  ghost function Tick(o: Order, profile: int -> real, st: State, input: TickInput): State
  {
    if !IsActive(o, input.now) then st
    else if FilledQty(st.ledger.slices) == o.quantity then st
    else
      var iv := NextInterval(st.interval, input.now);
      var behind := BehindQty(o, profile, st, input);
      if behind > o.LotSize() then
        State(AfterEntry(st.ledger, o.RoundDownToLotSize(behind), PassivePrice(o, input.bid, input.ask), SliceLabel),
              Some(iv))
      else
        var pegged := Pegged(st.ledger.slices, o.isBuy, PassivePrice(o, input.bid, input.ask));
        var repriced := if CrossingTimeReached(iv, input.now, input.urgency)
                        then Crossed(pegged, FarTouch(o, input.bid, input.ask)) else pegged;
        State(Ledger(repriced, st.ledger.counter), Some(iv))
  }

  /** What a tick computes when it places a new slice. */
  lemma TickEntryCase(o: Order, profile: int -> real, st: State, input: TickInput, behind: real)
    requires IsActive(o, input.now) && FilledQty(st.ledger.slices) != o.quantity
    requires behind == BehindQty(o, profile, st, input) && behind > o.LotSize()
    ensures Tick(o, profile, st, input)
         == State(AfterEntry(st.ledger, o.RoundDownToLotSize(behind), PassivePrice(o, input.bid, input.ask), SliceLabel),
                  Some(NextInterval(st.interval, input.now)))
  {
  }

  /** What a tick computes when it only reprices. */
  lemma TickRepriceCase(o: Order, profile: int -> real, st: State, input: TickInput, behind: real)
    requires IsActive(o, input.now) && FilledQty(st.ledger.slices) != o.quantity
    requires behind == BehindQty(o, profile, st, input) && behind <= o.LotSize()
    ensures var iv := NextInterval(st.interval, input.now);
      var pegged := Pegged(st.ledger.slices, o.isBuy, PassivePrice(o, input.bid, input.ask));
      Tick(o, profile, st, input)
        == State(Ledger(if CrossingTimeReached(iv, input.now, input.urgency)
                        then Crossed(pegged, FarTouch(o, input.bid, input.ask)) else pegged,
                        st.ledger.counter),
                 Some(iv))
  {
  }

  // ---------------------------------------------------------------------------
  // Properties of one tick.

  /** Outside the trading window a tick changes nothing. */
  lemma TickInactiveIsNoOp(o: Order, profile: int -> real, st: State, input: TickInput)
    requires input.now < o.startTime || input.now > o.endTime
    ensures Tick(o, profile, st, input) == st
  {
  }

  /** Once the filled quantity equals the order quantity exactly, a tick changes nothing. */
  lemma TickFullyFilledIsNoOp(o: Order, profile: int -> real, st: State, input: TickInput)
    requires FilledQty(st.ledger.slices) == o.quantity
    ensures Tick(o, profile, st, input) == st
  {
  }

  /**
   * An active tick replaces the interval exactly when there is none or its
   * due time has strictly passed; the new one is due an hour from now.
   */
  lemma TickRollsInterval(o: Order, profile: int -> real, st: State, input: TickInput)
    requires IsActive(o, input.now) && FilledQty(st.ledger.slices) != o.quantity
    ensures var iv := Tick(o, profile, st, input).interval;
      && (st.interval == None || input.now > st.interval.value.dueTime ==>
            iv == Some(Interval(input.now + 3_600_000)))
      && (st.interval != None && input.now <= st.interval.value.dueTime ==> iv == st.interval)
  {
  }

  /** The three curves are sampled ten minutes before, at, and 400 seconds after the due time. */
  lemma TargetChoice(o: Order, profile: int -> real, iv: Interval, done: bool)
    ensures TargetQuantity(o, profile, iv, Low, done) == profile(iv.dueTime + 400_000) * o.quantity
    ensures TargetQuantity(o, profile, iv, Medium, done) == profile(iv.dueTime) * o.quantity
    ensures TargetQuantity(o, profile, iv, High, done)
         == if done then profile(iv.dueTime + 400_000) * o.quantity
            else profile(iv.dueTime - 600_000) * o.quantity
  {
  }

  /** Crossing starts 10, 20 or 30 minutes before the due time for low, medium and high urgency. */
  lemma CrossingOffsets()
    ensures CrossingStartOffset(Low) == 600_000
    ensures CrossingStartOffset(Medium) == 1_200_000
    ensures CrossingStartOffset(High) == 1_800_000
  {
  }

  /** The scheduler's comparison is the shared one. */
  lemma IsAggressiveAgrees(isBuy: bool, price1: real, price2: real)
    ensures IsAggressive(isBuy, price1, price2) == MathUtil.IsAggressive(isBuy, price1, price2)
  {
  }

  /**
   * When the order is more than one lot behind, the tick adds exactly one
   * new slice, of the shortfall rounded down to whole lots (at least one
   * lot), priced at the passive touch, and touches no stored slice.
   */
  lemma TickCreatesOneSlice(o: Order, profile: int -> real, st: State, input: TickInput)
    requires LedgerValid(st.ledger)
    requires IsActive(o, input.now) && FilledQty(st.ledger.slices) != o.quantity
    requires BehindQty(o, profile, st, input) > o.LotSize()
    ensures var r := Tick(o, profile, st, input);
      var q := o.RoundDownToLotSize(BehindQty(o, profile, st, input));
      var ref := SliceRef(SliceLabel, st.ledger.counter);
      && q >= o.LotSize() && IsLotMultiple(q)
      && ref !in st.ledger.slices
      && r.ledger.slices.Keys == st.ledger.slices.Keys + {ref}
      && r.ledger.slices[ref] == Slice(ref, PassivePrice(o, input.bid, input.ask), q, q, 0.0)
      && (forall k :: k in st.ledger.slices ==> r.ledger.slices[k] == st.ledger.slices[k])
      && r.ledger.counter == st.ledger.counter + 1
      && OpenQty(r.ledger.slices) == OpenQty(st.ledger.slices) + q
  {
    var q := o.RoundDownToLotSize(BehindQty(o, profile, st, input));
    EntryEffect(st.ledger, q, PassivePrice(o, input.bid, input.ask), SliceLabel);
  }

  /**
   * When the order is not more than one lot behind, no slice is created and
   * only prices move: an open slice goes to the far touch once crossing time
   * is reached, otherwise back to the passive touch if it is strictly more
   * aggressive than it; all other slices and every quantity stay as they were.
   */
  lemma TickRepricesOnly(o: Order, profile: int -> real, st: State, input: TickInput)
    requires IsActive(o, input.now) && FilledQty(st.ledger.slices) != o.quantity
    requires BehindQty(o, profile, st, input) <= o.LotSize()
    ensures var r := Tick(o, profile, st, input);
      var m := st.ledger.slices;
      var crossing := CrossingTimeReached(NextInterval(st.interval, input.now), input.now, input.urgency);
      var touch := PassivePrice(o, input.bid, input.ask);
      && r.ledger.counter == st.ledger.counter
      && r.ledger.slices.Keys == m.Keys
      && forall k :: k in m ==>
           r.ledger.slices[k] == m[k].(price :=
             if m[k].open <= 0.0 then m[k].price
             else if crossing then FarTouch(o, input.bid, input.ask)
             else if IsAggressive(o.isBuy, m[k].price, touch) then touch
             else m[k].price)
  {
  }

  /** Crossing after pegging is the same as crossing alone: the cross overrides any peg. */
  lemma CrossOverridesPeg(m: map<string, Slice>, isBuy: bool, touch: real, farTouch: real)
    ensures Crossed(Pegged(m, isBuy, touch), farTouch) == Crossed(m, farTouch)
  {
  }

  /** After a peg no open slice rests more aggressively than the passive touch. */
  lemma PeggedNotAggressive(m: map<string, Slice>, isBuy: bool, touch: real)
    ensures var p := Pegged(m, isBuy, touch);
      forall k :: k in p && p[k].open > 0.0 ==> !IsAggressive(isBuy, p[k].price, touch)
  {
  }

  lemma RepricedTotals(m: map<string, Slice>, r: map<string, Slice>)
    requires r.Keys == m.Keys
    requires forall k :: k in m ==> r[k] == m[k].(price := r[k].price)
    ensures OpenQty(r) == OpenQty(m) && FilledQty(r) == FilledQty(m)
  {
    TotalSame(m, r, Open);
    TotalSame(m, r, Filled);
  }

  /**
   * A tick keeps the ledger invariant, never removes a slice and never
   * changes an existing slice's reference or quantities; the filled total
   * is unchanged and the open total moves only when a slice is created.
   */
  lemma TickKeepsQuantities(o: Order, profile: int -> real, st: State, input: TickInput)
    requires LedgerValid(st.ledger)
    ensures var r := Tick(o, profile, st, input);
      && LedgerValid(r.ledger)
      && st.ledger.slices.Keys <= r.ledger.slices.Keys
      && (forall k :: k in st.ledger.slices ==>
            var s, s' := st.ledger.slices[k], r.ledger.slices[k];
            s'.ref == s.ref && s'.original == s.original && s'.open == s.open && s'.filled == s.filled)
      && FilledQty(r.ledger.slices) == FilledQty(st.ledger.slices)
      && OpenQty(r.ledger.slices) >= OpenQty(st.ledger.slices)
      && (r.ledger.slices.Keys == st.ledger.slices.Keys ==>
            OpenQty(r.ledger.slices) == OpenQty(st.ledger.slices))
  {
    var r := Tick(o, profile, st, input);
    if IsActive(o, input.now) && FilledQty(st.ledger.slices) != o.quantity {
      var behind := BehindQty(o, profile, st, input);
      if behind > o.LotSize() {
        TickCreatesOneSlice(o, profile, st, input);
        EntryEffect(st.ledger, o.RoundDownToLotSize(behind), PassivePrice(o, input.bid, input.ask), SliceLabel);
        var ref := SliceRef(SliceLabel, st.ledger.counter);
        assert ref in r.ledger.slices.Keys;
        TotalAfterPut(st.ledger.slices, ref, r.ledger.slices[ref], Filled);
        assert r.ledger.slices == st.ledger.slices[ref := r.ledger.slices[ref]];
      } else {
        TickRepricesOnly(o, profile, st, input);
        RepricedTotals(st.ledger.slices, r.ledger.slices);
      }
    }
  }

  /** A profile read as a fraction of the day's volume never asks for more than the order. */
  lemma TargetWithinOrder(o: Order, profile: int -> real, iv: Interval, urgency: Urgency, done: bool)
    requires o.quantity >= 0.0
    requires forall t :: 0.0 <= profile(t) <= 1.0
    ensures 0.0 <= TargetQuantity(o, profile, iv, urgency, done) <= o.quantity
  {
    var t := match urgency
      case Low => iv.dueTime + UpperCurveAhead
      case Medium => iv.dueTime
      case High => if done then iv.dueTime + UpperCurveAhead else iv.dueTime - LowerCurveDelay;
    assert TargetQuantity(o, profile, iv, urgency, done) == profile(t) * o.quantity;
    assert profile(t) * o.quantity <= 1.0 * o.quantity;
  }

  /**
   * With a profile between 0 and 1, a tick never commits more than the
   * order quantity: if open plus filled was within it, it stays within it.
   */
  lemma TickNeverOverCommits(o: Order, profile: int -> real, st: State, input: TickInput)
    requires LedgerValid(st.ledger) && o.quantity >= 0.0
    requires forall t :: 0.0 <= profile(t) <= 1.0
    requires OpenQty(st.ledger.slices) + FilledQty(st.ledger.slices) <= o.quantity
    ensures var r := Tick(o, profile, st, input);
      OpenQty(r.ledger.slices) + FilledQty(r.ledger.slices) <= o.quantity
  {
    TickKeepsQuantities(o, profile, st, input);
    if IsActive(o, input.now) && FilledQty(st.ledger.slices) != o.quantity {
      var behind := BehindQty(o, profile, st, input);
      if behind > o.LotSize() {
        TickCreatesOneSlice(o, profile, st, input);
        TargetWithinOrder(o, profile, NextInterval(st.interval, input.now), input.urgency, input.done);
        assert o.RoundDownToLotSize(behind) <= behind;
      }
    }
  }

  // ---------------------------------------------------------------------------
  // The scheduler object.

  class Vwap {
    const order: Order
    const volumeProfile: int -> real
    const sliceManager: SliceManager
    var interval: Option<Interval>

    constructor (volumeProfile: int -> real, order: Order, sliceManager: SliceManager)
      ensures this.order == order && this.volumeProfile == volumeProfile
      ensures this.sliceManager == sliceManager && interval == None
    {
      this.order := order;
      this.volumeProfile := volumeProfile;
      this.sliceManager := sliceManager;
      interval := None;
    }

    function Snapshot(): State
      reads this, sliceManager
    {
      State(sliceManager.Model(), interval)
    }

    /** One scheduling tick; `now`, the quotes and the parameters are what the collaborators answer. */
    method Run(now: int, bid: real, ask: real, urgency: Urgency, done: bool)
      requires sliceManager.Valid()
      modifies this, sliceManager
      ensures sliceManager.Valid()
      ensures Snapshot() == Tick(order, volumeProfile, old(Snapshot()), TickInput(now, bid, ask, urgency, done))
    {
      ghost var st := Snapshot();
      ghost var input := TickInput(now, bid, ask, urgency, done);
      if !IsActive(order, now) {
        TickInactiveIsNoOp(order, volumeProfile, st, input);
        return;
      }
      var filledQty := sliceManager.GetFilledQty();
      if filledQty == order.quantity {
        TickFullyFilledIsNoOp(order, volumeProfile, st, input);
        return;
      }

      if NeedsNewInterval(interval, now) {
        interval := Some(Interval(now + IntervalLength));
      }
      var iv := interval.value;
      assert iv == NextInterval(st.interval, now);

      filledQty := sliceManager.GetFilledQty();
      var openQty := sliceManager.GetOpenQty();
      var target := TargetQuantity(order, volumeProfile, iv, urgency, done);
      var behindQty := target - filledQty - openQty;
      assert behindQty == BehindQty(order, volumeProfile, st, input);

      if behindQty > order.LotSize() {
        var sliceQty := order.RoundDownToLotSize(behindQty);
        var slicePrice := PassivePrice(order, bid, ask);
        TickEntryCase(order, volumeProfile, st, input, behindQty);
        sliceManager.Entry(sliceQty, slicePrice, SliceLabel);
        return;
      }

      var touch := PassivePrice(order, bid, ask);
      TickRepriceCase(order, volumeProfile, st, input, behindQty);
      PegOpenSlices(touch);
      if CrossingTimeReached(iv, now, urgency) {
        CrossOpenSlices(FarTouch(order, bid, ask));
      }
    }

    /** The peg loop of a tick: open slices more aggressive than the passive touch go back to it. */
    method PegOpenSlices(touch: real)
      requires sliceManager.Valid()
      modifies sliceManager
      ensures sliceManager.Valid()
      ensures sliceManager.Model() == Ledger(Pegged(old(sliceManager.slices), order.isBuy, touch), old(sliceManager.counter))
    {
      ghost var s0 := sliceManager.slices;
      ghost var peg := Peg(order.isBuy, touch);
      var openSlices := sliceManager.GetOpenSlice();
      var rest := openSlices.Keys;
      ghost var done: set<string> := {};
      while rest != {}
        invariant rest <= openSlices.Keys && done == openSlices.Keys - rest
        invariant sliceManager.counter == old(sliceManager.counter)
        invariant sliceManager.slices == RepricedOver(s0, done, peg)
        decreases rest
      {
        var k :| k in rest;
        var slice := openSlices[k];
        assert slice == s0[k] && slice.open > 0.0;
        RepricedOverStep(s0, done, k, peg);
        if IsAggressive(order.isBuy, slice.price, touch) {
          sliceManager.Amend(slice, touch);
        } else {
          assert Reprice(peg, slice) == slice;
        }
        rest := rest - {k};
        done := done + {k};
      }
      RepricedOverOpen(s0, peg);
      RepricingKeepsValid(Ledger(s0, sliceManager.counter), sliceManager.slices);
    }

    /** The cross loop of a tick: every open slice goes to the far touch. */
    method CrossOpenSlices(farTouch: real)
      requires sliceManager.Valid()
      modifies sliceManager
      ensures sliceManager.Valid()
      ensures sliceManager.Model() == Ledger(Crossed(old(sliceManager.slices), farTouch), old(sliceManager.counter))
    {
      ghost var s1 := sliceManager.slices;
      ghost var cross := Cross(farTouch);
      var openSlices := sliceManager.GetOpenSlice();
      var rest := openSlices.Keys;
      ghost var done: set<string> := {};
      while rest != {}
        invariant rest <= openSlices.Keys && done == openSlices.Keys - rest
        invariant sliceManager.counter == old(sliceManager.counter)
        invariant sliceManager.slices == RepricedOver(s1, done, cross)
        decreases rest
      {
        var k :| k in rest;
        assert openSlices[k] == s1[k] && s1[k].open > 0.0;
        RepricedOverStep(s1, done, k, cross);
        sliceManager.Amend(openSlices[k], farTouch);
        rest := rest - {k};
        done := done + {k};
      }
      RepricedOverOpen(s1, cross);
      RepricingKeepsValid(Ledger(s1, sliceManager.counter), sliceManager.slices);
    }
  }
}
