/**
 * Concrete ticks of a 100000-share buy order over a seven-hour window with a
 * linear volume curve over the same window (times in milliseconds from an
 * arbitrary start `t0`).
 */
module Scenarios {
  import opened Orders
  import opened Slices
  import opened LinearProfiles
  import opened Scheduler
  import opened Weighted

  const Window: int := 25_200_000

  function BuyOrder(t0: int): Order
  {
    Order(t0, t0 + Window, 100000.0, 10.0, true)
  }

  function Curve(t0: int): int -> real
  {
    t => LinearProfile(t0, t0 + Window).GetVolume(t)
  }

  lemma EmptyTotals()
    ensures OpenQty(map[]) == 0.0 && FilledQty(map[]) == 0.0
  {
  }

  /**
   * At the order start with high urgency and no completion flag, the lower
   * curve is read ten minutes before the new interval's due time, i.e. 50
   * minutes into the window: 5/42 of the order, so one slice of 11900 goes
   * out at the bid.
   */
  lemma FirstTickAtStart(t0: int, bid: real, ask: real)
    ensures Tick(BuyOrder(t0), Curve(t0), State(Ledger(map[], 1), None), TickInput(t0, bid, ask, High, false))
         == State(Ledger(map["Slice 1" := Slice("Slice 1", bid, 11900.0, 11900.0, 0.0)], 2),
                  Some(Interval(t0 + 3_600_000)))
  {
    var o := BuyOrder(t0);
    var st := State(Ledger(map[], 1), None);
    var input := TickInput(t0, bid, ask, High, false);
    EmptyTotals();
    assert Curve(t0)(t0 + 3_000_000) == 5.0 / 42.0;
    var behind := BehindQty(o, Curve(t0), st, input);
    assert behind == 500000.0 / 42.0;
    assert Truncate(behind / 100.0) == 119;
    assert o.RoundDownToLotSize(behind) == 11900.0;
    assert SliceRef(SliceLabel, 1) == "Slice 1";
  }

  /**
   * With the get-done flag set, high urgency reads the upper curve 400
   * seconds after the due time, 4000 seconds into the window: 10/63 of the
   * order, so the first slice is 15800.
   */
  lemma FirstTickAtStartGetDone(t0: int, bid: real, ask: real)
    ensures Tick(BuyOrder(t0), Curve(t0), State(Ledger(map[], 1), None), TickInput(t0, bid, ask, High, true))
         == State(Ledger(map["Slice 1" := Slice("Slice 1", bid, 15800.0, 15800.0, 0.0)], 2),
                  Some(Interval(t0 + 3_600_000)))
  {
    var o := BuyOrder(t0);
    var st := State(Ledger(map[], 1), None);
    var input := TickInput(t0, bid, ask, High, true);
    EmptyTotals();
    assert Curve(t0)(t0 + 4_000_000) == 10.0 / 63.0;
    var behind := BehindQty(o, Curve(t0), st, input);
    assert behind == 1000000.0 / 63.0;
    assert Truncate(behind / 100.0) == 158;
    assert o.RoundDownToLotSize(behind) == 15800.0;
    assert SliceRef(SliceLabel, 1) == "Slice 1";
  }

  /**
   * Half-way through the window with medium urgency, the desired curve is
   * read at the due time one hour later (4.5 of 7 hours: 9/14 of the
   * order), so the slice is 64200, not half of the order.
   */
  lemma MediumTickAtMidday(t0: int, bid: real, ask: real)
    ensures Tick(BuyOrder(t0), Curve(t0), State(Ledger(map[], 1), None),
                 TickInput(t0 + 12_600_000, bid, ask, Medium, false))
         == State(Ledger(map["Slice 1" := Slice("Slice 1", bid, 64200.0, 64200.0, 0.0)], 2),
                  Some(Interval(t0 + 16_200_000)))
  {
    var o := BuyOrder(t0);
    var st := State(Ledger(map[], 1), None);
    var input := TickInput(t0 + 12_600_000, bid, ask, Medium, false);
    EmptyTotals();
    assert Curve(t0)(t0 + 16_200_000) == 9.0 / 14.0;
    var behind := BehindQty(o, Curve(t0), st, input);
    assert behind == 900000.0 / 14.0;
    assert Truncate(behind / 100.0) == 642;
    assert o.RoundDownToLotSize(behind) == 64200.0;
    assert SliceRef(SliceLabel, 1) == "Slice 1";
  }

  /** The ledger after the first tick, with the slice resting at 10.0. */
  function Resting(t0: int): State
  {
    State(Ledger(map["Slice 1" := Slice("Slice 1", 10.0, 11900.0, 11900.0, 0.0)], 2),
          Some(Interval(t0 + 3_600_000)))
  }

  lemma RestingTotals(t0: int)
    ensures OpenQty(Resting(t0).ledger.slices) == 11900.0
    ensures FilledQty(Resting(t0).ledger.slices) == 0.0
  {
    var s := Slice("Slice 1", 10.0, 11900.0, 11900.0, 0.0);
    TotalAfterPut(map[], "Slice 1", s, Open);
    TotalAfterPut(map[], "Slice 1", s, Filled);
  }

  /**
   * Before crossing time (30 minutes before due for high urgency), with the
   * order less than a lot behind: a bid that rises above the slice leaves it
   * where it is, a bid that falls below it pulls the slice down to the bid.
   */
  lemma PegOnlyPullsBack(t0: int)
    ensures Tick(BuyOrder(t0), Curve(t0), Resting(t0), TickInput(t0 + 1_000_000, 10.05, 10.1, High, false))
         == Resting(t0)
    ensures Tick(BuyOrder(t0), Curve(t0), Resting(t0), TickInput(t0 + 1_000_000, 9.9, 10.0, High, false))
         == State(Ledger(map["Slice 1" := Slice("Slice 1", 9.9, 11900.0, 11900.0, 0.0)], 2),
                  Some(Interval(t0 + 3_600_000)))
  {
    RestingTotals(t0);
    assert Curve(t0)(t0 + 3_000_000) == 5.0 / 42.0;
    var m := Resting(t0).ledger.slices;
    assert Pegged(m, true, 10.05) == m;
    assert Pegged(m, true, 9.9) == map["Slice 1" := Slice("Slice 1", 9.9, 11900.0, 11900.0, 0.0)];
  }

  /** Once crossing time is reached the open slice is repriced to the ask. */
  lemma CrossAfterOffset(t0: int)
    ensures Tick(BuyOrder(t0), Curve(t0), Resting(t0), TickInput(t0 + 2_000_000, 9.9, 10.0, High, false))
         == State(Ledger(map["Slice 1" := Slice("Slice 1", 10.0, 11900.0, 11900.0, 0.0)], 2),
                  Some(Interval(t0 + 3_600_000)))
    ensures Tick(BuyOrder(t0), Curve(t0), Resting(t0), TickInput(t0 + 2_000_000, 10.2, 10.3, High, false))
         == State(Ledger(map["Slice 1" := Slice("Slice 1", 10.3, 11900.0, 11900.0, 0.0)], 2),
                  Some(Interval(t0 + 3_600_000)))
  {
    RestingTotals(t0);
    assert Curve(t0)(t0 + 3_000_000) == 5.0 / 42.0;
    var m := Resting(t0).ledger.slices;
    CrossOverridesPeg(m, true, 9.9, 10.0);
    CrossOverridesPeg(m, true, 10.2, 10.3);
    assert Crossed(m, 10.0) == m;
    assert Crossed(m, 10.3) == map["Slice 1" := Slice("Slice 1", 10.3, 11900.0, 11900.0, 0.0)];
  }

  /**
   * Right after the first tick the ledger holds one unfilled slice, and the
   * average fill price as written is non-finite in every visiting order.
   */
  lemma AvgFilledPriceAfterFirstTick(t0: int, refs: seq<string>)
    requires Enumerates(refs, Resting(t0).ledger.slices.Keys)
    ensures Resting(t0).ledger == Tick(BuyOrder(t0), Curve(t0), State(Ledger(map[], 1), None),
                                       TickInput(t0, 10.0, 10.1, High, false)).ledger
    ensures Replay(FillSamples(Resting(t0).ledger.slices, refs)).average == NonFinite
  {
    FirstTickAtStart(t0, 10.0, 10.1);
    var m := Resting(t0).ledger.slices;
    assert m["Slice 1"].filled == 0.0;
    AvgFilledPriceOutcomes(m, refs);
  }
}
