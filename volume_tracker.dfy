/** The benchmark: a running volume-weighted average price of the trades seen so far. */
module VolumeTracking {
  import opened Weighted

  /** Tracks the trades reported to it; the benchmark is read by the slippage analysis. */
  class VolumeTracker {
    var intervalVolume: real
    var benchmarkPrice: Ratio
    /** The trades reported so far, in order. */
    ghost var trades: seq<Sample>

    ghost predicate Valid()
      reads this
    {
      Running(benchmarkPrice, intervalVolume) == Replay(trades)
    }

    constructor ()
      ensures Valid() && trades == []
      ensures benchmarkPrice == Finite(0.0) && intervalVolume == 0.0
    {
      intervalVolume := 0.0;
      benchmarkPrice := Finite(0.0);
      trades := [];
    }

    function GetBenchmarkPrice(): (r: Ratio)
      reads this
      requires Valid()
      ensures r == Replay(trades).average
    {
      benchmarkPrice
    }

    method OnTradeEvent(price: real, size: real)
      requires Valid()
      modifies this
      ensures Valid() && trades == old(trades) + [Sample(price, size)]
      ensures benchmarkPrice == Accumulate(old(benchmarkPrice), old(intervalVolume), price, size)
      ensures intervalVolume == old(intervalVolume) + size
      ensures intervalVolume == Sum(trades, Weight)
    {
      benchmarkPrice := Accumulate(benchmarkPrice, intervalVolume, price, size);
      intervalVolume := intervalVolume + size;
      trades := trades + [Sample(price, size)];
      assert trades[..|trades| - 1] == old(trades);
      ReplayVolume(trades);
    }
  }
}
