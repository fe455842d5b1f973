/** The parent order: an immutable record with two hard-coded granularities. */
module Orders {

  /** The quantity granularity every order uses. */
  const Lot: real := 100.0

  /** Time stamps are epoch milliseconds; quantities and prices are reals. */
  datatype Order = Order(startTime: int, endTime: int, quantity: real, limit: real, isBuy: bool)
  {
    /** Quantity granularity, hard-coded in the order. */
    function LotSize(): real { Lot }

    /** Price granularity, hard-coded in the order (not consulted by the scheduler). */
    function TickSize(): real { 0.1 }

    /**
     * `x - x % lotSize`, where `%` on doubles is the truncating remainder
     * (the sign follows the dividend), so the result moves toward zero.
     */
    function RoundDownToLotSize(x: real): (r: real)
      ensures IsLotMultiple(r)
      ensures x >= 0.0 ==> 0.0 <= r <= x && x - r < LotSize()
      ensures x <= 0.0 ==> x <= r <= 0.0 && r - x < LotSize()
      ensures x > LotSize() ==> r >= LotSize()
    {
      var t := Truncate(x / LotSize());
      assert IsLotMultiple(t as real * LotSize()) by {
        assert t as real * Lot / Lot == t as real;
      }
      x - FloatRem(x, LotSize())
    }
  }

  /** Rounding toward zero, as a cast of a double to an integer does. */
  function Truncate(r: real): (n: int)
    ensures r >= 0.0 ==> n as real <= r < n as real + 1.0
    ensures r <= 0.0 ==> n as real - 1.0 < r <= n as real
  {
    if r >= 0.0 then r.Floor else -((-r).Floor)
  }

  /** The floating-point remainder of `x / y`: `x - y * trunc(x / y)`. */
  function FloatRem(x: real, y: real): real
    requires y != 0.0
  {
    x - y * Truncate(x / y) as real
  }

  /** A quantity that is a whole number of lots. */
  predicate IsLotMultiple(q: real)
  {
    (q / Lot).Floor as real * Lot == q
  }

  /** Rounding leaves whole lots alone, and so rounding twice is rounding once. */
  lemma RoundDownIdempotent(o: Order, x: real)
    ensures IsLotMultiple(x) ==> o.RoundDownToLotSize(x) == x
    ensures o.RoundDownToLotSize(o.RoundDownToLotSize(x)) == o.RoundDownToLotSize(x)
  {
    forall q: real | IsLotMultiple(q) ensures o.RoundDownToLotSize(q) == q {
      var n := (q / Lot).Floor;
      assert q / Lot == n as real;
      assert Truncate(q / Lot) == n;
    }
  }
}
