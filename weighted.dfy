/**
 * The running volume-weighted average shared by the slice ledger's average
 * fill price and the trade tracker's benchmark price:
 *   avg' = (avg * total + price * weight) / (total + weight)
 * computed in IEEE doubles. A division by zero yields NaN or an infinity;
 * every later step keeps the result non-finite (NaN and infinities absorb),
 * so the two are collapsed into one NonFinite value.
 */
module Weighted {

  datatype Ratio = Finite(value: real) | NonFinite

  /** One accumulation step of the running weighted average. */
  function Accumulate(avg: Ratio, total: real, price: real, weight: real): (r: Ratio)
    ensures r.Finite? <==> avg.Finite? && total + weight != 0.0
  {
    match avg
    case NonFinite => NonFinite
    case Finite(a) =>
      if total + weight == 0.0 then NonFinite
      else Finite((a * total + price * weight) / (total + weight))
  }

  /** A finite step balances: the new average times the new total is the old notional plus the new one. */
  lemma AccumulateBalances(avg: Ratio, total: real, price: real, weight: real)
    requires avg.Finite? && total + weight != 0.0
    ensures Accumulate(avg, total, price, weight).value * (total + weight)
         == avg.value * total + price * weight
  {
    var n := avg.value * total + price * weight;
    assert n / (total + weight) * (total + weight) == n;
  }

  /**
   * Once the running average equals notional / total, one more step keeps it
   * equal to the updated notional over the updated total.
   */
  lemma AccumulateQuotient(notional: real, total: real, price: real, weight: real)
    requires total > 0.0 && weight > 0.0
    ensures Accumulate(Finite(notional / total), total, price, weight)
         == Finite((notional + price * weight) / (total + weight))
  {
    assert notional / total * total == notional;
  }

  /** One price observation with its weight (a trade size, a filled quantity). */
  datatype Sample = Sample(price: real, weight: real)

  /** The running average and the running total weight. */
  datatype Running = Running(average: Ratio, total: real)

  /** The running average and total after accumulating `samples` in order, from 0 and 0. */
  function Replay(samples: seq<Sample>): Running
    decreases |samples|
  {
    if samples == [] then Running(Finite(0.0), 0.0)
    else
      var prev := Replay(samples[..|samples| - 1]);
      var t := samples[|samples| - 1];
      Running(Accumulate(prev.average, prev.total, t.price, t.weight), prev.total + t.weight)
  }

  datatype Component = Weight | Notional

  function Value(t: Sample, c: Component): real
  {
    match c
    case Weight => t.weight
    case Notional => t.price * t.weight
  }

  /** Sum of one component over a sample sequence. */
  function Sum(ts: seq<Sample>, c: Component): real
    decreases |ts|
  {
    if ts == [] then 0.0 else Sum(ts[..|ts| - 1], c) + Value(ts[|ts| - 1], c)
  }

  predicate PositiveWeights(ts: seq<Sample>)
  {
    forall i :: 0 <= i < |ts| ==> ts[i].weight > 0.0
  }

  /** The running total is the sum of all weights, whatever their signs. */
  lemma {:induction false} ReplayVolume(ts: seq<Sample>)
    ensures Replay(ts).total == Sum(ts, Weight)
    decreases |ts|
  {
    if ts != [] {
      ReplayVolume(ts[..|ts| - 1]);
    }
  }

  /** With positive weights the running average is total notional over total weight. */
  lemma {:induction false} ReplayIsVwap(ts: seq<Sample>)
    requires PositiveWeights(ts) && ts != []
    ensures Sum(ts, Weight) > 0.0
    ensures Replay(ts) == Running(Finite(Sum(ts, Notional) / Sum(ts, Weight)), Sum(ts, Weight))
    decreases |ts|
  {
    var init := ts[..|ts| - 1];
    var t := ts[|ts| - 1];
    ReplayVolume(ts);
    if init == [] {
      assert Sum(ts, Weight) == t.weight;
      assert Sum(ts, Notional) == t.price * t.weight;
      assert Replay(ts).average == Finite((t.price * t.weight) / t.weight);
    } else {
      ReplayIsVwap(init);
      AccumulateQuotient(Sum(init, Notional), Sum(init, Weight), t.price, t.weight);
    }
  }

  /** The first sample sets the average to its own price. */
  lemma FirstSample(t: Sample)
    requires t.weight != 0.0
    ensures Replay([t]) == Running(Finite(t.price), t.weight)
  {
    assert [t][..0] == [];
  }

  lemma {:induction false} SumConcat(a: seq<Sample>, b: seq<Sample>, c: Component)
    ensures Sum(a + b, c) == Sum(a, c) + Sum(b, c)
    decreases |b|
  {
    if b == [] {
      assert a + b == a;
    } else {
      assert (a + b)[..|a + b| - 1] == a + b[..|b| - 1];
      SumConcat(a, b[..|b| - 1], c);
    }
  }

  /** Removing one sample from anywhere removes its value from the sum. */
  lemma SumRemoveAt(us: seq<Sample>, i: int, c: Component)
    requires 0 <= i < |us|
    ensures Sum(us, c) == Sum(us[..i] + us[i + 1..], c) + Value(us[i], c)
  {
    assert us == us[..i] + [us[i]] + us[i + 1..];
    SumConcat(us[..i] + [us[i]], us[i + 1..], c);
    SumConcat(us[..i], [us[i]], c);
    SumConcat(us[..i], us[i + 1..], c);
    assert Sum([us[i]], c) == Value(us[i], c) by { assert [us[i]][..0] == []; }
  }

  lemma MultisetRemoveAt(ts: seq<Sample>, us: seq<Sample>, i: int)
    requires ts != [] && multiset(ts) == multiset(us)
    requires 0 <= i < |us| && us[i] == ts[|ts| - 1]
    ensures multiset(ts[..|ts| - 1]) == multiset(us[..i] + us[i + 1..])
  {
    var x := us[i];
    assert ts == ts[..|ts| - 1] + [x];
    assert us == us[..i] + [x] + us[i + 1..];
    assert multiset(ts) == multiset(ts[..|ts| - 1]) + multiset{x};
    assert multiset(us) == multiset(us[..i] + us[i + 1..]) + multiset{x};
    var a, b := multiset(ts[..|ts| - 1]), multiset(us[..i] + us[i + 1..]);
    forall y ensures a[y] == b[y] {
      assert a[y] == (a + multiset{x})[y] - multiset{x}[y];
      assert b[y] == (b + multiset{x})[y] - multiset{x}[y];
    }
  }

  /** Sums do not depend on the order of the samples. */
  lemma {:induction false} SumPermutation(ts: seq<Sample>, us: seq<Sample>, c: Component)
    requires multiset(ts) == multiset(us)
    ensures Sum(ts, c) == Sum(us, c)
    decreases |ts|
  {
    if ts == [] {
      assert |us| == |multiset(us)| == 0;
    } else {
      var x := ts[|ts| - 1];
      assert x in multiset(us);
      var i :| 0 <= i < |us| && us[i] == x;
      MultisetRemoveAt(ts, us, i);
      SumPermutation(ts[..|ts| - 1], us[..i] + us[i + 1..], c);
      SumRemoveAt(us, i, c);
    }
  }

  /** With positive weights the final state is independent of the order of the samples. */
  lemma ReplayOrderIndependent(ts: seq<Sample>, us: seq<Sample>)
    requires multiset(ts) == multiset(us)
    ensures Replay(ts).total == Replay(us).total
    ensures PositiveWeights(ts) ==> Replay(ts) == Replay(us)
  {
    ReplayVolume(ts);
    ReplayVolume(us);
    SumPermutation(ts, us, Weight);
    if PositiveWeights(ts) {
      forall j | 0 <= j < |us| ensures us[j].weight > 0.0 {
        assert us[j] in multiset(ts);
      }
      if ts != [] {
        assert us != [] by { assert |us| == |multiset(us)| == |ts|; }
        SumPermutation(ts, us, Notional);
        ReplayIsVwap(ts);
        ReplayIsVwap(us);
      } else {
        assert us == [] by { assert |us| == |multiset(us)| == 0; }
      }
    }
  }

  lemma {:induction false} SumBetween(ts: seq<Sample>, lo: real, hi: real)
    requires PositiveWeights(ts)
    requires forall i :: 0 <= i < |ts| ==> lo <= ts[i].price <= hi
    ensures lo * Sum(ts, Weight) <= Sum(ts, Notional) <= hi * Sum(ts, Weight)
    decreases |ts|
  {
    if ts != [] {
      var t := ts[|ts| - 1];
      var init := ts[..|ts| - 1];
      assert forall i :: 0 <= i < |init| ==> init[i] == ts[i];
      SumBetween(init, lo, hi);
      StepBetween(lo, hi, Sum(init, Weight), Sum(init, Notional), t.price, t.weight,
                  Sum(ts, Weight), Sum(ts, Notional));
    }
  }

  lemma StepBetween(lo: real, hi: real, v: real, n: real, p: real, q: real, v': real, n': real)
    requires lo * v <= n <= hi * v
    requires lo <= p <= hi && q > 0.0
    requires v' == v + q && n' == n + p * q
    ensures lo * v' <= n' <= hi * v'
  {
    assert p * q - lo * q == (p - lo) * q;
    assert hi * q - p * q == (hi - p) * q;
    assert lo * (v + q) == lo * v + lo * q;
    assert hi * (v + q) == hi * v + hi * q;
  }

  lemma QuotientBetween(lo: real, n: real, hi: real, v: real)
    requires v > 0.0 && lo * v <= n <= hi * v
    ensures lo <= n / v <= hi
  {
    assert n / v * v == n;
  }

  /** With positive weights the average lies within the range of the prices. */
  lemma ReplayWithinPrices(ts: seq<Sample>, lo: real, hi: real)
    requires PositiveWeights(ts) && ts != []
    requires forall i :: 0 <= i < |ts| ==> lo <= ts[i].price <= hi
    ensures Replay(ts).average.Finite?
    ensures lo <= Replay(ts).average.value <= hi
  {
    ReplayIsVwap(ts);
    AverageBetween(ts, lo, hi);
  }

  lemma AverageBetween(ts: seq<Sample>, lo: real, hi: real)
    requires PositiveWeights(ts) && Sum(ts, Weight) > 0.0
    requires forall i :: 0 <= i < |ts| ==> lo <= ts[i].price <= hi
    ensures lo <= Sum(ts, Notional) / Sum(ts, Weight) <= hi
  {
    SumBetween(ts, lo, hi);
    QuotientBetween(lo, Sum(ts, Notional), hi, Sum(ts, Weight));
  }


  /** With every weight zero the total stays 0, and the first step already divides 0 by 0. */
  lemma {:induction false} ReplayZeroWeights(ts: seq<Sample>)
    requires forall i :: 0 <= i < |ts| ==> ts[i].weight == 0.0
    ensures Replay(ts).total == 0.0
    ensures ts != [] ==> Replay(ts).average == NonFinite
    decreases |ts|
  {
    if ts != [] {
      ReplayZeroWeights(ts[..|ts| - 1]);
    }
  }

  /** The samples with a non-zero weight, in their order. */
  function NonZero(ts: seq<Sample>): (r: seq<Sample>)
    ensures |r| <= |ts|
    ensures forall i :: 0 <= i < |r| ==> r[i].weight != 0.0
    decreases |ts|
  {
    if ts == [] then []
    else
      var t := ts[|ts| - 1];
      NonZero(ts[..|ts| - 1]) + if t.weight != 0.0 then [t] else []
  }

  /** With non-negative weights the samples kept all have positive weight. */
  lemma {:induction false} NonZeroPositive(ts: seq<Sample>)
    requires forall i :: 0 <= i < |ts| ==> ts[i].weight >= 0.0
    ensures PositiveWeights(NonZero(ts))
    decreases |ts|
  {
    if ts != [] {
      var init := ts[..|ts| - 1];
      assert forall i :: 0 <= i < |init| ==> init[i] == ts[i];
      NonZeroPositive(init);
    }
  }

  /** Leaving out the zero weights changes neither sum. */
  lemma {:induction false} NonZeroSums(ts: seq<Sample>, c: Component)
    ensures Sum(NonZero(ts), c) == Sum(ts, c)
    decreases |ts|
  {
    if ts != [] {
      var t := ts[|ts| - 1];
      var tail := if t.weight != 0.0 then [t] else [];
      NonZeroSums(ts[..|ts| - 1], c);
      SumConcat(NonZero(ts[..|ts| - 1]), tail, c);
      if t.weight != 0.0 {
        assert [t][..0] == [];
      } else {
        assert Value(t, c) == 0.0;
      }
    }
  }

  /**
   * Averaging only the non-zero weights never divides by zero: with
   * non-negative weights the result is the notional over the total weight,
   * or 0 when the total is 0.
   */
  lemma SkippedAverage(ts: seq<Sample>)
    requires forall i :: 0 <= i < |ts| ==> ts[i].weight >= 0.0
    ensures Replay(NonZero(ts)).average
         == if Sum(ts, Weight) > 0.0 then Finite(Sum(ts, Notional) / Sum(ts, Weight)) else Finite(0.0)
  {
    NonZeroSums(ts, Weight);
    NonZeroSums(ts, Notional);
    if NonZero(ts) != [] {
      NonZeroPositive(ts);
      ReplayIsVwap(NonZero(ts));
    }
  }
}
