/**
 * The slice ledger: child orders ("slices") keyed by a reference string, plus
 * a counter that numbers the references. Every state change replaces one
 * slice record wholesale under its reference.
 */
module Slices {
  import opened Weighted

  /** One child order. `price` is the resting price, or the last fill price once filled. */
  datatype Slice = Slice(ref: string, price: real, original: real, open: real, filled: real)

  /** The ledger's two fields, as values. */
  datatype Ledger = Ledger(slices: map<string, Slice>, counter: nat)

  // ---------------------------------------------------------------------------
  // Slice references: `prefix + " " + counter` in decimal.

  function Digit(d: nat): char
    requires d < 10
  {
    "0123456789"[d]
  }

  /** The decimal rendering of a non-negative counter value. */
  function NatToString(n: nat): string
    decreases n
  {
    if n < 10 then [Digit(n)] else NatToString(n / 10) + [Digit(n % 10)]
  }

  function DigitValue(c: char): nat
  {
    if '0' <= c <= '9' then c as int - '0' as int else 0
  }

  function ParseNat(s: string): nat
    decreases |s|
  {
    if s == [] then 0 else ParseNat(s[..|s| - 1]) * 10 + DigitValue(s[|s| - 1])
  }

  /** The text after the last space. */
  function LastField(s: string): string
    decreases |s|
  {
    if s == [] || s[|s| - 1] == ' ' then [] else LastField(s[..|s| - 1]) + [s[|s| - 1]]
  }

  /** The counter value a reference was numbered with. */
  function RefCounter(ref: string): nat
  {
    ParseNat(LastField(ref))
  }

  function SliceRef(prefix: string, counter: nat): string
  {
    prefix + " " + NatToString(counter)
  }

  lemma {:induction false} NatToStringDigits(n: nat)
    ensures NatToString(n) != []
    ensures forall i :: 0 <= i < |NatToString(n)| ==> '0' <= NatToString(n)[i] <= '9'
    decreases n
  {
    if n >= 10 {
      NatToStringDigits(n / 10);
    }
  }

  lemma {:induction false} ParseNatToString(n: nat)
    ensures ParseNat(NatToString(n)) == n
    decreases n
  {
    if n >= 10 {
      var s := NatToString(n);
      assert s[..|s| - 1] == NatToString(n / 10);
      ParseNatToString(n / 10);
    }
  }

  lemma {:induction false} LastFieldAfterSpace(prefix: string, digits: string)
    requires forall i :: 0 <= i < |digits| ==> digits[i] != ' '
    ensures LastField(prefix + " " + digits) == digits
    decreases |digits|
  {
    var s := prefix + " " + digits;
    if digits == [] {
      assert s[|s| - 1] == ' ';
    } else {
      assert s[..|s| - 1] == prefix + " " + digits[..|digits| - 1];
      LastFieldAfterSpace(prefix, digits[..|digits| - 1]);
      assert digits == digits[..|digits| - 1] + [digits[|digits| - 1]];
    }
  }

  /** A reference gives back the counter it was numbered with, whatever the prefix. */
  lemma RefCounterOfSliceRef(prefix: string, counter: nat)
    ensures RefCounter(SliceRef(prefix, counter)) == counter
  {
    NatToStringDigits(counter);
    LastFieldAfterSpace(prefix, NatToString(counter));
    ParseNatToString(counter);
  }

  // ---------------------------------------------------------------------------
  // Aggregates over the ledger.

  datatype Measure = Open | Filled | FilledNotional

  function Amount(s: Slice, w: Measure): real
  {
    match w
    case Open => s.open
    case Filled => s.filled
    case FilledNotional => s.price * s.filled
  }

  /** Sum of one measure over the slices stored under `keys`, in no particular order. */
  ghost function TotalOver(m: map<string, Slice>, keys: set<string>, w: Measure): real
    requires keys <= m.Keys
    decreases keys
  {
    if keys == {} then 0.0
    else
      var k :| k in keys;
      Amount(m[k], w) + TotalOver(m, keys - {k}, w)
  }

  ghost function Total(m: map<string, Slice>, w: Measure): real
  {
    TotalOver(m, m.Keys, w)
  }

  /** Open quantity summed over every stored slice. */
  ghost function OpenQty(m: map<string, Slice>): real
  {
    Total(m, Open)
  }

  /** Filled quantity summed over every stored slice. */
  ghost function FilledQty(m: map<string, Slice>): real
  {
    Total(m, Filled)
  }

  /** Any stored slice can be taken out of a sum first. */
  lemma {:induction false} TotalOverRemove(m: map<string, Slice>, keys: set<string>, k: string, w: Measure)
    requires keys <= m.Keys && k in keys
    ensures TotalOver(m, keys, w) == Amount(m[k], w) + TotalOver(m, keys - {k}, w)
    decreases keys
  {
    var j :| j in keys && TotalOver(m, keys, w) == Amount(m[j], w) + TotalOver(m, keys - {j}, w);
    if j != k {
      TotalOverRemove(m, keys - {j}, k, w);
      TotalOverRemove(m, keys - {k}, j, w);
      assert keys - {j} - {k} == keys - {k} - {j};
    }
  }

  /** Sums agree over keys on which the measured amounts agree. */
  lemma {:induction false} TotalOverCongruent(m1: map<string, Slice>, m2: map<string, Slice>, keys: set<string>, w: Measure)
    requires keys <= m1.Keys && keys <= m2.Keys
    requires forall k :: k in keys ==> Amount(m1[k], w) == Amount(m2[k], w)
    ensures TotalOver(m1, keys, w) == TotalOver(m2, keys, w)
    decreases keys
  {
    if keys != {} {
      var k :| k in keys;
      TotalOverRemove(m1, keys, k, w);
      TotalOverRemove(m2, keys, k, w);
      TotalOverCongruent(m1, m2, keys - {k}, w);
    }
  }

  /** Storing a slice under a reference replaces that reference's contribution. */
  lemma TotalAfterPut(m: map<string, Slice>, ref: string, s: Slice, w: Measure)
    ensures Total(m[ref := s], w) == Total(m, w) - (if ref in m then Amount(m[ref], w) else 0.0) + Amount(s, w)
  {
    var m' := m[ref := s];
    var rest := m.Keys - {ref};
    TotalOverRemove(m', m'.Keys, ref, w);
    assert m'.Keys - {ref} == rest;
    TotalOverCongruent(m', m, rest, w);
    if ref in m {
      TotalOverRemove(m, m.Keys, ref, w);
    } else {
      assert rest == m.Keys;
    }
  }

  /** Maps with the same keys and the same measured amounts have the same sum. */
  lemma TotalSame(m1: map<string, Slice>, m2: map<string, Slice>, w: Measure)
    requires m1.Keys == m2.Keys
    requires forall k :: k in m1 ==> Amount(m1[k], w) == Amount(m2[k], w)
    ensures Total(m1, w) == Total(m2, w)
  {
    TotalOverCongruent(m1, m2, m1.Keys, w);
  }

  // ---------------------------------------------------------------------------
  // The ledger invariant and the operations, as functions of the ledger value.

  /** Open and filled quantities always add up to the original quantity. */
  predicate Consistent(s: Slice)
  {
    s.open + s.filled == s.original
  }

  /**
   * Every slice is stored under its own reference, every reference was
   * numbered before the current counter, and every slice is consistent.
   */
  ghost predicate LedgerValid(l: Ledger)
  {
    && l.counter >= 1
    && forall k :: k in l.slices ==>
         l.slices[k].ref == k && RefCounter(k) < l.counter && Consistent(l.slices[k])
  }

  /** The ledger after `entry(quantity, price, prefix)`. */
  function AfterEntry(l: Ledger, quantity: real, price: real, prefix: string): Ledger
  {
    var ref := SliceRef(prefix, l.counter);
    Ledger(if quantity > 0.0 then l.slices[ref := Slice(ref, price, quantity, quantity, 0.0)] else l.slices,
           l.counter + 1)
  }

  /** The ledger after `amend(slice, newPrice)`: the passed slice, repriced, under its reference. */
  function AfterAmend(l: Ledger, slice: Slice, newPrice: real): Ledger
  {
    Ledger(l.slices[slice.ref := slice.(price := newPrice)], l.counter)
  }

  /** The ledger after `fill(slice, filledQuantity, filledPrice)`; the filled quantity is absolute. */
  function AfterFill(l: Ledger, slice: Slice, filledQuantity: real, filledPrice: real): Ledger
  {
    Ledger(l.slices[slice.ref := Slice(slice.ref, filledPrice, slice.original,
                                       slice.original - filledQuantity, filledQuantity)],
           l.counter)
  }

  /** The stored slices that still have open quantity. */
  function OpenSlices(m: map<string, Slice>): (r: map<string, Slice>)
    ensures forall k :: k in r <==> k in m && m[k].open > 0.0
    ensures forall k :: k in r ==> r[k] == m[k]
  {
    map k | k in m && m[k].open > 0.0 :: m[k]
  }

  /** The reference an entry is numbered with is never already in use. */
  lemma EntryRefFresh(l: Ledger, prefix: string)
    requires LedgerValid(l)
    ensures SliceRef(prefix, l.counter) !in l.slices
  {
    RefCounterOfSliceRef(prefix, l.counter);
  }

  /**
   * `entry` adds exactly one fresh slice when the quantity is positive and
   * nothing otherwise; the counter advances in both cases and no stored
   * slice is touched.
   */
  lemma EntryEffect(l: Ledger, quantity: real, price: real, prefix: string)
    requires LedgerValid(l)
    ensures var r := AfterEntry(l, quantity, price, prefix);
      var ref := SliceRef(prefix, l.counter);
      && LedgerValid(r)
      && r.counter == l.counter + 1
      && (forall k :: k in l.slices ==> k in r.slices && r.slices[k] == l.slices[k])
      && (quantity > 0.0 ==>
            && ref !in l.slices
            && r.slices.Keys == l.slices.Keys + {ref}
            && r.slices[ref] == Slice(ref, price, quantity, quantity, 0.0)
            && OpenQty(r.slices) == OpenQty(l.slices) + quantity
            && FilledQty(r.slices) == FilledQty(l.slices))
      && (quantity <= 0.0 ==> r.slices == l.slices)
  {
    var ref := SliceRef(prefix, l.counter);
    EntryRefFresh(l, prefix);
    RefCounterOfSliceRef(prefix, l.counter);
    var s := Slice(ref, price, quantity, quantity, 0.0);
    TotalAfterPut(l.slices, ref, s, Open);
    TotalAfterPut(l.slices, ref, s, Filled);
  }

  /**
   * Amending a stored slice changes its price and nothing else: the same
   * references, the same quantities everywhere, the same totals.
   */
  lemma AmendEffect(l: Ledger, slice: Slice, newPrice: real)
    requires LedgerValid(l)
    requires slice.ref in l.slices && l.slices[slice.ref] == slice
    ensures var r := AfterAmend(l, slice, newPrice);
      && LedgerValid(r)
      && r.counter == l.counter
      && r.slices.Keys == l.slices.Keys
      && r.slices[slice.ref] == l.slices[slice.ref].(price := newPrice)
      && (forall k :: k in l.slices && k != slice.ref ==> r.slices[k] == l.slices[k])
      && OpenQty(r.slices) == OpenQty(l.slices)
      && FilledQty(r.slices) == FilledQty(l.slices)
      && (newPrice == slice.price ==> r == l)
  {
    var s := slice.(price := newPrice);
    TotalAfterPut(l.slices, slice.ref, s, Open);
    TotalAfterPut(l.slices, slice.ref, s, Filled);
  }

  /**
   * A fill sets the absolute filled quantity, the remaining open quantity and
   * the price of one slice, keeps the slice consistent, and moves the filled
   * total by the difference.
   */
  lemma FillEffect(l: Ledger, slice: Slice, filledQuantity: real, filledPrice: real)
    requires LedgerValid(l)
    requires slice.ref in l.slices
    ensures var r := AfterFill(l, slice, filledQuantity, filledPrice);
      var s := r.slices[slice.ref];
      && LedgerValid(r)
      && r.counter == l.counter
      && r.slices.Keys == l.slices.Keys
      && s.filled == filledQuantity && s.open == slice.original - filledQuantity
      && s.price == filledPrice && s.original == slice.original
      && s.open + s.filled == s.original
      && (forall k :: k in l.slices && k != slice.ref ==> r.slices[k] == l.slices[k])
      && FilledQty(r.slices) == FilledQty(l.slices) - l.slices[slice.ref].filled + filledQuantity
      && OpenQty(r.slices) == OpenQty(l.slices) - l.slices[slice.ref].open + (slice.original - filledQuantity)
  {
    var s := Slice(slice.ref, filledPrice, slice.original, slice.original - filledQuantity, filledQuantity);
    TotalAfterPut(l.slices, slice.ref, s, Open);
    TotalAfterPut(l.slices, slice.ref, s, Filled);
  }

  lemma {:induction false} OpenOverOpenSlices(m: map<string, Slice>, keys: set<string>)
    requires keys <= m.Keys
    requires forall k :: k in keys ==> m[k].open >= 0.0
    ensures keys * OpenSlices(m).Keys <= OpenSlices(m).Keys
    ensures TotalOver(m, keys, Open) == TotalOver(OpenSlices(m), keys * OpenSlices(m).Keys, Open)
    decreases keys
  {
    var o := OpenSlices(m);
    if keys == {} {
      assert keys * o.Keys == {};
    } else {
      var k :| k in keys;
      TotalOverRemove(m, keys, k, Open);
      OpenOverOpenSlices(m, keys - {k});
      if k in o {
        assert (keys - {k}) * o.Keys == keys * o.Keys - {k};
        TotalOverRemove(o, keys * o.Keys, k, Open);
      } else {
        assert (keys - {k}) * o.Keys == keys * o.Keys;
      }
    }
  }

  /** While no slice is over-filled, the open slices carry all of the open quantity. */
  lemma OpenSlicesCarryOpenQty(m: map<string, Slice>)
    requires forall k :: k in m ==> m[k].open >= 0.0
    ensures OpenQty(OpenSlices(m)) == OpenQty(m)
  {
    OpenOverOpenSlices(m, m.Keys);
    assert m.Keys * OpenSlices(m).Keys == OpenSlices(m).Keys;
  }

  /** The (price, filled quantity) samples of the slices under `refs`, in that order. */
  function FillSamples(m: map<string, Slice>, refs: seq<string>): (r: seq<Sample>)
    requires forall i :: 0 <= i < |refs| ==> refs[i] in m
    ensures |r| == |refs|
    ensures forall i :: 0 <= i < |refs| ==> r[i] == Sample(m[refs[i]].price, m[refs[i]].filled)
  {
    seq(|refs|, i requires 0 <= i < |refs| => Sample(m[refs[i]].price, m[refs[i]].filled))
  }

  /** The ledger measure a component of a fill sample is drawn from. */
  function MeasureOf(c: Component): Measure
  {
    match c
    case Weight => Filled
    case Notional => FilledNotional
  }

  /** `refs` lists the keys `keys`, each exactly once. */
  predicate Enumerates(refs: seq<string>, keys: set<string>)
  {
    && (forall i :: 0 <= i < |refs| ==> refs[i] in keys)
    && (forall k :: k in keys ==> k in refs)
    && (forall i, j :: 0 <= i < j < |refs| ==> refs[i] != refs[j])
  }

  /** Dropping the last reference of an enumeration enumerates the other keys. */
  lemma EnumeratesInit(refs: seq<string>, keys: set<string>)
    requires refs != [] && Enumerates(refs, keys)
    ensures Enumerates(refs[..|refs| - 1], keys - {refs[|refs| - 1]})
  {
    var r, init := refs[|refs| - 1], refs[..|refs| - 1];
    forall k | k in keys && k != r ensures k in init {
      var i :| 0 <= i < |refs| && refs[i] == k;
      assert init[i] == k;
    }
    forall i | 0 <= i < |init| ensures init[i] in keys - {r} {
      assert refs[i] != refs[|refs| - 1];
    }
  }

  /** Visiting one more slice accumulates its price weighted by its filled quantity. */
  lemma ReplayFillStep(m: map<string, Slice>, refs: seq<string>, k: string)
    requires forall i :: 0 <= i < |refs| ==> refs[i] in m
    requires k in m
    ensures var prev := Replay(FillSamples(m, refs));
      Replay(FillSamples(m, refs + [k]))
        == Running(Accumulate(prev.average, prev.total, m[k].price, m[k].filled), prev.total + m[k].filled)
  {
    var samples := FillSamples(m, refs + [k]);
    assert samples[..|samples| - 1] == FillSamples(m, refs);
  }

  /** Visiting one more slice accumulates it exactly when its filled quantity is not zero. */
  lemma ReplayNonZeroFillStep(m: map<string, Slice>, refs: seq<string>, k: string)
    requires forall i :: 0 <= i < |refs| ==> refs[i] in m
    requires k in m
    ensures var prev := Replay(NonZero(FillSamples(m, refs)));
      Replay(NonZero(FillSamples(m, refs + [k])))
        == if m[k].filled != 0.0
           then Running(Accumulate(prev.average, prev.total, m[k].price, m[k].filled), prev.total + m[k].filled)
           else prev
  {
    var samples := FillSamples(m, refs + [k]);
    assert samples[..|samples| - 1] == FillSamples(m, refs);
    var init := NonZero(FillSamples(m, refs));
    if m[k].filled != 0.0 {
      var x := Sample(m[k].price, m[k].filled);
      assert NonZero(samples) == init + [x];
      assert (init + [x])[..|init|] == init;
    } else {
      assert NonZero(samples) == init + [];
      assert init + [] == init;
    }
  }

  /** The fill-skipping average over an enumeration of the whole ledger, with non-negative fills. */
  lemma SkippedAvgFilledPrice(m: map<string, Slice>, refs: seq<string>)
    requires Enumerates(refs, m.Keys) && NonNegativeFills(m)
    ensures Replay(NonZero(FillSamples(m, refs))).average
         == if FilledQty(m) > 0.0 then Finite(Total(m, FilledNotional) / FilledQty(m)) else Finite(0.0)
  {
    var samples := FillSamples(m, refs);
    FillSamplesSum(m, refs, m.Keys, Weight);
    FillSamplesSum(m, refs, m.Keys, Notional);
    SkippedAverage(samples);
  }

  /** A slice's fill sample weighs its filled quantity and carries its filled notional. */
  lemma FillSampleValue(s: Slice, c: Component)
    ensures Value(Sample(s.price, s.filled), c) == Amount(s, MeasureOf(c))
  {
  }

  /** Summing the samples of an enumeration of some keys is summing the ledger over those keys. */
  lemma {:induction false} FillSamplesSum(m: map<string, Slice>, refs: seq<string>, keys: set<string>, c: Component)
    requires keys <= m.Keys && Enumerates(refs, keys)
    ensures Sum(FillSamples(m, refs), c) == TotalOver(m, keys, MeasureOf(c))
    decreases |refs|
  {
    if refs == [] {
      assert keys == {};
    } else {
      var r := refs[|refs| - 1];
      var init := refs[..|refs| - 1];
      EnumeratesInit(refs, keys);
      var samples := FillSamples(m, refs);
      assert samples[..|refs| - 1] == FillSamples(m, init);
      calc {
        Sum(samples, c);
        Sum(FillSamples(m, init), c) + Value(samples[|refs| - 1], c);
        { FillSamplesSum(m, init, keys - {r}, c); }
        TotalOver(m, keys - {r}, MeasureOf(c)) + Value(Sample(m[r].price, m[r].filled), c);
        { FillSampleValue(m[r], c); }
        TotalOver(m, keys - {r}, MeasureOf(c)) + Amount(m[r], MeasureOf(c));
        { TotalOverRemove(m, keys, r, MeasureOf(c)); }
        TotalOver(m, keys, MeasureOf(c));
      }
    }
  }

  /**
   * Two slices, one unfilled and one filled: the average fill price is
   * non-finite if the map happens to yield the unfilled slice first, and
   * the filled slice's price otherwise.
   */
  lemma AvgFilledPriceDependsOnOrder()
    ensures var m, r1, r2 := TwoSlices(), SliceRef("Slice", 1), SliceRef("Slice", 2);
      && Replay(FillSamples(m, [r1, r2])).average == NonFinite
      && Replay(FillSamples(m, [r2, r1])).average == Finite(10.1)
  {
    var m, r1, r2 := TwoSlices(), SliceRef("Slice", 1), SliceRef("Slice", 2);
    var x, y := Sample(10.0, 0.0), Sample(10.1, 100.0);
    assert r1 != r2 by {
      RefCounterOfSliceRef("Slice", 1);
      RefCounterOfSliceRef("Slice", 2);
    }
    assert FillSamples(m, [r1, r2]) == [x, y];
    assert FillSamples(m, [r2, r1]) == [y, x];
    assert [x, y][..1] == [x] && [y, x][..1] == [y];
    assert [x][..0] == [] && [y][..0] == [];
    assert Replay([x]) == Running(NonFinite, 0.0);
    assert Replay([y]) == Running(Finite(10.1), 100.0);
    assert Replay([y, x]) == Running(Accumulate(Finite(10.1), 100.0, 10.0, 0.0), 100.0);
  }

  /**
   * What the running average over an enumeration of the whole ledger comes
   * to: 0 for an empty ledger, filled notional over filled quantity when
   * every slice has a positive fill, non-finite when none has.
   */
  lemma AvgFilledPriceOutcomes(m: map<string, Slice>, refs: seq<string>)
    requires Enumerates(refs, m.Keys)
    ensures var avg := Replay(FillSamples(m, refs)).average;
      && (m == map[] ==> avg == Finite(0.0))
      && (m != map[] && (forall k :: k in m ==> m[k].filled > 0.0) ==>
            FilledQty(m) > 0.0 && avg == Finite(Total(m, FilledNotional) / FilledQty(m)))
      && (m != map[] && (forall k :: k in m ==> m[k].filled == 0.0) ==> avg == NonFinite)
  {
    var samples := FillSamples(m, refs);
    FillSamplesSum(m, refs, m.Keys, Weight);
    FillSamplesSum(m, refs, m.Keys, Notional);
    if m == map[] {
      assert refs == [];
    } else {
      var k :| k in m;
      assert refs != [];
      if forall k :: k in m ==> m[k].filled > 0.0 {
        ReplayIsVwap(samples);
      }
      if forall k :: k in m ==> m[k].filled == 0.0 {
        ReplayZeroWeights(samples);
      }
    }
  }

  /** No slice records a negative fill. */
  ghost predicate NonNegativeFills(m: map<string, Slice>)
  {
    forall k :: k in m ==> m[k].filled >= 0.0
  }

  /** "Slice 1" is resting unfilled at 10.0; "Slice 2" was filled completely at 10.1. */
  function TwoSlices(): map<string, Slice>
  {
    var r1, r2 := SliceRef("Slice", 1), SliceRef("Slice", 2);
    map[r1 := Slice(r1, 10.0, 100.0, 100.0, 0.0), r2 := Slice(r2, 10.1, 100.0, 0.0, 100.0)]
  }

  /** Such a ledger satisfies the ledger invariant with the counter at 3. */
  lemma TwoSlicesValid()
    ensures LedgerValid(Ledger(TwoSlices(), 3))
  {
    RefCounterOfSliceRef("Slice", 1);
    RefCounterOfSliceRef("Slice", 2);
  }

  /**
   * It is reached from the empty ledger: enter 100 at 10.0, enter 100 at
   * 10.1, then fill the second slice completely at 10.1.
   */
  lemma TwoSlicesReachable()
    ensures var r2 := SliceRef("Slice", 2);
      var l2 := AfterEntry(AfterEntry(Ledger(map[], 1), 100.0, 10.0, "Slice"), 100.0, 10.1, "Slice");
      && r2 in l2.slices
      && AfterFill(l2, l2.slices[r2], 100.0, 10.1) == Ledger(TwoSlices(), 3)
  {
    var r1, r2 := SliceRef("Slice", 1), SliceRef("Slice", 2);
    assert r1 != r2 by {
      RefCounterOfSliceRef("Slice", 1);
      RefCounterOfSliceRef("Slice", 2);
    }
    var l2 := AfterEntry(AfterEntry(Ledger(map[], 1), 100.0, 10.0, "Slice"), 100.0, 10.1, "Slice");
    assert l2.slices == map[r1 := Slice(r1, 10.0, 100.0, 100.0, 0.0), r2 := Slice(r2, 10.1, 100.0, 100.0, 0.0)];
  }

  // ---------------------------------------------------------------------------
  // The ledger object.

  class SliceManager {
    var slices: map<string, Slice>
    var counter: nat

    function Model(): Ledger
      reads this
    {
      Ledger(slices, counter)
    }

    ghost predicate Valid()
      reads this
    {
      LedgerValid(Model())
    }

    constructor ()
      ensures Valid() && Model() == Ledger(map[], 1)
    {
      slices := map[];
      counter := 1;
    }

    /** Sum of the open quantities of all stored slices, fully filled ones included. */
    method GetOpenQty() returns (q: real)
      ensures q == OpenQty(slices)
    {
      q := SumOf(Open);
    }

    /** Sum of the filled quantities of all stored slices. */
    method GetFilledQty() returns (q: real)
      ensures q == FilledQty(slices)
    {
      q := SumOf(Filled);
    }

    method SumOf(w: Measure) returns (total: real)
      ensures total == Total(slices, w)
    {
      total := 0.0;
      var rest := slices.Keys;
      while rest != {}
        invariant rest <= slices.Keys
        invariant total + TotalOver(slices, rest, w) == Total(slices, w)
        decreases rest
      {
        var k :| k in rest;
        TotalOverRemove(slices, rest, k, w);
        total := total + Amount(slices[k], w);
        rest := rest - {k};
      }
    }

    method Entry(quantity: real, price: real, prefix: string)
      requires Valid()
      modifies this
      ensures Valid()
      ensures Model() == AfterEntry(old(Model()), quantity, price, prefix)
    {
      var ref := SliceRef(prefix, counter);
      EntryEffect(Model(), quantity, price, prefix);
      counter := counter + 1;
      if quantity > 0.0 {
        slices := slices[ref := Slice(ref, price, quantity, quantity, 0.0)];
      }
    }

    function GetOpenSlice(): map<string, Slice>
      reads this
    {
      OpenSlices(slices)
    }

    method Amend(slice: Slice, newPrice: real)
      modifies this
      ensures Model() == AfterAmend(old(Model()), slice, newPrice)
      ensures old(Valid()) && slice.ref in old(slices) && old(slices)[slice.ref] == slice ==> Valid()
    {
      if Valid() && slice.ref in slices && slices[slice.ref] == slice {
        AmendEffect(Model(), slice, newPrice);
      }
      slices := slices[slice.ref := slice.(price := newPrice)];
    }

    method Fill(slice: Slice, filledQuantity: real, filledPrice: real)
      modifies this
      ensures Model() == AfterFill(old(Model()), slice, filledQuantity, filledPrice)
      ensures old(Valid()) && slice.ref in old(slices) ==> Valid()
    {
      if Valid() && slice.ref in slices {
        FillEffect(Model(), slice, filledQuantity, filledPrice);
      }
      slices := slices[slice.ref := Slice(slice.ref, filledPrice, slice.original,
                                          slice.original - filledQuantity, filledQuantity)];
    }

    /**
     * The running weighted average of slice prices by filled quantity, over
     * the stored slices in whatever order the map yields them (`visitOrder`).
     */
    method GetAvgFilledPrice() returns (avgFilledPrice: Ratio, ghost visitOrder: seq<string>)
      ensures Enumerates(visitOrder, slices.Keys)
      ensures avgFilledPrice == Replay(FillSamples(slices, visitOrder)).average
      ensures slices == map[] ==> avgFilledPrice == Finite(0.0)
      ensures slices != map[] && (forall k :: k in slices ==> slices[k].filled > 0.0) ==>
                FilledQty(slices) > 0.0
                && avgFilledPrice == Finite(Total(slices, FilledNotional) / FilledQty(slices))
      ensures slices != map[] && (forall k :: k in slices ==> slices[k].filled == 0.0) ==>
                avgFilledPrice == NonFinite
    {
      avgFilledPrice := Finite(0.0);
      var totalFilledQty := 0.0;
      var rest := slices.Keys;
      visitOrder := [];
      while rest != {}
        invariant rest <= slices.Keys
        invariant forall i :: 0 <= i < |visitOrder| ==> visitOrder[i] in slices && visitOrder[i] !in rest
        invariant forall k :: k in slices ==> k in rest || k in visitOrder
        invariant forall i, j :: 0 <= i < j < |visitOrder| ==> visitOrder[i] != visitOrder[j]
        invariant Running(avgFilledPrice, totalFilledQty) == Replay(FillSamples(slices, visitOrder))
        decreases rest
      {
        var k :| k in rest;
        var s := slices[k];
        ReplayFillStep(slices, visitOrder, k);
        avgFilledPrice := Accumulate(avgFilledPrice, totalFilledQty, s.price, s.filled);
        totalFilledQty := totalFilledQty + s.filled;
        rest := rest - {k};
        visitOrder := visitOrder + [k];
      }
      AvgFilledPriceOutcomes(slices, visitOrder);
    }

    /**
     * The average fill price with unfilled slices skipped, so that no
     * division by a zero total can happen: with non-negative fills it is the
     * filled notional over the filled quantity, or 0 when nothing is filled,
     * whatever order the map yields the slices in.
     */
    method GetAvgFilledPriceOfFills() returns (avgFilledPrice: Ratio, ghost visitOrder: seq<string>)
      ensures Enumerates(visitOrder, slices.Keys)
      ensures avgFilledPrice == Replay(NonZero(FillSamples(slices, visitOrder))).average
      ensures NonNegativeFills(slices) ==>
                avgFilledPrice == if FilledQty(slices) > 0.0
                                  then Finite(Total(slices, FilledNotional) / FilledQty(slices))
                                  else Finite(0.0)
    {
      avgFilledPrice := Finite(0.0);
      var totalFilledQty := 0.0;
      var rest := slices.Keys;
      visitOrder := [];
      while rest != {}
        invariant rest <= slices.Keys
        invariant forall i :: 0 <= i < |visitOrder| ==> visitOrder[i] in slices && visitOrder[i] !in rest
        invariant forall k :: k in slices ==> k in rest || k in visitOrder
        invariant forall i, j :: 0 <= i < j < |visitOrder| ==> visitOrder[i] != visitOrder[j]
        invariant Running(avgFilledPrice, totalFilledQty) == Replay(NonZero(FillSamples(slices, visitOrder)))
        decreases rest
      {
        var k :| k in rest;
        var s := slices[k];
        ReplayNonZeroFillStep(slices, visitOrder, k);
        if s.filled != 0.0 {
          avgFilledPrice := Accumulate(avgFilledPrice, totalFilledQty, s.price, s.filled);
          totalFilledQty := totalFilledQty + s.filled;
        }
        rest := rest - {k};
        visitOrder := visitOrder + [k];
      }
      if NonNegativeFills(slices) {
        SkippedAvgFilledPrice(slices, visitOrder);
      }
    }
  }
}
