/** Side-aware price comparison: "more aggressive" means better for the market, worse for the order. */
module MathUtil {

  /** A buy price is more aggressive when higher; a sell price when lower. */
  predicate IsAggressive(isBuy: bool, price1: real, price2: real)
  {
    if isBuy then price1 > price2 else price2 > price1
  }

  /** As IsAggressive, but equal prices also qualify. */
  predicate IsAggressiveOrEqual(isBuy: bool, price1: real, price2: real)
  {
    if isBuy then price1 >= price2 else price2 >= price1
  }

  /** Strict aggressiveness is a strict order on each side: never of a price against itself. */
  lemma AggressiveIrreflexive(isBuy: bool, p: real)
    ensures !IsAggressive(isBuy, p, p)
    ensures IsAggressiveOrEqual(isBuy, p, p)
  {
  }

  /** Strictly more aggressive implies more aggressive or equal. */
  lemma AggressiveImpliesOrEqual(isBuy: bool, p1: real, p2: real)
    ensures IsAggressive(isBuy, p1, p2) ==> IsAggressiveOrEqual(isBuy, p1, p2)
  {
  }

  /** Buying at p1 against p2 is as aggressive as selling at p2 against p1. */
  lemma AggressiveSideSymmetry(p1: real, p2: real)
    ensures IsAggressive(true, p1, p2) <==> IsAggressive(false, p2, p1)
    ensures IsAggressiveOrEqual(true, p1, p2) <==> IsAggressiveOrEqual(false, p2, p1)
  {
  }

  /** "At least as aggressive" is the negation of the other price being strictly more aggressive. */
  lemma AggressiveDuality(isBuy: bool, p1: real, p2: real)
    ensures IsAggressiveOrEqual(isBuy, p1, p2) <==> !IsAggressive(isBuy, p2, p1)
  {
  }
}
