/**
 * Per-bar signal rules: the `np.where(...)` expressions over indicator
 * columns. Every comparison involving NaN is false, and `shift(1)` yields
 * NaN at the first row, so no rule that looks at the previous row fires at
 * index 0.
 */
module Signals {
  import opened Wrappers
  import opened Indicators

  /** `a > b` on two pandas cells; false when either is NaN. */
  predicate Gt(a: Option<real>, b: Option<real>) {
    a.Some? && b.Some? && a.value > b.value
  }

  predicate Lt(a: Option<real>, b: Option<real>) {
    a.Some? && b.Some? && a.value < b.value
  }

  predicate Ge(a: Option<real>, b: Option<real>) {
    a.Some? && b.Some? && a.value >= b.value
  }

  predicate Le(a: Option<real>, b: Option<real>) {
    a.Some? && b.Some? && a.value <= b.value
  }

  /** `c.shift(1)[i]`: the previous row, NaN at the first row. */
  function Prev(c: Column, i: int): (r: Option<real>)
    requires 0 <= i < |c|
    ensures i == 0 ==> r.None?
    ensures i > 0 ==> r == c[i - 1]
  {
    if i == 0 then None else c[i - 1]
  }

  /** `(a > b) & (a.shift(1) <= b.shift(1))`: `a` crosses above `b` at row `i`. */
  predicate CrossOver(a: Column, b: Column, i: int)
    requires |a| == |b| && 0 <= i < |a|
  {
    Gt(a[i], b[i]) && Le(Prev(a, i), Prev(b, i))
  }

  /** `(a < b) & (a.shift(1) >= b.shift(1))`: `a` crosses below `b` at row `i`. */
  predicate CrossUnder(a: Column, b: Column, i: int)
    requires |a| == |b| && 0 <= i < |a|
  {
    Lt(a[i], b[i]) && Ge(Prev(a, i), Prev(b, i))
  }

  /** A threshold as a column cell, so that the same comparisons apply. */
  function Level(t: real): Option<real> {
    Some(t)
  }

  /** `(r2s > high) & (rsi < oversold)`. */
  predicate ThresholdBuy(r2s: Column, rsi: Column, high: real, oversold: real, i: int)
    requires |r2s| == |rsi| && 0 <= i < |r2s|
  {
    Gt(r2s[i], Level(high)) && Lt(rsi[i], Level(oversold))
  }

  /** `(r2s > high) & (rsi > overbought)`. */
  predicate ThresholdSell(r2s: Column, rsi: Column, high: real, overbought: real, i: int)
    requires |r2s| == |rsi| && 0 <= i < |r2s|
  {
    Gt(r2s[i], Level(high)) && Gt(rsi[i], Level(overbought))
  }

  /** `(r2s.shift(1) > t) & (r2s <= t)`: the smoothed r2 falls through `t` at row `i`. */
  predicate ThresholdCrossUnder(r2s: Column, t: real, i: int)
    requires 0 <= i < |r2s|
  {
    Gt(Prev(r2s, i), Level(t)) && Le(r2s[i], Level(t))
  }

  /** The 0/1 flags one rule writes on one bar. */
  datatype Flags =
    | BuySell(buy: bool, sell: bool)
    | Cross(cross: bool)

  /** The row survives `(buy == 1) | (sell == 1)`, respectively `cross == 1`. */
  predicate Flagged(f: Flags) {
    match f
    case BuySell(buy, sell) => buy || sell
    case Cross(cross) => cross
  }

  /** The buy/sell pair of a crossover rule; the two flags never both hold. */
  function CrossFlags(a: Column, b: Column, i: int): (f: Flags)
    requires |a| == |b| && 0 <= i < |a|
    ensures f.BuySell? && !(f.buy && f.sell)
    ensures Flagged(f) ==> i > 0 && a[i].Some? && b[i].Some? && a[i - 1].Some? && b[i - 1].Some?
    ensures f.buy <==> CrossOver(a, b, i)
    ensures f.sell <==> CrossUnder(a, b, i)
  {
    BuySell(CrossOver(a, b, i), CrossUnder(a, b, i))
  }

  /**
   * The buy/sell pair of the r2-and-RSI rule. The flags are exclusive
   * whenever the oversold level does not exceed the overbought level.
   */
  function ThresholdFlags(r2s: Column, rsi: Column, high: real, oversold: real, overbought: real, i: int): (f: Flags)
    requires |r2s| == |rsi| && 0 <= i < |r2s|
    ensures f.BuySell?
    ensures oversold <= overbought ==> !(f.buy && f.sell)
    ensures Flagged(f) ==> r2s[i].Some? && r2s[i].value > high && rsi[i].Some?
    ensures f.buy <==> ThresholdBuy(r2s, rsi, high, oversold, i)
    ensures f.sell <==> ThresholdSell(r2s, rsi, high, overbought, i)
  {
    BuySell(ThresholdBuy(r2s, rsi, high, oversold, i), ThresholdSell(r2s, rsi, high, overbought, i))
  }

  /** The cross-under flag of the r2 rule; it needs two defined rows. */
  function CrossUnderFlags(r2s: Column, t: real, i: int): (f: Flags)
    requires 0 <= i < |r2s|
    ensures f.Cross?
    ensures f.cross ==> i > 0 && r2s[i - 1].Some? && r2s[i - 1].value > t && r2s[i].Some? && r2s[i].value <= t
    ensures f.cross <==> ThresholdCrossUnder(r2s, t, i)
    ensures f.cross && i + 1 < |r2s| ==> !ThresholdCrossUnder(r2s, t, i + 1)
  {
    Cross(ThresholdCrossUnder(r2s, t, i))
  }

  /** Crossing above `b` is the same event as `b` crossing below `a`. */
  lemma CrossSymmetric(a: Column, b: Column, i: int)
    requires |a| == |b| && 0 <= i < |a|
    ensures CrossOver(a, b, i) <==> CrossUnder(b, a, i)
  {
  }

  /** The r2 cross-under never fires on two adjacent rows. */
  lemma CrossUnderNotAdjacent(r2s: Column, t: real, i: int)
    requires 1 <= i < |r2s|
    ensures !(ThresholdCrossUnder(r2s, t, i - 1) && ThresholdCrossUnder(r2s, t, i))
  {
  }

  /** Neither column is NaN and the two never tie on rows `lo..hi`. */
  predicate Separated(a: Column, b: Column, lo: int, hi: int)
    requires |a| == |b|
  {
    forall k :: lo <= k <= hi && 0 <= k < |a| ==> Gt(a[k], b[k]) || Lt(a[k], b[k])
  }

  /**
   * A discrete intermediate value step: if `a` is above `b` at `lo`, below it
   * at `hi`, and the two never tie nor go NaN in between, then `a` crosses
   * below `b` somewhere in `lo+1..hi`.
   */
  lemma {:induction false} CrossUnderBetween(a: Column, b: Column, lo: int, hi: int) returns (k: int)
    requires |a| == |b| && 0 <= lo < hi < |a|
    requires Gt(a[lo], b[lo]) && Lt(a[hi], b[hi])
    requires Separated(a, b, lo, hi)
    ensures lo < k <= hi && CrossUnder(a, b, k)
    decreases hi - lo
  {
    if Lt(a[lo + 1], b[lo + 1]) {
      k := lo + 1;
    } else {
      assert Gt(a[lo + 1], b[lo + 1]);
      k := CrossUnderBetween(a, b, lo + 1, hi);
    }
  }

  /**
   * Without ties or NaN between them, two buy crossovers are separated by a
   * sell crossover.
   */
  lemma CrossesAlternate(a: Column, b: Column, i: int, j: int) returns (k: int)
    requires |a| == |b| && 0 <= i < j < |a|
    requires CrossOver(a, b, i) && CrossOver(a, b, j)
    requires Separated(a, b, i, j)
    ensures i < k < j && CrossUnder(a, b, k)
  {
    assert Lt(a[j - 1], b[j - 1]);
    k := CrossUnderBetween(a, b, i, j - 1);
  }

  /**
   * With a tie, two buy crossovers follow each other with no sell between:
   * fast - slow runs -1, 1, 0, 1.
   */
  lemma TieAllowsRepeatedBuy()
    ensures var a, b := [Some(1.0), Some(3.0), Some(2.0), Some(4.0)], [Some(2.0), Some(2.0), Some(2.0), Some(3.0)];
      CrossOver(a, b, 1) && CrossOver(a, b, 3) && !CrossUnder(a, b, 2)
  {
  }

  /** fast = [1,2,3,4], slow = [2,2,2,2]: the crossover fires at index 2 and nowhere else. */
  lemma CrossOverExample()
    ensures var a, b := [Some(1.0), Some(2.0), Some(3.0), Some(4.0)], [Some(2.0), Some(2.0), Some(2.0), Some(2.0)];
      forall i :: 0 <= i < 4 ==> (CrossOver(a, b, i) <==> i == 2)
  {
  }

  /**
   * Multiplying r2 and its threshold by the same positive factor leaves the
   * cross-under flags unchanged: 0.9 on the 0-1 scale is 90 on the 0-100 scale.
   */
  lemma CrossUnderScaleInvariant(r2s: Column, t: real, k: real, i: int)
    requires k > 0.0 && 0 <= i < |r2s|
    ensures ThresholdCrossUnder(Scale(r2s, k), k * t, i) <==> ThresholdCrossUnder(r2s, t, i)
  {
    var ys := Scale(r2s, k);
    ScaledComparisons(r2s[i], k, t);
    if i > 0 {
      ScaledComparisons(r2s[i - 1], k, t);
    }
  }

  /** The threshold rules compare scaled cells with a scaled level the same way. */
  lemma ScaledComparisons(x: Option<real>, k: real, t: real)
    requires k > 0.0
    ensures Gt(ScaleBy(x, k), Level(k * t)) <==> Gt(x, Level(t))
    ensures Le(ScaleBy(x, k), Level(k * t)) <==> Le(x, Level(t))
  {
    if x.Some? {
      var y := ScaleBy(x, k);
      assert y.Some? && y.value == k * x.value;
      if x.value > t {
        assert k * x.value > k * t;
      } else {
        assert k * x.value <= k * t;
      }
    }
  }

  /** The same for the threshold buy/sell rules: only the high level scales. */
  lemma ThresholdScaleInvariant(r2s: Column, rsi: Column, high: real, oversold: real, overbought: real, k: real, i: int)
    requires k > 0.0 && |r2s| == |rsi| && 0 <= i < |r2s|
    ensures ThresholdFlags(Scale(r2s, k), rsi, k * high, oversold, overbought, i)
         == ThresholdFlags(r2s, rsi, high, oversold, overbought, i)
  {
    ScaledComparisons(r2s[i], k, high);
  }
}
