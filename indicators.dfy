/**
 * Indicator columns: pandas rolling windows, the 3-bar simple moving average,
 * the rolling squared correlation `r2` and its scaling. The numerics of
 * `ta.linreg`, `np.corrcoef` and RSI are parameters (functions of a window).
 */
module Indicators {
  import opened Wrappers

  /** A column aligned 1:1 with its frame; `None` stands for NaN. */
  type Column = seq<Option<real>>

  /** A fully populated column. */
  function Defined(xs: seq<real>): Column {
    seq(|xs|, i requires 0 <= i < |xs| => Some(xs[i]))
  }

  predicate AllDefined(c: Column) {
    forall j :: 0 <= j < |c| ==> c[j].Some?
  }

  function Values(c: Column): (v: seq<real>)
    requires AllDefined(c)
    ensures |v| == |c|
    ensures forall j :: 0 <= j < |c| ==> Some(v[j]) == c[j]
  {
    seq(|c|, j requires 0 <= j < |c| => c[j].value)
  }

  /** The trailing window of width `w` ending at row `i`, or NaN when it is short or holds a NaN. */
  function WindowValue(xs: Column, w: nat, f: seq<real> -> Option<real>, i: int): Option<real>
    requires w >= 1 && 0 <= i < |xs|
  {
    if i < w - 1 then None
    else
      var win := xs[i - w + 1 .. i + 1];
      if AllDefined(win) then f(Values(win)) else None
  }

  /**
   * `xs.rolling(window=w).apply(f)` with pandas' default `min_periods = w`:
   * a row has a value only when it ends a full window without NaN.
   */
  function Rolling(xs: Column, w: nat, f: seq<real> -> Option<real>): (r: Column)
    requires w >= 1
    ensures |r| == |xs|
    ensures forall i :: 0 <= i < |xs| ==> r[i] == WindowValue(xs, w, f, i)
    ensures forall i :: 0 <= i < |xs| && r[i].Some? ==> i >= w - 1 && AllDefined(xs[i - w + 1 .. i + 1])
  {
    seq(|xs|, i requires 0 <= i < |xs| => WindowValue(xs, w, f, i))
  }

  function Sum(v: seq<real>): real {
    if v == [] then 0.0 else v[0] + Sum(v[1..])
  }

  function Mean(v: seq<real>): real {
    if v == [] then 0.0 else Sum(v) / (|v| as real)
  }

  function MeanOf(v: seq<real>): Option<real> {
    Some(Mean(v))
  }

  /** `rolling(window=w).mean()`: the exact trailing mean. */
  function Smooth(xs: Column, w: nat): (r: Column)
    requires w >= 1
    ensures |r| == |xs|
    ensures forall i :: 0 <= i < |xs| ==>
      (r[i].Some? <==> i >= w - 1 && AllDefined(xs[i - w + 1 .. i + 1]))
    ensures forall i :: 0 <= i < |xs| && r[i].Some? ==>
      i >= w - 1 && AllDefined(xs[i - w + 1 .. i + 1]) && r[i].value == Mean(Values(xs[i - w + 1 .. i + 1]))
  {
    Rolling(xs, w, MeanOf)
  }

  function ScaleBy(o: Option<real>, k: real): Option<real> {
    match o
    case None => None
    case Some(x) => Some(k * x)
  }

  /** A column multiplied by a constant; NaN stays NaN. */
  function Scale(xs: Column, k: real): (r: Column)
    ensures |r| == |xs|
    ensures forall i :: 0 <= i < |xs| ==> (r[i].Some? <==> xs[i].Some?)
  {
    seq(|xs|, i requires 0 <= i < |xs| => ScaleBy(xs[i], k))
  }

  function Squared(o: Option<real>): Option<real> {
    match o
    case None => None
    case Some(x) => Some(x * x)
  }

  /**
   * `r2`: the squared correlation of each `length`-window with the positions
   * 0..length-1, multiplied by `scale` (100 for the 0-100 scale, 1 otherwise).
   * `corr` is `np.corrcoef(...)[0, 1]`; it yields NaN on a constant window.
   */
  function R2(src: Column, length: nat, corr: seq<real> -> Option<real>, scale: real): (r: Column)
    requires length >= 1
    ensures |r| == |src|
    ensures forall i :: 0 <= i < |src| && r[i].Some? ==> i >= length - 1 && AllDefined(src[i - length + 1 .. i + 1])
  {
    Scale(Rolling(src, length, v => Squared(corr(v))), scale)
  }

  /** Scaling by `k` and then by `1/k` gives the column back, NaN cells included. */
  lemma ScaleInverse(xs: Column, k: real)
    requires k != 0.0
    ensures Scale(Scale(xs, k), 1.0 / k) == xs
  {
    var zs := Scale(xs, k);
    var ys := Scale(zs, 1.0 / k);
    forall i | 0 <= i < |xs| ensures ys[i] == xs[i] {
      assert zs[i] == ScaleBy(xs[i], k);
      assert ys[i] == ScaleBy(zs[i], 1.0 / k);
      if xs[i].Some? {
        var x := xs[i].value;
        assert zs[i].value == k * x;
        assert 1.0 / k * k == 1.0;
        assert 1.0 / k * (k * x) == (1.0 / k * k) * x == x;
        assert ys[i].Some? && ys[i].value == x;
      }
    }
  }

  /** A correlation coefficient never leaves [-1, 1]. */
  ghost predicate IsCorrelation(corr: seq<real> -> Option<real>) {
    forall v :: corr(v).Some? ==> -1.0 <= corr(v).value <= 1.0
  }

  lemma {:induction false} SumBounds(v: seq<real>, lo: real, hi: real)
    requires forall j :: 0 <= j < |v| ==> lo <= v[j] <= hi
    ensures (|v| as real) * lo <= Sum(v) <= (|v| as real) * hi
    decreases |v|
  {
    if v != [] {
      SumBounds(v[1..], lo, hi);
      assert (|v| as real) * lo == lo + (|v[1..]| as real) * lo;
      assert (|v| as real) * hi == hi + (|v[1..]| as real) * hi;
    }
  }

  /** The mean of values inside [lo, hi] stays inside [lo, hi]. */
  lemma MeanBounds(v: seq<real>, lo: real, hi: real)
    requires v != []
    requires forall j :: 0 <= j < |v| ==> lo <= v[j] <= hi
    ensures lo <= Mean(v) <= hi
  {
    SumBounds(v, lo, hi);
    var n := |v| as real;
    var m := Mean(v);
    assert m * n == Sum(v);
    if m < lo {
      assert (lo - m) * n > 0.0;
    }
    if m > hi {
      assert (m - hi) * n > 0.0;
    }
  }

  /** Every value multiplied by `k`. */
  function Times(v: seq<real>, k: real): (r: seq<real>)
    ensures |r| == |v|
    ensures forall j :: 0 <= j < |v| ==> r[j] == k * v[j]
  {
    seq(|v|, j requires 0 <= j < |v| => k * v[j])
  }

  lemma {:induction false} SumScale(v: seq<real>, k: real)
    ensures Sum(Times(v, k)) == k * Sum(v)
    decreases |v|
  {
    if v != [] {
      SumScale(v[1..], k);
      var a, b := Times(v, k)[1..], Times(v[1..], k);
      assert |a| == |b|;
      forall j | 0 <= j < |a| ensures a[j] == b[j] {
        assert a[j] == Times(v, k)[j + 1];
        assert b[j] == k * v[1..][j];
      }
      assert a == b;
    }
  }

  /** Scaling a window commutes with taking its mean. */
  lemma WindowScale(win: Column, k: real)
    ensures AllDefined(Scale(win, k)) <==> AllDefined(win)
    ensures AllDefined(win) && win != [] ==> Mean(Values(Scale(win, k))) == k * Mean(Values(win))
  {
    var ywin := Scale(win, k);
    assert forall j :: 0 <= j < |win| ==> (ywin[j].Some? <==> win[j].Some?);
    if AllDefined(win) && win != [] {
      var v := Values(win);
      var a, b := Values(ywin), Times(v, k);
      forall j | 0 <= j < |a| ensures a[j] == b[j] {
        assert Some(a[j]) == ywin[j] == ScaleBy(win[j], k);
        assert Some(v[j]) == win[j];
      }
      assert a == b;
      SumScale(v, k);
    }
  }

  /** A slice of a scaled column is the scaled slice. */
  lemma SliceScale(xs: Column, k: real, lo: nat, hi: nat)
    requires lo <= hi <= |xs|
    ensures Scale(xs, k)[lo .. hi] == Scale(xs[lo .. hi], k)
  {
    var a, b := Scale(xs, k)[lo .. hi], Scale(xs[lo .. hi], k);
    forall j | 0 <= j < |a| ensures a[j] == b[j] {
    }
  }

  lemma SmoothScaleAt(xs: Column, w: nat, k: real, i: nat)
    requires w >= 1 && w - 1 <= i < |xs|
    ensures Smooth(Scale(xs, k), w)[i] == ScaleBy(Smooth(xs, w)[i], k)
  {
    var ys := Scale(xs, k);
    var lo := i - w + 1;
    var win := xs[lo .. i + 1];
    var ywin := ys[lo .. i + 1];
    SliceScale(xs, k, lo, i + 1);
    assert ywin == Scale(win, k);
    WindowScale(win, k);
    assert Smooth(ys, w)[i] == WindowValue(ys, w, MeanOf, i);
    assert Smooth(xs, w)[i] == WindowValue(xs, w, MeanOf, i);
    if AllDefined(win) {
      assert |win| == w;
      var m := Mean(Values(win));
      assert WindowValue(xs, w, MeanOf, i) == MeanOf(Values(win)) == Some(m);
      assert win != [];
      assert Mean(Values(Scale(win, k))) == k * m;
      assert AllDefined(ywin);
      assert Values(ywin) == Values(Scale(win, k));
      assert WindowValue(ys, w, MeanOf, i) == MeanOf(Values(ywin)) == Some(k * m);
      var sx := Smooth(xs, w)[i];
      assert sx == Some(m);
      var r := ScaleBy(sx, k);
      assert r.Some? && r.value == k * m;
    } else {
      assert !AllDefined(ywin);
    }
  }

  /** Smoothing and scaling commute: the mean of `k * r2` is `k` times the mean of `r2`. */
  lemma SmoothScale(xs: Column, w: nat, k: real)
    requires w >= 1
    ensures Smooth(Scale(xs, k), w) == Scale(Smooth(xs, w), k)
  {
    var lhs := Smooth(Scale(xs, k), w);
    var rhs := Scale(Smooth(xs, w), k);
    forall i | 0 <= i < |xs|
      ensures lhs[i] == rhs[i]
    {
      if i >= w - 1 {
        SmoothScaleAt(xs, w, k, i);
      }
    }
  }

  /** `r2` lies in [0, scale] wherever it is defined. */
  lemma R2Bounds(src: Column, length: nat, corr: seq<real> -> Option<real>, scale: real, i: nat)
    requires length >= 1 && scale >= 0.0 && IsCorrelation(corr) && i < |src|
    requires R2(src, length, corr, scale)[i].Some?
    ensures 0.0 <= R2(src, length, corr, scale)[i].value <= scale
  {
    var raw := Rolling(src, length, v => Squared(corr(v)));
    assert R2(src, length, corr, scale)[i] == ScaleBy(raw[i], scale);
    assert raw[i].Some?;
    var win := src[i - length + 1 .. i + 1];
    assert i >= length - 1 && AllDefined(win);
    var c := corr(Values(win));
    assert raw[i] == Squared(c);
    assert c.Some? && -1.0 <= c.value <= 1.0;
    var x := c.value;
    assert x * x <= 1.0 by {
      if x >= 0.0 { assert x * x <= x * 1.0; } else { assert x * x <= (-x) * 1.0; }
    }
    assert R2(src, length, corr, scale)[i].value == scale * (x * x);
    assert 0.0 <= scale * (x * x) <= scale * 1.0;
  }

  /** The smoothed `r2` lies in [0, scale] wherever it is defined. */
  lemma SmoothedR2Bounds(src: Column, length: nat, avgLen: nat, corr: seq<real> -> Option<real>, scale: real, i: nat)
    requires length >= 1 && avgLen >= 1 && scale >= 0.0 && IsCorrelation(corr) && i < |src|
    requires Smooth(R2(src, length, corr, scale), avgLen)[i].Some?
    ensures 0.0 <= Smooth(R2(src, length, corr, scale), avgLen)[i].value <= scale
  {
    var r2 := R2(src, length, corr, scale);
    var win := r2[i - avgLen + 1 .. i + 1];
    var v := Values(win);
    forall j | 0 <= j < |v|
      ensures 0.0 <= v[j] <= scale
    {
      R2Bounds(src, length, corr, scale, i - avgLen + 1 + j);
    }
    MeanBounds(v, 0.0, scale);
  }

  /**
   * The smoothed `r2` is missing until `length + avgLen - 1` source values
   * exist: `r2` needs a full `length`-window, its mean a full `avgLen`-window of `r2`.
   */
  lemma SmoothedR2Warmup(src: Column, length: nat, avgLen: nat, corr: seq<real> -> Option<real>, scale: real, i: nat)
    requires length >= 1 && avgLen >= 1 && i < |src|
    requires Smooth(R2(src, length, corr, scale), avgLen)[i].Some?
    ensures i >= length + avgLen - 2
  {
    var r2 := R2(src, length, corr, scale);
    var first := i - avgLen + 1;
    assert r2[i - avgLen + 1 .. i + 1][0] == r2[first];
    assert r2[first].Some?;
  }

  /**
   * On a column that is NaN exactly before row `d`, the `w`-bar mean is
   * defined exactly from row `d + w - 1` on.
   */
  lemma SmoothDefinedFrom(xs: Column, w: nat, d: nat)
    requires w >= 1
    requires forall i :: 0 <= i < |xs| ==> (xs[i].Some? <==> i >= d)
    ensures forall i :: 0 <= i < |xs| ==> (Smooth(xs, w)[i].Some? <==> i >= d + w - 1)
  {
    forall i | 0 <= i < |xs|
      ensures Smooth(xs, w)[i].Some? <==> i >= d + w - 1
    {
      if i >= w - 1 {
        var win := xs[i - w + 1 .. i + 1];
        assert win[0] == xs[i - w + 1];
        if i >= d + w - 1 {
          assert forall j :: 0 <= j < |win| ==> win[j] == xs[i - w + 1 + j];
        }
      }
    }
  }

  /**
   * A rolling fit that always succeeds on a full window (such as `ta.linreg`)
   * over a NaN-free column is defined exactly from row `w - 1` on.
   */
  lemma RollingDefinedFrom(xs: seq<real>, w: nat, f: seq<real> -> Option<real>)
    requires w >= 1
    requires forall v :: f(v).Some?
    ensures forall i :: 0 <= i < |xs| ==> (Rolling(Defined(xs), w, f)[i].Some? <==> i >= w - 1)
  {
    var c := Defined(xs);
    forall i | 0 <= i < |xs|
      ensures Rolling(c, w, f)[i].Some? <==> i >= w - 1
    {
      if i >= w - 1 {
        assert AllDefined(c[i - w + 1 .. i + 1]);
      }
    }
  }
}
