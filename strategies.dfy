/**
 * The three signal rules the scanners run over a frame of bars, and the
 * indicator columns each rule builds first.
 */
module Strategies {
  import opened Wrappers
  import opened Bars
  import opened Indicators
  import opened Signals

  /**
   * The floating-point library code the rules call, as functions of their
   * input: `ta.linreg` over one trailing window, `np.corrcoef` of a window
   * with the positions 0..n-1, and pandas_ta RSI of a given length at the
   * last bar of a close series (it depends on the whole prefix).
   */
  datatype Numerics = Numerics(
    linreg: seq<real> -> Option<real>,
    corr: seq<real> -> Option<real>,
    rsi: (nat, seq<real>) -> Option<real>)

  datatype Rule =
      /** buy/sell when `linreg(Close, fast)` crosses above/below `linreg(Close, slow)`. */
    | LinregCross(fast: nat, slow: nat)
      /** cross when the `avgLen`-bar mean of `scale * r2(hl2, length)` falls through `threshold`. */
    | R2CrossUnder(length: nat, avgLen: nat, scale: real, threshold: real)
      /**
       * buy when the `avgLen`-bar mean of `scale * r2(Close, length)` is above
       * `high` and RSI is below `oversold`; sell when it is above `high` and
       * RSI is above `overbought`.
       */
    | R2Rsi(length: nat, avgLen: nat, scale: real, rsiLen: nat, high: real, oversold: real, overbought: real)

  predicate ValidRule(r: Rule) {
    match r
    case LinregCross(fast, slow) => fast >= 1 && slow >= 1
    case R2CrossUnder(length, avgLen, _, _) => length >= 1 && avgLen >= 1
    case R2Rsi(length, avgLen, _, _, _, _, _) => length >= 1 && avgLen >= 1
  }

  /** `ta.linreg(df['Close'], length=len)`. */
  function Linreg(nm: Numerics, bars: seq<Bar>, len: nat): (c: Column)
    requires len >= 1
    ensures |c| == |bars|
    ensures forall i :: 0 <= i < |bars| && c[i].Some? ==> i >= len - 1
  {
    Rolling(Defined(Closes(bars)), len, nm.linreg)
  }

  /** From bar `len - 1` on, the regression is `ta.linreg` of the trailing `len` closes. */
  lemma LinregWindow(nm: Numerics, bars: seq<Bar>, len: nat, i: int)
    requires len >= 1 && len - 1 <= i < |bars|
    ensures Linreg(nm, bars, len)[i] == nm.linreg(Closes(bars)[i - len + 1 .. i + 1])
  {
    var closes := Closes(bars);
    var win := Defined(closes)[i - len + 1 .. i + 1];
    assert AllDefined(win);
    assert Values(win) == closes[i - len + 1 .. i + 1];
  }

  /** `r2_smoothed`: the `avgLen`-bar mean of the scaled r2 of `src`. */
  function SmoothedR2(nm: Numerics, src: seq<real>, length: nat, avgLen: nat, scale: real): (c: Column)
    requires length >= 1 && avgLen >= 1
    ensures |c| == |src|
    ensures forall i :: 0 <= i < |src| && c[i].Some? ==> i >= length + avgLen - 2
  {
    var r2 := R2(Defined(src), length, nm.corr, scale);
    var c := Smooth(r2, avgLen);
    assert forall i :: 0 <= i < |src| && c[i].Some? ==> r2[i - avgLen + 1 .. i + 1][0].Some?;
    c
  }

  /** The `RSI_<len>` column: RSI at each bar of the closes up to that bar. */
  function Rsi(nm: Numerics, bars: seq<Bar>, len: nat): (c: Column)
    ensures |c| == |bars|
    ensures forall i :: 0 <= i < |bars| ==> c[i] == nm.rsi(len, Closes(bars)[..i + 1])
  {
    var closes := Closes(bars);
    seq(|bars|, i requires 0 <= i < |bars| => nm.rsi(len, closes[..i + 1]))
  }

  /** RSI at a bar never looks ahead: the column of a prefix is the prefix of the column. */
  lemma RsiNoLookahead(nm: Numerics, bars: seq<Bar>, len: nat, k: nat)
    requires k <= |bars|
    ensures Rsi(nm, bars[..k], len) == Rsi(nm, bars, len)[..k]
  {
    var a, b := Rsi(nm, bars[..k], len), Rsi(nm, bars, len)[..k];
    forall i | 0 <= i < k ensures a[i] == b[i] {
      assert Closes(bars[..k])[..i + 1] == Closes(bars)[..i + 1];
    }
  }

  /** The flags a rule writes on every bar of a frame. */
  function Evaluate(nm: Numerics, r: Rule, bars: seq<Bar>): (flags: seq<Flags>)
    requires ValidRule(r)
    ensures |flags| == |bars|
    ensures forall i :: 0 <= i < |bars| ==> (flags[i].BuySell? <==> !r.R2CrossUnder?)
  {
    match r
    case LinregCross(fast, slow) =>
      var reg1, reg2 := Linreg(nm, bars, fast), Linreg(nm, bars, slow);
      seq(|bars|, i requires 0 <= i < |bars| => CrossFlags(reg1, reg2, i))
    case R2CrossUnder(length, avgLen, scale, threshold) =>
      var r2s := SmoothedR2(nm, Hl2s(bars), length, avgLen, scale);
      seq(|bars|, i requires 0 <= i < |bars| => CrossUnderFlags(r2s, threshold, i))
    case R2Rsi(length, avgLen, scale, rsiLen, high, oversold, overbought) =>
      var r2s := SmoothedR2(nm, Closes(bars), length, avgLen, scale);
      var rsi := Rsi(nm, bars, rsiLen);
      seq(|bars|, i requires 0 <= i < |bars| => ThresholdFlags(r2s, rsi, high, oversold, overbought, i))
  }

  /** The price columns a rule reads: Close for the regressions, r2 of Close and RSI; High and Low for hl2. */
  function RuleFields(r: Rule): (fs: set<Field>)
    ensures fs <= Ohlcv && fs != {}
    ensures Volume !in fs && Open !in fs
  {
    match r
    case LinregCross(_, _) => {Close}
    case R2CrossUnder(_, _, _, _) => {High, Low}
    case R2Rsi(_, _, _, _, _, _, _) => {Close}
  }

  /** A rule's flags depend on the index and the columns it reads, and on nothing else. */
  lemma EvaluateReadsOnly(nm: Numerics, r: Rule, a: seq<Bar>, b: seq<Bar>)
    requires ValidRule(r) && AgreeOn(a, b, RuleFields(r))
    ensures Evaluate(nm, r, a) == Evaluate(nm, r, b)
  {
    match r
    case LinregCross(fast, slow) =>
      ClosesReadClose(a, b, RuleFields(r));
    case R2CrossUnder(length, avgLen, scale, threshold) =>
      Hl2sReadHighLow(a, b, RuleFields(r));
    case R2Rsi(length, avgLen, scale, rsiLen, high, oversold, overbought) =>
      ClosesReadClose(a, b, RuleFields(r));
  }

  /** No flag is both a buy and a sell, whatever the rule (for R2Rsi given oversold <= overbought). */
  lemma BuySellExclusive(nm: Numerics, r: Rule, bars: seq<Bar>, i: int)
    requires ValidRule(r) && 0 <= i < |bars|
    requires r.R2Rsi? ==> r.oversold <= r.overbought
    ensures var f := Evaluate(nm, r, bars)[i]; f.BuySell? ==> !(f.buy && f.sell)
  {
  }

  /** A linreg crossover needs both regressions on this bar and the one before. */
  lemma LinregCrossWarmup(nm: Numerics, fast: nat, slow: nat, bars: seq<Bar>, i: int)
    requires fast >= 1 && slow >= 1 && 0 <= i < |bars|
    requires Flagged(Evaluate(nm, LinregCross(fast, slow), bars)[i])
    ensures i >= fast && i >= slow
  {
    var reg1, reg2 := Linreg(nm, bars, fast), Linreg(nm, bars, slow);
    assert CrossFlags(reg1, reg2, i) == Evaluate(nm, LinregCross(fast, slow), bars)[i];
    assert reg1[i - 1].Some? && reg2[i - 1].Some?;
  }

  /**
   * The r2 cross-under cannot fire before `length + avgLen - 1` bars exist:
   * it compares two smoothed values, the earlier of which needs
   * `length + avgLen - 1` source values.
   */
  lemma R2CrossWarmup(nm: Numerics, length: nat, avgLen: nat, scale: real, t: real, bars: seq<Bar>, i: int)
    requires length >= 1 && avgLen >= 1 && 0 <= i < |bars|
    requires Flagged(Evaluate(nm, R2CrossUnder(length, avgLen, scale, t), bars)[i])
    ensures i >= length + avgLen - 1
  {
    var src := Hl2s(bars);
    var r2s := SmoothedR2(nm, src, length, avgLen, scale);
    assert CrossUnderFlags(r2s, t, i) == Evaluate(nm, R2CrossUnder(length, avgLen, scale, t), bars)[i];
    assert r2s[i - 1].Some?;
    SmoothedR2Warmup(Defined(src), length, avgLen, nm.corr, scale, i - 1);
  }

  /** The r2-and-RSI rule needs a smoothed r2, hence `length + avgLen - 1` bars. */
  lemma R2RsiWarmup(nm: Numerics, r: Rule, bars: seq<Bar>, i: int)
    requires r.R2Rsi? && ValidRule(r) && 0 <= i < |bars|
    requires Flagged(Evaluate(nm, r, bars)[i])
    ensures i >= r.length + r.avgLen - 2
  {
    var src := Closes(bars);
    var r2s := SmoothedR2(nm, src, r.length, r.avgLen, r.scale);
    var rsi := Rsi(nm, bars, r.rsiLen);
    assert ThresholdFlags(r2s, rsi, r.high, r.oversold, r.overbought, i) == Evaluate(nm, r, bars)[i];
    SmoothedR2Warmup(Defined(src), r.length, r.avgLen, nm.corr, r.scale, i);
  }

  /**
   * r2 on a 0-100 scale against 90 flags the same bars as r2 on a 0-1
   * scale against 0.9: any positive scale works once the threshold scales with it.
   */
  lemma R2CrossScaleInvariant(nm: Numerics, length: nat, avgLen: nat, scale: real, t: real, k: real, bars: seq<Bar>)
    requires length >= 1 && avgLen >= 1 && k > 0.0
    ensures Evaluate(nm, R2CrossUnder(length, avgLen, k * scale, k * t), bars)
         == Evaluate(nm, R2CrossUnder(length, avgLen, scale, t), bars)
  {
    var src := Defined(Hl2s(bars));
    var raw := Rolling(src, length, v => Squared(nm.corr(v)));
    var small := SmoothedR2(nm, Hl2s(bars), length, avgLen, scale);
    var big := SmoothedR2(nm, Hl2s(bars), length, avgLen, k * scale);
    assert big == Scale(small, k) by {
      ScaleTwice(raw, scale, k);
      SmoothScale(Scale(raw, scale), avgLen, k);
    }
    var lhs := Evaluate(nm, R2CrossUnder(length, avgLen, k * scale, k * t), bars);
    var rhs := Evaluate(nm, R2CrossUnder(length, avgLen, scale, t), bars);
    forall i | 0 <= i < |bars| ensures lhs[i] == rhs[i] {
      CrossUnderScaleInvariant(small, t, k, i);
    }
  }

  /** The same for the r2-and-RSI rule: scaling r2 and its high level together changes nothing. */
  lemma R2RsiScaleInvariant(nm: Numerics, length: nat, avgLen: nat, scale: real, rsiLen: nat,
                            high: real, oversold: real, overbought: real, k: real, bars: seq<Bar>)
    requires length >= 1 && avgLen >= 1 && k > 0.0
    ensures Evaluate(nm, R2Rsi(length, avgLen, k * scale, rsiLen, k * high, oversold, overbought), bars)
         == Evaluate(nm, R2Rsi(length, avgLen, scale, rsiLen, high, oversold, overbought), bars)
  {
    var raw := Rolling(Defined(Closes(bars)), length, v => Squared(nm.corr(v)));
    var small := SmoothedR2(nm, Closes(bars), length, avgLen, scale);
    var big := SmoothedR2(nm, Closes(bars), length, avgLen, k * scale);
    assert big == Scale(small, k) by {
      ScaleTwice(raw, scale, k);
      SmoothScale(Scale(raw, scale), avgLen, k);
    }
    var rsi := Rsi(nm, bars, rsiLen);
    var lhs := Evaluate(nm, R2Rsi(length, avgLen, k * scale, rsiLen, k * high, oversold, overbought), bars);
    var rhs := Evaluate(nm, R2Rsi(length, avgLen, scale, rsiLen, high, oversold, overbought), bars);
    forall i | 0 <= i < |bars| ensures lhs[i] == rhs[i] {
      assert lhs[i] == ThresholdFlags(big, rsi, k * high, oversold, overbought, i);
      assert rhs[i] == ThresholdFlags(small, rsi, high, oversold, overbought, i);
      ThresholdScaleInvariant(small, rsi, high, oversold, overbought, k, i);
    }
  }

  /** Scaling by `s` and then by `k` is scaling by `k * s`. */
  lemma ScaleTwice(xs: Column, s: real, k: real)
    ensures Scale(xs, k * s) == Scale(Scale(xs, s), k)
  {
    var a, b := Scale(xs, k * s), Scale(Scale(xs, s), k);
    forall i | 0 <= i < |xs| ensures a[i] == b[i] {
      if xs[i].Some? {
        var x := xs[i].value;
        assert a[i].Some? && a[i].value == (k * s) * x;
        assert b[i].Some? && b[i].value == k * (s * x);
      }
    }
  }
}
