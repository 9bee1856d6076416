/**
 * The eight scanner scripts as configurations of the shared engine, and what
 * each one's configuration implies.
 */
module Scripts {
  import opened Wrappers
  import opened Bars
  import opened MarketClock
  import opened Signals
  import opened Strategies
  import opened RecentWindow
  import opened Throttle
  import opened Dispatch
  import opened Scanner
  import opened Runner

  /** linreg(25) against linreg(50) on closes. */
  const Linreg25x50 := LinregCross(25, 50)

  /** The 25-bar r2 of hl2 on the 0-1 scale, smoothed over 3 bars, falling through 0.9. */
  const R2Under09 := R2CrossUnder(25, 3, 1.0, 0.9)

  /** The 14-bar r2 of closes on the 0-100 scale, smoothed over 3 bars, above 90, with RSI(14) below 30 / above 70. */
  const R2Above90Rsi := R2Rsi(14, 3, 100.0, 14, 90.0, 30.0, 70.0)

  const LinregHeader2h := "2hr Screener Results:\nBuy = linreg(25) crosses above linreg(50)\nSell = linreg(25) crosses below linreg(50)\n\n"
  const R2Header2h := "2hr Screener Results:\nSignal: r2_smoothed (Length=25, AvgLen=3) crossing under 0.9\n\n"
  const NoLinregText := "2hr Screener Results:\nNo Linear Regression signals found in the last 2 hours."
  const NoR2Text := "2hr Screener Results:\nNo R² signals found in the last 2 hours."
  const ThrottledHeader := "Regression Cross Screener (sent every 2 hrs)\nBuy = linreg(25) crosses above linreg(50)\nSell = linreg(25) crosses below linreg(50)\n\n"

  /** twotest.py: no market gate, bulk download, 2h bars, both rules, both alerts always sent. */
  const Twotest := Config(
    Ungated, false, Some(2 * Hour), false, Ohlcv, true, 2 * Hour,
    [Channel(Linreg25x50, LinregHeader2h, AlwaysSend(NoLinregText)),
     Channel(R2Under09, R2Header2h, AlwaysSend(NoR2Text))])

  /** rcross2h.py: 09:25-16:15 gate, per-ticker download with a column check, 2h bars, throttled alert. */
  const Rcross2h := Config(
    MarketHours(Extended), false, Some(2 * Hour), true, Ohlcv, false, 2 * Hour,
    [Channel(Linreg25x50, ThrottledHeader, SendThrottled)])

  /** sellcross.py: regular gate, bulk download, 2h bars, r2 cross-under, send if any. */
  const Sellcross := Config(
    MarketHours(Regular), false, Some(2 * Hour), false, Ohlcv, true, 2 * Hour,
    [Channel(R2Under09, R2Header2h, SendIfAny)])

  /** main.py: regular gate, daily bars, r2 and RSI thresholds, 1-day window, no `try` around the compute step. */
  const MainScript := Config(
    MarketHours(Regular), false, None, false, {Close}, false, Day,
    [Channel(R2Above90Rsi, "Daily screener Results:\n Buy=R2>90 and rsi14<30 \n Sell=R2>90 and rsi14>70 \n", SendIfAny)])

  /** rcross1d.py: gate disabled, bulk download, daily crossover, 1-day window. */
  const Rcross1d := Config(
    Ungated, false, None, false, {Close}, true, Day,
    [Channel(Linreg25x50, "Daily Screener Results:\nBuy = linreg 25 crossover linreg 50\nSell = linreg 25 cross below linreg 50\n", SendIfAny)])

  /** rcross1h.py: regular gate, hourly crossover, a 1-hour window (`hoursback`). */
  const Rcross1h := Config(
    MarketHours(Regular), false, None, false, {Open, High, Low, Close}, false, Hour,
    [Channel(Linreg25x50, "linear regression crossover occurs 25,50\n 1hr timeframe \n", SendIfAny)])

  /** nrcross2h.py: run throttle first, then the regular gate, 2h bars, send if any. */
  const Nrcross2h := Config(
    MarketHours(Regular), true, Some(2 * Hour), true, Ohlcv, false, 2 * Hour,
    [Channel(Linreg25x50, ThrottledHeader, SendIfAny)])

  /** indicator.py: no gate, daily r2 and RSI thresholds, results only printed. */
  const Indicator := Config(
    Ungated, false, None, false, {Close}, false, Day,
    [Channel(R2Above90Rsi, "", PrintOnly)])

  /**
   * twotest.py never halts and never crashes: every invocation sends exactly
   * two messages, linreg first, and an empty list gets its fixed "No ...
   * signals" text.
   */
  lemma TwotestAlwaysSendsTwo(nm: Numerics, lastSent: StoredTime, lastRun: StoredTime,
                              weekday: int, clock: ClockTime, now: int, ls: seq<Listing>)
    ensures var t := RunSpec(Twotest, nm, lastSent, lastRun, weekday, clock, now, ls);
      && t.outcome.Finished?
      && |t.outcome.alerts| == 2
      && t.outcome.alerts[0].channel == 0 && t.outcome.alerts[1].channel == 1
      && (t.outcome.lists[0] == [] ==> t.outcome.alerts[0].text == NoLinregText)
      && (t.outcome.lists[1] == [] ==> t.outcome.alerts[1].text == NoR2Text)
  {
    assert ValidConfig(Twotest);
    var lists := Collected(Twotest, nm, ls).lists;
    AlwaysSendOnePerList(Twotest, lists, lastSent, now, 2);
    var s1 := DispatchUpTo(Twotest, lists, lastSent, now, 1);
    AlwaysSendOnePerList(Twotest, lists, lastSent, now, 1);
    assert DispatchUpTo(Twotest, lists, lastSent, now, 0).alerts == [];
    assert s1.alerts == DispatchOne(AlwaysSend(NoLinregText), 0, LinregHeader2h, lists[0], lastSent, now).alerts;
  }

  /** The send-if-any scanners send one message exactly when they found a signal, and never touch the alert timestamp. */
  lemma SendIfAnyScriptsExactly(cfg: Config, nm: Numerics, lastSent: StoredTime, lastRun: StoredTime,
                                weekday: int, clock: ClockTime, now: int, ls: seq<Listing>)
    requires cfg in {Sellcross, MainScript, Rcross1d, Rcross1h, Nrcross2h}
    ensures var t := RunSpec(cfg, nm, lastSent, lastRun, weekday, clock, now, ls);
      && t.lastSent == lastSent
      && (t.outcome.Finished? ==> (|t.outcome.alerts| == 1 <==> t.outcome.lists[0] != []))
  {
    assert ValidConfig(cfg) && |cfg.channels| == 1 && cfg.channels[0].policy.SendIfAny?;
    SingleSendIfAnyExactly(cfg, nm, lastSent, lastRun, weekday, clock, now, ls);
  }

  /** indicator.py sends nothing, ever. */
  lemma IndicatorNeverSends(nm: Numerics, lastSent: StoredTime, lastRun: StoredTime,
                            weekday: int, clock: ClockTime, now: int, ls: seq<Listing>)
    ensures var t := RunSpec(Indicator, nm, lastSent, lastRun, weekday, clock, now, ls);
      (t.outcome.Finished? ==> t.outcome.alerts == []) && t.lastSent == lastSent
  {
    assert ValidConfig(Indicator);
    var t := RunSpec(Indicator, nm, lastSent, lastRun, weekday, clock, now, ls);
    if t.outcome.Finished? {
      assert DispatchUpTo(Indicator, t.outcome.lists, lastSent, now, 0) == Sent([], lastSent);
    }
  }

  /**
   * In a script without a per-ticker `try` around its compute step, one
   * ticker whose indicators raise ends the run with nothing sent, whatever
   * the other tickers hold.
   */
  lemma UnguardedRaiseAborts(cfg: Config, nm: Numerics, ls: seq<Listing>, i: int)
    requires ValidConfig(cfg) && !cfg.guarded && 0 <= i < |ls|
    requires ls[i].fetched.Frame? && ls[i].fetched.bars != [] && ls[i].fetched.raises
    requires cfg.checksColumns ==> Ohlcv <= ls[i].fetched.columns
    requires Collected(cfg, nm, ls[..i]).Results?
    ensures Collected(cfg, nm, ls).Crashed?
  {
    assert ls[..i + 1][..i] == ls[..i];
    assert ls[..i + 1][i] == ls[i];
    assert Outcome(cfg, nm, ls[i]).Crash?;
    CrashIsFinal(cfg, nm, ls, i + 1);
  }

  /**
   * A frame with no Volume column: the scripts that resample skip the ticker
   * (their aggregation, or their column check, names Volume), and the others,
   * which never read Volume, scan it as usual; none of them crashes.
   */
  lemma MissingVolume(cfg: Config, nm: Numerics, l: Listing)
    requires cfg in {Twotest, Rcross2h, Sellcross, MainScript, Rcross1d, Rcross1h, Nrcross2h, Indicator}
    requires l.fetched.Frame? && l.fetched.bars != [] && !l.fetched.raises
    requires l.fetched.columns == {Open, High, Low, Close}
    ensures Outcome(cfg, nm, l).Contribute? <==> cfg.resampleWidth.None?
    ensures !Outcome(cfg, nm, l).Crash?
  {
    assert ValidConfig(cfg);
    if cfg.resampleWidth.Some? {
      assert Volume in cfg.needs;
      MissingReadColumn(cfg, nm, l);
    }
  }

  /**
   * A frame with no Close column: rcross1d.py skips it inside its `try`, the
   * resampling scripts skip it, and main.py, rcross1h.py and indicator.py,
   * which read Close with no `try` around them, crash the run.
   */
  lemma MissingClose(cfg: Config, nm: Numerics, l: Listing)
    requires cfg in {Twotest, Rcross2h, Sellcross, MainScript, Rcross1d, Rcross1h, Nrcross2h, Indicator}
    requires l.fetched.Frame? && l.fetched.bars != [] && Close !in l.fetched.columns
    ensures Outcome(cfg, nm, l) == (if cfg in {MainScript, Rcross1h, Indicator} then Crash else Skip)
  {
    assert ValidConfig(cfg) && Close in cfg.needs;
    MissingReadColumn(cfg, nm, l);
  }

  /** main.py's `r2 * 100 > 90` flags exactly the bars that `r2 > 0.9` on the 0-1 scale would. */
  lemma MainScaleMatchesUnitScale(nm: Numerics, bars: seq<Bar>)
    ensures Evaluate(nm, R2Above90Rsi, bars) == Evaluate(nm, R2Rsi(14, 3, 1.0, 14, 0.9, 30.0, 70.0), bars)
  {
    R2RsiScaleInvariant(nm, 14, 3, 1.0, 14, 0.9, 30.0, 70.0, 100.0, bars);
  }

  /** The r2 cross-under of twotest.py and sellcross.py on the 0-100 scale would need the threshold 90. */
  lemma R2UnderScaled(nm: Numerics, bars: seq<Bar>)
    ensures Evaluate(nm, R2CrossUnder(25, 3, 100.0, 90.0), bars) == Evaluate(nm, R2Under09, bars)
  {
    R2CrossScaleInvariant(nm, 25, 3, 1.0, 0.9, 100.0, bars);
  }

  /** The flags of every script never hold buy and sell on the same bar. */
  lemma ScriptFlagsExclusive(cfg: Config, nm: Numerics, bars: seq<Bar>, c: int, i: int)
    requires cfg in {Twotest, Rcross2h, Sellcross, MainScript, Rcross1d, Rcross1h, Nrcross2h, Indicator}
    requires 0 <= c < |cfg.channels| && 0 <= i < |bars|
    ensures ValidRule(cfg.channels[c].rule)
    ensures var f := Evaluate(nm, cfg.channels[c].rule, bars)[i]; f.BuySell? ==> !(f.buy && f.sell)
  {
    BuySellExclusive(nm, cfg.channels[c].rule, bars, i);
  }

  /** A linreg(25)/linreg(50) crossover needs at least 51 bars: none fires before index 50. */
  lemma LinregNeedsFiftyOneBars(nm: Numerics, bars: seq<Bar>, i: int)
    requires 0 <= i < |bars| && Flagged(Evaluate(nm, Linreg25x50, bars)[i])
    ensures i >= 50
  {
    LinregCrossWarmup(nm, 25, 50, bars, i);
  }
}
