# spxscanner scanners in Dafny

The repository is a family of near-duplicate S&P 500 screeners:

- `twotest.py`, `rcross2h.py`, `sellcross.py`, `main.py`, `rcross1d.py`, `rcross1h.py`, `nrcross2h.py`, `indicator.py`.

Each screener runs the same pipeline:

1. It optionally refuses to run: run throttle first, then the market-hours gate.
2. It fetches price bars per ticker.
3. It optionally resamples hourly bars to 2-hour bars.
4. It computes indicator columns: linear-regression lines, a rolling r² of price against bar position with 3-bar smoothing, and RSI.
5. It evaluates a per-bar rule:
   - a linreg(25)/linreg(50) crossover,
   - smoothed r² crossing under 0.9, or
   - smoothed r² above 90 combined with RSI below 30 / above 70.
6. It keeps the flagged bars that lie within a lookback of the frame's last bar.
7. It appends them as (ticker, date, flags) records, in ticker order and then time order.
8. It sends the result lists to Telegram: only when non-empty, always, under a two-hour alert throttle, or never.

The model is one parametrised engine. Each script is a value of `Scanner.Config`; module `Scripts` defines the eight values and proves facts about each. The modules are:

- `MarketClock`: `is_us_market_open` over (weekday, wall-clock time). The regular 09:30–16:00 session and the 09:25–16:15 session of `rcross2h.py` are both inclusive.
- `Bars`: OHLCV bars with integer timestamps in microseconds, the `hl2` column, and the set of columns a download actually has.
- `Resampler`: `resample('2h').agg(first/max/min/last/sum).dropna()`. On a strictly time-ordered frame it is proved equal to "aggregate every bar whose bucket label is k, for every occupied bucket k".
- `Indicators`: indicator columns as `seq<Option<real>>`, with `None` for NaN.
  - `rolling(w)` has min_periods w.
  - The exact 3-bar mean.
  - Scaling by a constant.
  - r² as the square of a correlation supplied as a parameter.
- `Signals`: the per-bar rules with pandas' NaN semantics: `shift(1)` is NaN at row 0, and every comparison with NaN is false. Also their exclusivity, alternation and scale invariance.
- `Strategies`: the three rules of the scripts, evaluated over a frame. `ta.linreg`, `np.corrcoef` and RSI are parameters (`Numerics`).
- `RecentWindow`: the cutoff `index.max() - lookback`, the `>= cutoff` filter, the flag filter and the `iterrows` records.
- `Throttle`: the stored alert time (`telegram_time.txt`) and run time (`LAST_RUN_TIME`). These are fields of a `ScanState` object; `CanRunNow` and `UpdateSendTime` update it in place.
- `Dispatch`: the four send policies for one result list.
- `Scanner`: the per-ticker step and the ticker loop (`Scan`, a method with loop invariants) that appends rows to the result lists.
  - A ticker is skipped when it is absent from the download or its frame is empty.
  - A frame may lack columns. Each script names the columns it touches (`Config.needs`):
    - `twotest.py` and `sellcross.py` aggregate all five columns inside their per-ticker `try`.
    - `rcross2h.py` and `nrcross2h.py` check all five inside the download `try` (`required_cols`).
    - `rcross1d.py` rounds only the columns present and reads only Close, inside its `try`.
    - `main.py` and `indicator.py` read only Close, with no `try`.
    - `rcross1h.py` rounds Open, High, Low and Close unconditionally, with no `try`.
  - A frame lacking a column the script touches is skipped by the first three kinds of script and ends the run in the last two. A column the script never touches is irrelevant.
  - A computation that raises is skipped inside a per-ticker `try` and otherwise ends the run.
- `Runner`: one invocation, `Run`, which updates `ScanState` in place. It is proved equal to the pure `RunSpec`.

Timestamps are exchange-local wall-clock times in microseconds. pandas' default resample origin is the start of the day, and 2 hours divides 24 hours. So a bar at local time t falls in the bucket labelled `floor(t / 2h) * 2h`.

The scripts differ in ways the model keeps as configuration, following the code of each:

- `twotest.py`, `sellcross.py` and `rcross1d.py` wrap each ticker's compute step in `try` and skip a ticker that raises. `rcross2h.py`, `nrcross2h.py`, `main.py`, `rcross1h.py` and `indicator.py` run the compute step outside any `try`; there an exception ends the run before anything is sent.
- The docstring of `rcross2h.py`'s `is_us_market_open` says 9:30–4:00, but the code tests 09:25–16:15. The model follows the code.
- `main.py` and `indicator.py` multiply r² by 100 and compare its smoothed value with 90. `twotest.py` and `sellcross.py` compare the 0–1 value with 0.9. The model keeps the scale as a parameter and proves that scaling r² and its threshold by the same positive factor changes no flag.

## Model

| member | source | states |
|---|---|---|
| MarketClock.NotAfterIffMicros | twotest.py:45-47 | comparing two same-day datetimes field by field agrees with comparing microseconds since midnight |
| MarketClock.IsOpen | twotest.py:36-47 | for valid clock times, the market is open iff the weekday is not 5 or 6 and open <= now <= close on one time axis, both bounds inclusive |
| MarketClock.RegularWithinExtended | rcross2h.py:23-29 | any instant open under 09:30–16:00 is also open under rcross2h's 09:25–16:15 |
| MarketClock.RegularBoundaries | sellcross.py:28-32 | boundaries: 09:30:00.000000 and 16:00:00.000000 are open; one microsecond outside either is closed; Saturday noon is closed; 16:15 is open only under the 09:25–16:15 window |
| Bars.Hl2 | sellcross.py:145 | hl2 is equidistant from high and low, and lies between them whenever low <= high |
| Bars.AgreeOnAll | rcross2h.py:149-152 | two frames with the same index that agree on all five OHLCV columns are the same frame |
| Bars.ClosesReadClose | twotest.py:177-178 | the close series depends only on the Close column |
| Bars.Hl2sReadHighLow | twotest.py:194 | the hl2 series depends only on the High and Low columns |
| Resampler.BucketOf | twotest.py:166 | a bar's bucket label is the start of the width-long interval that contains its timestamp |
| Resampler.BucketUnique | twotest.py:166 | that label is the only multiple of the width with this property |
| Resampler.BucketMonotone | twotest.py:166 | later bars never fall into earlier buckets |
| Resampler.MaxHigh | twotest.py:168 | the bucket high bounds every high in the bucket and is attained by one |
| Resampler.MinLow | twotest.py:169 | the bucket low is below every low in the bucket and is attained by one |
| Resampler.RunsPartition | twotest.py:166-172 | the groups concatenate back to the input: every bar lands in exactly one group, in order |
| Resampler.Resample | nrcross2h.py:116-122 | resampling never yields more bars than it was given, and yields some when given some |
| Resampler.ResampleByBucket | rcross2h.py:155-161 | on a strictly time-ordered frame, output timestamps increase. Each output bar is first open / max high / min low / last close / summed volume of exactly the input bars whose bucket is its label, and that set is non-empty, so empty buckets are dropped. Every input bar's bucket appears in the output |
| Resampler.ResampleIdempotent | sellcross.py:136-142 | resampling an already resampled frame at the same width changes nothing |
| Resampler.FourHourExample | twotest.py:166-172 | four hourly bars in one 4h bucket aggregate to open 10.0, high 12.4, low 8.7, close 12.0, volume 1000 |
| Indicators.Rolling | main.py:124-127 | a rolling value exists only at rows that end a full window of defined inputs (pandas' min_periods = window) |
| Indicators.Smooth | sellcross.py:161 | the w-bar mean is defined iff the row ends a full NaN-free window, and is then the exact mean of that window |
| Indicators.Scale | main.py:129 | multiplying a column by a constant keeps its NaN cells exactly where they were |
| Indicators.ScaleInverse | main.py:129 | multiplying by k and then by 1/k gives the column back, for any k != 0 |
| Indicators.R2 | sellcross.py:152-160 | r² is defined only at rows that end a full, NaN-free `length` window |
| Indicators.RollingDefinedFrom | main.py:124-127 | over a fully defined column and a total window function, a width-w rolling value is defined exactly from index w-1 |
| Indicators.SmoothDefinedFrom | sellcross.py:161 | if a column is defined exactly from index d, its w-bar mean is defined exactly from d+w-1: a missing input anywhere in the window makes the mean missing |
| Indicators.MeanBounds | sellcross.py:161 | the mean of a non-empty window lies within any bounds of its values |
| Indicators.SumScale | main.py:129-130 | the sum of a scaled window is the scaled sum |
| Indicators.SmoothScale | main.py:129-130 | smoothing then multiplying by a constant (100 in main.py) equals multiplying then smoothing, NaNs included |
| Indicators.R2Bounds | sellcross.py:152-160 | when the correlation lies in [-1, 1], every defined r² value lies in [0, scale] |
| Indicators.SmoothedR2Bounds | main.py:124-130 | every defined smoothed r² value lies in [0, scale] (0-1 or 0-100) |
| Indicators.SmoothedR2Warmup | sellcross.py:160-161 | smoothed r² is missing before index length+avgLen-2 |
| Signals.CrossFlags | twotest.py:179-188 | buy iff reg1 > reg2 now and reg1 <= reg2 one row earlier; sell is the mirror; never both; never at row 0 or with a NaN operand |
| Signals.ThresholdFlags | main.py:148-151 | buy iff r2_smoothed > high and RSI < oversold; sell iff r2_smoothed > high and RSI > overbought, all strict; a NaN operand gives no flag; never both when oversold <= overbought |
| Signals.CrossUnderFlags | twotest.py:208-212 | a cross needs both this row's and the previous row's r2_smoothed defined (so never at row 0), the previous above the threshold and this one at or below it; the row after a cross never crosses |
| Signals.CrossSymmetric | rcross1d.py:116-117 | the sell rule is the buy rule with its operands swapped |
| Signals.CrossUnderNotAdjacent | sellcross.py:164-168 | the cross-under signal never fires on two consecutive bars |
| Signals.CrossUnderBetween | rcross2h.py:184-193 | if reg1 > reg2 at one bar and reg1 < reg2 at a later bar, with both defined and no tie in between, a sell crossover fires in between |
| Signals.CrossesAlternate | nrcross2h.py:135-136 | between two buy crossovers with defined, untied lines in between, there is a sell crossover |
| Signals.TieAllowsRepeatedBuy | twotest.py:179-183 | a tie (reg1 == reg2) lets two buy signals occur with no sell between them |
| Signals.CrossOverExample | rcross1h.py:126-130 | for reg1 = 1, 2, 3, 4 against a constant reg2 = 2, the buy signal fires at index 2 and nowhere else |
| Signals.CrossUnderScaleInvariant | sellcross.py:164-168 | the cross-under of r2 against t equals the cross-under of k·r2 against k·t, for any k > 0 |
| Signals.ScaledComparisons | main.py:148-151 | `>` and `<=` against a level are unchanged when the value and the level are multiplied by the same k > 0, NaN included |
| Signals.ThresholdScaleInvariant | indicator.py:111-114 | the buy/sell flags are unchanged when r2_smoothed and the 90 threshold are multiplied by the same k > 0 |
| Strategies.Linreg | twotest.py:177-178 | linreg(len) is missing before row len-1 |
| Strategies.LinregWindow | twotest.py:177-178 | from row len-1 on, linreg(len) is `ta.linreg` of the trailing len closes |
| Strategies.SmoothedR2 | sellcross.py:152-161 | r2_smoothed is missing before row length+avgLen-2 |
| Strategies.Rsi | main.py:141 | the RSI column has one value per bar, computed from the closes up to and including that bar |
| Strategies.RsiNoLookahead | main.py:141 | the RSI column of a prefix of the frame is the prefix of the RSI column: no value looks ahead |
| Strategies.RuleFields | rcross1d.py:112-113 | the rules read Close (linreg, r² of closes, RSI) or High and Low (hl2), never Open or Volume |
| Strategies.EvaluateReadsOnly | twotest.py:177-212 | two frames with the same index that agree on the columns a rule reads get the same flags |
| Strategies.Evaluate | twotest.py:177-212 | a rule yields one flag record per bar: buy/sell for the crossover and threshold rules, a cross flag for the r² cross-under |
| Strategies.BuySellExclusive | main.py:148-151 | no rule of the scanners sets buy and sell on the same bar |
| Strategies.LinregCrossWarmup | rcross1d.py:112-117 | a linreg(fast)/linreg(slow) signal needs both lines defined at two rows, so it never fires before index max(fast, slow) |
| Strategies.R2CrossWarmup | sellcross.py:152-168 | the r² cross-under never fires before index length+avgLen-1 |
| Strategies.R2RsiWarmup | indicator.py:85-114 | the r²/RSI rule never fires before index length+avgLen-2 |
| Strategies.R2CrossScaleInvariant | twotest.py:199-212 | the r² cross-under flags on the 0-1 scale against t equal those on the k-scale against k·t |
| Strategies.R2RsiScaleInvariant | main.py:122-151 | the r²/RSI flags on the 0-1 scale against 0.9 equal those on the 0-100 scale against 90 (any k > 0) |
| RecentWindow.MaxTs | twotest.py:223 | `index.max()` bounds every timestamp and is one of them |
| RecentWindow.Since | twotest.py:224 | a row is kept iff it is in the frame and its timestamp is >= the cutoff |
| RecentWindow.FlaggedOnly | twotest.py:227 | a row is kept iff it is in the frame and carries a flag |
| RecentWindow.Recent | twotest.py:222-224 | a row is in the recent window iff it is in the frame and lies at most lookback before `index.max()`; an empty frame gives an empty window |
| RecentWindow.ReportedExactly | sellcross.py:175-185 | a (ticker, date, flags) record is appended iff that bar is in the frame, is flagged, and lies at most lookback before the frame's last timestamp |
| RecentWindow.Reported | rcross1d.py:127-135 | every appended record names this ticker and carries a flag |
| RecentWindow.ReportedInOrder | indicator.py:124-134 | records of one ticker are appended in strictly increasing time order |
| RecentWindow.SinceSuffix | twotest.py:222-224 | on a time-ordered frame the recent window is a suffix of the frame |
| RecentWindow.MaxIsLast | twotest.py:223 | on a time-ordered frame `index.max()` is the last row's timestamp |
| RecentWindow.LastBarKept | twotest.py:222-224 | with a non-negative lookback the last bar is always in the recent window |
| RecentWindow.EmptyFrameReportsNothing | twotest.py:222 | an empty frame contributes no records |
| RecentWindow.TwoHourWindowExample | twotest.py:222-224 | with timestamps 0..4 and lookback 2, exactly the rows at 2, 3 and 4 are kept (the cutoff is inclusive) |
| Throttle.CooledDown | rcross2h.py:48-71 | only a stored timestamp less than cooldown ago blocks (a missing or empty file allows); after a recorded time, sending is allowed iff now >= last + cooldown, exactly 2h elapsed included |
| Throttle.CooldownExample | rcross2h.py:68-71 | after a send at T, T+90min is refused, T+121min and T+2h are allowed |
| Throttle.ScanState.UpdateSendTime | rcross2h.py:73-80 | stores now as the last send and nothing else; afterwards sending is allowed exactly from now+2h |
| Throttle.ScanState.CanRunNow | nrcross2h.py:14-32 | returns true iff nothing is stored or at least 2h passed since the stored run; records now exactly when it returns true; the alert time is untouched |
| Dispatch.DispatchOne | rcross2h.py:228-236 | one list yields at most one message, carrying that list's rows; the stored alert time changes only under the throttled policy, to now, and only with a message |
| Dispatch.SendIfAnyExactly | sellcross.py:194-203 | send-if-non-empty sends one message iff there are rows, and never touches the alert time |
| Dispatch.AlwaysSendExactlyOne | twotest.py:262-291 | always-send sends exactly one message; its text is the fixed "No … signals" text iff there are no rows |
| Dispatch.ThrottledExactly | rcross2h.py:228-236 | the throttled send and the timestamp update happen together, iff there are rows and the throttle allows; otherwise the stored time is unchanged |
| Dispatch.PrintOnlyNeverSends | indicator.py:136-142 | a print-only scanner sends nothing and stores nothing |
| Scanner.Prepared | rcross2h.py:155-163 | the frame the rules see is no longer than the download, and non-empty when the download is |
| Scanner.Outcome | rcross2h.py:137-165 | a ticker contributes rows iff its frame is non-empty, has every column the script touches (all five where the script checks them), and its computation does not raise; it then gives one list per result list; it can end the run only in a script without a per-ticker `try` |
| Scanner.MissingReadColumn | rcross2h.py:148-152 | a non-empty frame lacking a column the script touches is skipped by a script with a column check or a per-ticker `try`, and ends the run in any other |
| Scanner.UnreadColumnsIrrelevant | rcross1d.py:101-113 | two frames with the same columns and index that agree on the columns the script touches give the same per-ticker step |
| Scanner.Scan | twotest.py:151-247 | the ticker loop, appending each ticker's rows record by record, produces exactly the specified result lists, and reports a crash exactly when the specification crashes |
| Scanner.AppendRows | twotest.py:229-245 | the `append` loop extends each result list by the ticker's records, in order |
| Scanner.CrashIsFinal | rcross2h.py:170-193 | once an unguarded ticker raises, the run ends whatever the later tickers hold |
| Scanner.CollectedAppend | sellcross.py:121-187 | scanning a ticker list in two parts and concatenating the lists equals scanning it whole: rows come in ticker order |
| Scanner.SkipIsolation | twotest.py:151-154 | a skipped ticker (absent, empty, missing a column the script checks or touches, or raising inside `try`) changes nothing about the other tickers' results |
| Scanner.Collected | twotest.py:151-247 | folding the tickers in order gives one list per result list, and a script whose compute step is inside `try` always finishes |
| Scanner.RowsFlagged | twotest.py:227-245 | every record in every result list carries a flag and names a ticker whose frame was usable |
| Scanner.PreparedInOrder | nrcross2h.py:116-124 | resampling keeps the frame in time order |
| Scanner.ChannelRowsInOrder | indicator.py:122-134 | one ticker's records for one list come in increasing time order |
| Runner.DispatchUpTo | twotest.py:262-291 | the first n lists yield at most n messages, each carrying the rows of the list it reports |
| Runner.DispatchAlerts | rcross2h.py:228-236 | the send loop over the result lists produces exactly the specified messages and stored alert time, and leaves the run time alone |
| Runner.RunSpec | nrcross2h.py:83-162 | the alert time changes only in a finished run, to now; the run time changes only under the run throttle, to now; a run scans only when the gate is open; it is refused as not due iff the run throttle has not cooled down |
| Runner.Run | nrcross2h.py:83-162 | one invocation (run throttle, market gate, scan, send) leaves the outcome and stored times that `RunSpec` gives |
| Runner.ClosedMarketDoesNothing | rcross2h.py:109-111 | with the market closed nothing is fetched or sent and the alert time is untouched; only a due run throttle records the run |
| Runner.ClosedRunStillConsumesSlot | nrcross2h.py:84-89 | the run throttle is consulted before the market gate, so a due run records its time even when the market is closed |
| Runner.NotDueChangesNothing | nrcross2h.py:24-28 | a run less than 2h after the stored run changes nothing |
| Runner.UngatedAlwaysScans | rcross1d.py:25-27 | without the market gate the scan runs whatever the clock says |
| Runner.AlwaysSendOnePerList | twotest.py:262-291 | when every list is sent unconditionally, there is one message per list, in list order, and the alert time is untouched |
| Runner.UnthrottledKeepsSendTime | sellcross.py:194-203 | without a throttled list the stored alert time never changes |
| Runner.SingleSendIfAnyExactly | sellcross.py:194-203 | a scanner with one send-if-any list sends one message exactly when that list is non-empty and leaves the alert time alone |
| Runner.ThrottledRunsSpaced | rcross2h.py:228-236 | after an invocation that sent, any invocation less than 2h later sends nothing |
| Runner.ThrottledSendRecords | rcross2h.py:228-236 | with a single throttled list, a run that sent an alert stores the time of that run as the alert time |
| Runner.ThrottledTooSoon | rcross2h.py:228-236 | with a single throttled list, a run less than 2h after the stored alert time sends nothing |
| Scripts.TwotestAlwaysSendsTwo | twotest.py:262-291 | twotest.py always finishes and sends exactly two messages, linreg first; an empty list gets its fixed "No … signals found in the last 2 hours." text |
| Scripts.SendIfAnyScriptsExactly | main.py:178-180 | sellcross, main, rcross1d, rcross1h and nrcross2h send one message iff they found a signal, and never touch the alert time |
| Scripts.IndicatorNeverSends | indicator.py:136-142 | indicator.py sends nothing |
| Scripts.MissingVolume | twotest.py:166-172 | a frame without Volume is skipped by the four resampling scripts and scanned as usual by the other four; none crashes |
| Scripts.MissingClose | main.py:115 | a frame without Close crashes main.py, rcross1h.py and indicator.py and is skipped by the other five |
| Scripts.UnguardedRaiseAborts | rcross2h.py:170-193 | in a script without a per-ticker `try`, one ticker whose indicators raise ends the run, whatever the other tickers hold |
| Scripts.MainScaleMatchesUnitScale | main.py:129-151 | main.py's `r2 * 100 > 90` flags exactly the bars that r2 > 0.9 would |
| Scripts.R2UnderScaled | sellcross.py:160-168 | the 0.9 cross-under on the 0-1 scale flags exactly what a 90 cross-under on the 0-100 scale would |
| Scripts.ScriptFlagsExclusive | rcross1h.py:126-137 | no scanner's rule sets buy and sell on the same bar |
| Scripts.LinregNeedsFiftyOneBars | rcross2h.py:180-193 | a linreg(25)/linreg(50) signal never fires before the 51st bar |

## Left out

- Fetching the ticker list: HTTP to Wikipedia and HTML parsing. The model takes the ticker list as input.
- yfinance downloads and their rate-limited SQLite cache. Each ticker's download is an input `Fetched` value. A failed bulk download is the same as every ticker being `Unavailable`.
- Which computations raise. Whether a ticker's indicator step raises is the input flag `raises`. For example, pandas_ta returns `None` for a series shorter than the length; the model does not derive such cases.
- The numerics of `ta.linreg`, `np.corrcoef` and RSI. They are floating-point library code and are parameters. Float arithmetic is modelled as exact real arithmetic.
- `.round(2)` on OHLC columns: prices are taken as already rounded.
- NaN rows. A bulk download puts every ticker on a shared index, so a ticker can have NaN rows; `rcross1d.py` neither resamples nor drops them. Model bars always hold numbers, so such rows are not modelled.
- Resampler.ResampleByBucket: the bucket characterisation is proved for strictly time-ordered frames only. Frames are taken to be time-ordered as yfinance delivers them; the scanner does not check it.
- Unused indicator columns: the unused `reg1`/`reg2`/`reg3` columns of `main.py` and `indicator.py`.
- The second timeframe dimension of the `timeframes` dicts: each script has exactly one timeframe.
- Telegram sends. `requests.post` is not modelled, and neither are its failures. A message is modelled as its header choice and its rows; the `to_string` table layout is not modelled.
- Other effects: `time.sleep`, logging, dotenv, printing and the CSV files.
- The heroku call in `can_run_now`. `os.system('heroku config:set …')` is modelled only as the write of `lastRun`.
- Malformed timestamps. `datetime.fromisoformat` failing on a malformed stored time is not modelled; a stored time is missing, blank or a timestamp.
- Time zones. pytz conversion and daylight-saving transitions are not modelled: the gate takes the Eastern weekday and clock time, and bar timestamps are exchange-local. The `now` read by the throttle and by the gate is one instant, where the scripts read the clock separately.
- Duplicate tickers. In the scripts that collect frames in a dict, a ticker listed twice is scanned once; the model scans it twice.
