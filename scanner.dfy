/**
 * The scan loop shared by every scanner: for each ticker in list order, take
 * its downloaded frame, skip it when it is unavailable or empty, when it
 * fails the script's column check, or when it lacks a column the script
 * reads or raises inside a per-ticker `try` (without that `try` the whole
 * run crashes instead), optionally resample it, evaluate each result list's
 * rule, and append the flagged bars of the lookback window to that list.
 */
module Scanner {
  import opened Wrappers
  import opened Bars
  import opened Resampler
  import opened Signals
  import opened Strategies
  import opened RecentWindow
  import opened Dispatch
  import MarketClock

  /** What the download step left for one ticker. */
  datatype Fetched =
      /** Not in the bulk download, or its download raised and was caught. */
    | Unavailable
      /**
       * A frame. `columns` are the price columns it carries (the values of
       * the others in `bars` mean nothing); `raises` says computing its
       * indicators raises even with every column it needs.
       */
    | Frame(bars: seq<Bar>, columns: set<Field>, raises: bool)

  datatype Listing = Listing(ticker: string, fetched: Fetched)

  /** One result list: the rule that flags bars, the message header, and how it is sent. */
  datatype Channel = Channel(rule: Rule, header: string, policy: Policy)

  datatype Gate = Ungated | MarketHours(session: MarketClock.Session)

  /**
   * One scanner script. `checksColumns`: it skips frames missing an OHLCV
   * column before computing; `needs`: the columns its compute step reads
   * (a missing one raises `KeyError`); `guarded`: its compute step sits
   * inside a per-ticker `try`, so an error there skips the ticker instead of
   * ending the run. `lookback` is in microseconds.
   */
  datatype Config = Config(
    gate: Gate,
    runThrottle: bool,
    resampleWidth: Option<int>,
    checksColumns: bool,
    needs: set<Field>,
    guarded: bool,
    lookback: int,
    channels: seq<Channel>)

  /**
   * A well-formed script: a positive resampling width, valid rules, and a
   * `needs` that covers what it reads: all five columns when it resamples
   * (the aggregation names each of them) and every column of every rule.
   */
  predicate ValidConfig(cfg: Config) {
    && (cfg.resampleWidth.Some? ==> cfg.resampleWidth.value > 0 && Ohlcv <= cfg.needs)
    && cfg.needs <= Ohlcv
    && forall c :: 0 <= c < |cfg.channels| ==> ValidRule(cfg.channels[c].rule) && RuleFields(cfg.channels[c].rule) <= cfg.needs
  }

  /** The frame the rules see: the download itself, or its resampling. */
  function Prepared(cfg: Config, bars: seq<Bar>): (out: seq<Bar>)
    requires ValidConfig(cfg)
    ensures |out| <= |bars|
    ensures bars != [] ==> out != []
  {
    if cfg.resampleWidth.Some? then Resample(bars, cfg.resampleWidth.value) else bars
  }

  /** The bars with the flags a rule wrote on them. */
  function Mark(bars: seq<Bar>, flags: seq<Flags>): (frame: seq<Marked>)
    requires |flags| == |bars|
    ensures |frame| == |bars|
    ensures forall i :: 0 <= i < |bars| ==> frame[i] == Marked(bars[i].ts, flags[i])
  {
    seq(|bars|, i requires 0 <= i < |bars| => Marked(bars[i].ts, flags[i]))
  }

  /** The rows one ticker adds to result list `c`. */
  function ChannelRows(cfg: Config, nm: Numerics, ticker: string, bars: seq<Bar>, c: int): seq<Row>
    requires ValidConfig(cfg) && 0 <= c < |cfg.channels|
  {
    var frame := Prepared(cfg, bars);
    Reported(ticker, Mark(frame, Evaluate(nm, cfg.channels[c].rule, frame)), cfg.lookback)
  }

  /** How one ticker ends: skipped, crashing the run, or adding rows to each result list. */
  datatype Step = Skip | Crash | Contribute(rows: seq<seq<Row>>)

  /**
   * A ticker contributes exactly when its frame is usable; otherwise it is
   * skipped, or, where the compute step has no `try`, a missing needed column
   * or a raising computation crashes the run.
   */
  function Outcome(cfg: Config, nm: Numerics, l: Listing): (s: Step)
    requires ValidConfig(cfg)
    ensures s.Contribute? <==> Usable(cfg, l)
    ensures s.Contribute? ==> |s.rows| == |cfg.channels|
    ensures s.Crash? ==> !cfg.guarded
  {
    match l.fetched
    case Unavailable => Skip
    case Frame(bars, columns, raises) =>
      if bars == [] then Skip
      else if cfg.checksColumns && !(Ohlcv <= columns) then Skip
      else if !(cfg.needs <= columns) || raises then (if cfg.guarded then Skip else Crash)
      else Contribute(seq(|cfg.channels|, c requires 0 <= c < |cfg.channels| => ChannelRows(cfg, nm, l.ticker, bars, c)))
  }

  /** The state of the result lists after a prefix of the ticker list. */
  datatype ScanResult = Crashed | Results(lists: seq<seq<Row>>)

  function NoRows(n: nat): (lists: seq<seq<Row>>)
    ensures |lists| == n && forall c :: 0 <= c < n ==> lists[c] == []
  {
    seq(n, _ => [])
  }

  function Append(acc: seq<seq<Row>>, rows: seq<seq<Row>>): (r: seq<seq<Row>>)
    requires |acc| == |rows|
    ensures |r| == |acc|
    ensures forall c :: 0 <= c < |acc| ==> r[c] == acc[c] + rows[c]
  {
    seq(|acc|, c requires 0 <= c < |acc| => acc[c] + rows[c])
  }

  /** One more ticker: its rows are appended, or it is skipped, or it crashes the run. */
  function StepWith(cfg: Config, nm: Numerics, x: ScanResult, l: Listing): (r: ScanResult)
    requires ValidConfig(cfg) && (x.Results? ==> |x.lists| == |cfg.channels|)
    ensures r.Results? ==> |r.lists| == |cfg.channels|
  {
    match x
    case Crashed => Crashed
    case Results(acc) =>
      match Outcome(cfg, nm, l)
      case Skip => x
      case Crash => Crashed
      case Contribute(rows) => Results(Append(acc, rows))
  }

  /** The result lists after scanning `ls` in order. */
  function Collected(cfg: Config, nm: Numerics, ls: seq<Listing>): (r: ScanResult)
    requires ValidConfig(cfg)
    ensures r.Results? ==> |r.lists| == |cfg.channels|
    ensures cfg.guarded ==> r.Results?
    decreases |ls|
  {
    if ls == [] then Results(NoRows(|cfg.channels|))
    else StepWith(cfg, nm, Collected(cfg, nm, ls[..|ls| - 1]), ls[|ls| - 1])
  }

  /** Scanning `a` then `b` is scanning `a + b`: a crash anywhere ends the run. */
  function Then(x: ScanResult, y: ScanResult): ScanResult
    requires x.Results? && y.Results? ==> |x.lists| == |y.lists|
  {
    if x.Crashed? || y.Crashed? then Crashed else Results(Append(x.lists, y.lists))
  }

  /**
   * The ticker loop runs the script's per-ticker step in list order and
   * appends each ticker's rows to each result list.
   */
  method Scan(cfg: Config, nm: Numerics, ls: seq<Listing>) returns (crashed: bool, lists: seq<seq<Row>>)
    requires ValidConfig(cfg)
    ensures crashed <==> Collected(cfg, nm, ls).Crashed?
    ensures !crashed ==> lists == Collected(cfg, nm, ls).lists
  {
    lists := NoRows(|cfg.channels|);
    crashed := false;
    var k := 0;
    while k < |ls|
      invariant 0 <= k <= |ls|
      invariant Collected(cfg, nm, ls[..k]) == Results(lists)
    {
      assert ls[..k + 1][..k] == ls[..k];
      assert ls[..k + 1][k] == ls[k];
      assert Collected(cfg, nm, ls[..k + 1]) == StepWith(cfg, nm, Results(lists), ls[k]);
      var step := Outcome(cfg, nm, ls[k]);
      if step.Crash? {
        CrashIsFinal(cfg, nm, ls, k + 1);
        crashed := true;
        return;
      }
      if step.Contribute? {
        lists := AppendRows(lists, step.rows);
      }
      k := k + 1;
    }
    assert ls[..k] == ls;
  }

  /** The `iterrows` loops: append one ticker's rows, record by record, to each list. */
  method AppendRows(acc: seq<seq<Row>>, rows: seq<seq<Row>>) returns (lists: seq<seq<Row>>)
    requires |acc| == |rows|
    ensures lists == Append(acc, rows)
  {
    lists := acc;
    var c := 0;
    while c < |rows|
      invariant 0 <= c <= |rows| == |lists|
      invariant forall d :: 0 <= d < c ==> lists[d] == acc[d] + rows[d]
      invariant forall d :: c <= d < |lists| ==> lists[d] == acc[d]
    {
      var mid := lists;
      var j := 0;
      while j < |rows[c]|
        invariant 0 <= j <= |rows[c]| && |lists| == |mid|
        invariant lists[c] == acc[c] + rows[c][..j]
        invariant forall d :: 0 <= d < |lists| && d != c ==> lists[d] == mid[d]
      {
        lists := lists[c := lists[c] + [rows[c][j]]];
        assert rows[c][..j + 1] == rows[c][..j] + [rows[c][j]];
        j := j + 1;
      }
      assert rows[c][..j] == rows[c];
      c := c + 1;
    }
  }

  /** Once a ticker has crashed the run, no later ticker changes that. */
  lemma {:induction false} CrashIsFinal(cfg: Config, nm: Numerics, ls: seq<Listing>, k: int)
    requires ValidConfig(cfg) && 0 <= k <= |ls|
    requires Collected(cfg, nm, ls[..k]).Crashed?
    ensures Collected(cfg, nm, ls).Crashed?
    decreases |ls| - k
  {
    if k == |ls| {
      assert ls[..k] == ls;
    } else {
      assert ls[..k + 1][..k] == ls[..k];
      CrashIsFinal(cfg, nm, ls, k + 1);
    }
  }

  /** Appending one more ticker commutes with putting earlier results in front. */
  lemma StepThen(cfg: Config, nm: Numerics, x: ScanResult, y: ScanResult, l: Listing)
    requires ValidConfig(cfg)
    requires x.Results? ==> |x.lists| == |cfg.channels|
    requires y.Results? ==> |y.lists| == |cfg.channels|
    ensures StepWith(cfg, nm, Then(x, y), l) == Then(x, StepWith(cfg, nm, y, l))
  {
    if x.Results? && y.Results? {
      match Outcome(cfg, nm, l)
      case Skip =>
      case Crash =>
      case Contribute(rows) =>
        AppendAssoc(x.lists, y.lists, rows);
    }
  }

  lemma AppendAssoc(x: seq<seq<Row>>, y: seq<seq<Row>>, z: seq<seq<Row>>)
    requires |x| == |y| == |z|
    ensures Append(Append(x, y), z) == Append(x, Append(y, z))
  {
    var l, r := Append(Append(x, y), z), Append(x, Append(y, z));
    forall c | 0 <= c < |x| ensures l[c] == r[c] {
      assert l[c] == (x[c] + y[c]) + z[c];
    }
  }

  lemma AppendNothing(x: seq<seq<Row>>)
    ensures Append(x, NoRows(|x|)) == x
  {
    var l := Append(x, NoRows(|x|));
    forall c | 0 <= c < |x| ensures l[c] == x[c] {
      assert l[c] == x[c] + [];
    }
  }

  /**
   * Results come in ticker order: scanning `a + b` yields the lists of `a`
   * followed, list by list, by the lists of `b` (or a crash if either crashes).
   */
  lemma {:induction false} CollectedAppend(cfg: Config, nm: Numerics, a: seq<Listing>, b: seq<Listing>)
    requires ValidConfig(cfg)
    ensures Collected(cfg, nm, a + b) == Then(Collected(cfg, nm, a), Collected(cfg, nm, b))
    decreases |b|
  {
    var x := Collected(cfg, nm, a);
    if b == [] {
      assert a + b == a;
      if x.Results? {
        AppendNothing(x.lists);
      }
    } else {
      var b' := b[..|b| - 1];
      var l := b[|b| - 1];
      assert (a + b)[..|a + b| - 1] == a + b';
      assert (a + b)[|a + b| - 1] == l;
      CollectedAppend(cfg, nm, a, b');
      StepThen(cfg, nm, x, Collected(cfg, nm, b'), l);
    }
  }

  /** A skipped ticker leaves the results exactly as if it were not in the list. */
  lemma SkipIsolation(cfg: Config, nm: Numerics, a: seq<Listing>, l: Listing, b: seq<Listing>)
    requires ValidConfig(cfg) && Outcome(cfg, nm, l).Skip?
    ensures Collected(cfg, nm, a + [l] + b) == Collected(cfg, nm, a + b)
  {
    CollectedAppend(cfg, nm, a + [l], b);
    CollectedAppend(cfg, nm, a, [l]);
    CollectedAppend(cfg, nm, a, b);
    assert [l][..0] == [];
    var x := Collected(cfg, nm, a);
    if x.Results? {
      AppendNothing(x.lists);
    }
  }

  /**
   * A listing the script computes on: a non-empty frame that passes the
   * column check (where the script has one), carries every column the
   * script reads, and whose computation does not raise.
   */
  predicate Usable(cfg: Config, l: Listing) {
    && l.fetched.Frame?
    && l.fetched.bars != []
    && (cfg.checksColumns ==> Ohlcv <= l.fetched.columns)
    && cfg.needs <= l.fetched.columns
    && !l.fetched.raises
  }

  /** Some listing named `t` had a usable frame. */
  predicate FromUsable(cfg: Config, ls: seq<Listing>, t: string) {
    exists i :: 0 <= i < |ls| && ls[i].ticker == t && Usable(cfg, ls[i])
  }

  /** A reported row carries a flag and names a ticker whose frame was usable. */
  predicate RowOk(cfg: Config, ls: seq<Listing>, r: Row) {
    Flagged(r.flags) && FromUsable(cfg, ls, r.ticker)
  }

  /** Every row of every list carries a flag and names a ticker whose frame was usable. */
  predicate Traceable(cfg: Config, ls: seq<Listing>, lists: seq<seq<Row>>) {
    forall c, r :: 0 <= c < |lists| && r in lists[c] ==> RowOk(cfg, ls, r)
  }

  /** `r` is one of the rows ticker `l` contributes to list `c`. */
  predicate ContributedBy(cfg: Config, nm: Numerics, l: Listing, c: int, r: Row)
    requires ValidConfig(cfg)
  {
    Outcome(cfg, nm, l).Contribute? && 0 <= c < |cfg.channels| && r in Outcome(cfg, nm, l).rows[c]
  }

  /** A ticker's own rows all carry a flag and name that ticker. */
  lemma ContributedRowsFlagged(cfg: Config, nm: Numerics, l: Listing, c: int, r: Row)
    requires ValidConfig(cfg) && ContributedBy(cfg, nm, l, c, r)
    ensures Flagged(r.flags) && r.ticker == l.ticker && Usable(cfg, l)
  {
    assert Outcome(cfg, nm, l).rows[c] == ChannelRows(cfg, nm, l.ticker, l.fetched.bars, c);
  }

  lemma FromUsablePrefix(cfg: Config, ls: seq<Listing>, k: int, t: string)
    requires 0 <= k <= |ls| && FromUsable(cfg, ls[..k], t)
    ensures FromUsable(cfg, ls, t)
  {
    var i :| 0 <= i < k && ls[..k][i].ticker == t && Usable(cfg, ls[..k][i]);
    assert ls[..k][i] == ls[i];
  }

  /** A row of the list after one more ticker came from the earlier lists or from that ticker. */
  lemma RowAfterStep(cfg: Config, nm: Numerics, x: ScanResult, l: Listing, c: int, r: Row)
    requires ValidConfig(cfg) && x.Results? && |x.lists| == |cfg.channels|
    requires StepWith(cfg, nm, x, l).Results? && 0 <= c < |cfg.channels|
    requires r in StepWith(cfg, nm, x, l).lists[c]
    ensures r in x.lists[c] || ContributedBy(cfg, nm, l, c, r)
  {
  }

  lemma LastUsable(cfg: Config, ls: seq<Listing>, t: string)
    requires ls != [] && ls[|ls| - 1].ticker == t && Usable(cfg, ls[|ls| - 1])
    ensures FromUsable(cfg, ls, t)
  {
    var i := |ls| - 1;
    assert 0 <= i < |ls| && ls[i].ticker == t && Usable(cfg, ls[i]);
  }

  /** A row already in the earlier lists stays traceable once one more ticker is listed. */
  lemma EarlierRowOk(cfg: Config, ls: seq<Listing>, lists: seq<seq<Row>>, c: int, r: Row)
    requires ls != [] && Traceable(cfg, ls[..|ls| - 1], lists) && 0 <= c < |lists| && r in lists[c]
    ensures RowOk(cfg, ls, r)
  {
    assert RowOk(cfg, ls[..|ls| - 1], r);
    FromUsablePrefix(cfg, ls, |ls| - 1, r.ticker);
  }

  /** A row the last listed ticker contributed is traceable. */
  lemma LastRowOk(cfg: Config, nm: Numerics, ls: seq<Listing>, c: int, r: Row)
    requires ValidConfig(cfg) && ls != [] && ContributedBy(cfg, nm, ls[|ls| - 1], c, r)
    ensures RowOk(cfg, ls, r)
  {
    ContributedRowsFlagged(cfg, nm, ls[|ls| - 1], c, r);
    LastUsable(cfg, ls, r.ticker);
  }

  /** One more scanned ticker keeps every row traceable. */
  lemma StepTraceable(cfg: Config, nm: Numerics, ls: seq<Listing>, prev: ScanResult)
    requires ValidConfig(cfg) && ls != [] && prev.Results? && |prev.lists| == |cfg.channels|
    requires Traceable(cfg, ls[..|ls| - 1], prev.lists)
    requires StepWith(cfg, nm, prev, ls[|ls| - 1]).Results?
    ensures Traceable(cfg, ls, StepWith(cfg, nm, prev, ls[|ls| - 1]).lists)
  {
    var lists := StepWith(cfg, nm, prev, ls[|ls| - 1]).lists;
    assert |lists| == |cfg.channels|;
    forall c, r: Row | 0 <= c < |lists| && r in lists[c]
      ensures RowOk(cfg, ls, r)
    {
      RowAfterStep(cfg, nm, prev, ls[|ls| - 1], c, r);
      if r in prev.lists[c] {
        EarlierRowOk(cfg, ls, prev.lists, c, r);
      } else {
        LastRowOk(cfg, nm, ls, c, r);
      }
    }
  }

  /**
   * Every reported row carries a flag and comes from a listed ticker whose
   * frame was usable: no skipped ticker appears.
   */
  lemma {:induction false} RowsFlagged(cfg: Config, nm: Numerics, ls: seq<Listing>)
    requires ValidConfig(cfg) && Collected(cfg, nm, ls).Results?
    ensures Traceable(cfg, ls, Collected(cfg, nm, ls).lists)
    decreases |ls|
  {
    if ls != [] {
      var n := |ls| - 1;
      RowsFlagged(cfg, nm, ls[..n]);
      StepTraceable(cfg, nm, ls, Collected(cfg, nm, ls[..n]));
    }
  }

  /** With no resampling, one list's rows depend only on the index and the columns the script reads. */
  lemma ChannelRowsReadNeeds(cfg: Config, nm: Numerics, ticker: string, a: seq<Bar>, b: seq<Bar>, c: int)
    requires ValidConfig(cfg) && cfg.resampleWidth.None? && 0 <= c < |cfg.channels|
    requires AgreeOn(a, b, cfg.needs)
    ensures ChannelRows(cfg, nm, ticker, a, c) == ChannelRows(cfg, nm, ticker, b, c)
  {
    var rule := cfg.channels[c].rule;
    assert AgreeOn(a, b, RuleFields(rule));
    EvaluateReadsOnly(nm, rule, a, b);
    var flags := Evaluate(nm, rule, a);
    assert Mark(a, flags) == Mark(b, flags);
  }

  /**
   * Two downloads with the same columns and the same index that agree on
   * every column the script reads lead to the same step: the values of a
   * column the script never reads, present or not, cannot change its results.
   */
  lemma UnreadColumnsIrrelevant(cfg: Config, nm: Numerics, ticker: string, a: seq<Bar>, b: seq<Bar>,
                                columns: set<Field>, raises: bool)
    requires ValidConfig(cfg) && AgreeOn(a, b, cfg.needs)
    ensures Outcome(cfg, nm, Listing(ticker, Frame(a, columns, raises)))
         == Outcome(cfg, nm, Listing(ticker, Frame(b, columns, raises)))
  {
    if cfg.resampleWidth.Some? {
      assert AgreeOn(a, b, Ohlcv);
      AgreeOnAll(a, b);
    } else {
      forall c | 0 <= c < |cfg.channels|
        ensures ChannelRows(cfg, nm, ticker, a, c) == ChannelRows(cfg, nm, ticker, b, c)
      {
        ChannelRowsReadNeeds(cfg, nm, ticker, a, b, c);
      }
    }
  }

  /**
   * A non-empty frame that lacks a column the script reads never contributes:
   * a script with a column check or a per-ticker `try` skips the ticker, any
   * other script crashes on it.
   */
  lemma MissingReadColumn(cfg: Config, nm: Numerics, l: Listing)
    requires ValidConfig(cfg) && l.fetched.Frame? && l.fetched.bars != []
    requires !(cfg.needs <= l.fetched.columns)
    ensures Outcome(cfg, nm, l) == (if cfg.checksColumns || cfg.guarded then Skip else Crash)
  {
    var f :| f in cfg.needs && f !in l.fetched.columns;
    assert f in Ohlcv;
  }

  /** The frame the rules see keeps the download's time order. */
  lemma PreparedInOrder(cfg: Config, bars: seq<Bar>)
    requires ValidConfig(cfg) && Bars.Increasing(bars)
    ensures Bars.Increasing(Prepared(cfg, bars))
  {
    if cfg.resampleWidth.Some? {
      ResampleByBucket(bars, cfg.resampleWidth.value);
    }
  }

  /** Within one ticker, rows are appended in time order. */
  lemma ChannelRowsInOrder(cfg: Config, nm: Numerics, ticker: string, bars: seq<Bar>, c: int)
    requires ValidConfig(cfg) && 0 <= c < |cfg.channels| && Bars.Increasing(bars)
    ensures var rows := ChannelRows(cfg, nm, ticker, bars, c);
      forall i, j :: 0 <= i < j < |rows| ==> rows[i].ts < rows[j].ts
  {
    var frame := Prepared(cfg, bars);
    PreparedInOrder(cfg, bars);
    var marked := Mark(frame, Evaluate(nm, cfg.channels[c].rule, frame));
    assert TimeOrdered(marked);
    ReportedInOrder(ticker, marked, cfg.lookback);
  }
}
