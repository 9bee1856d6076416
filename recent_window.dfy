/**
 * The "recent signals" filter: keep the bars whose timestamp is at least the
 * frame's largest timestamp minus a lookback, then keep the flagged ones, and
 * turn each into a result record. The cutoff is anchored at the last bar of
 * the data, not at the wall clock.
 */
module RecentWindow {
  import opened Signals

  /** One bar of a frame after a rule has written its flags. */
  datatype Marked = Marked(ts: int, flags: Flags)

  /** One appended result record: ticker, bar timestamp, and the bar's flags. */
  datatype Row = Row(ticker: string, ts: int, flags: Flags)

  predicate TimeOrdered(frame: seq<Marked>) {
    forall i, j :: 0 <= i < j < |frame| ==> frame[i].ts < frame[j].ts
  }

  /** `df.index.max()`. */
  function MaxTs(frame: seq<Marked>): (m: int)
    requires frame != []
    ensures forall i :: 0 <= i < |frame| ==> frame[i].ts <= m
    ensures exists i :: 0 <= i < |frame| && frame[i].ts == m
  {
    if |frame| == 1 then frame[0].ts
    else
      var rest := MaxTs(frame[1..]);
      assert forall i :: 1 <= i < |frame| ==> frame[i] == frame[1..][i - 1];
      if frame[0].ts >= rest then frame[0].ts else rest
  }

  /** `df[df.index >= cutoff]`. */
  function Since(frame: seq<Marked>, cutoff: int): (r: seq<Marked>)
    ensures |r| <= |frame|
    ensures forall m :: m in r <==> m in frame && m.ts >= cutoff
  {
    if frame == [] then []
    else (if frame[0].ts >= cutoff then [frame[0]] else []) + Since(frame[1..], cutoff)
  }

  /** `df[(df.buy_signal == 1) | (df.sell_signal == 1)]`, or `df[df.cross_signal == 1]`. */
  function FlaggedOnly(frame: seq<Marked>): (r: seq<Marked>)
    ensures |r| <= |frame|
    ensures forall m :: m in r <==> m in frame && Flagged(m.flags)
  {
    if frame == [] then []
    else (if Flagged(frame[0].flags) then [frame[0]] else []) + FlaggedOnly(frame[1..])
  }

  /**
   * The bars inside the lookback window: everything from `MaxTs - lookback`
   * on; an empty frame has none (the `if not df.empty` guard).
   */
  function Recent(frame: seq<Marked>, lookback: int): (r: seq<Marked>)
    ensures frame == [] ==> r == []
    ensures frame != [] ==> forall m :: m in r <==> m in frame && m.ts >= MaxTs(frame) - lookback
  {
    if frame == [] then [] else Since(frame, MaxTs(frame) - lookback)
  }

  /** The records `iterrows` appends for one ticker, in frame order. */
  function ToRows(ticker: string, frame: seq<Marked>): (rows: seq<Row>)
    ensures |rows| == |frame|
    ensures forall i :: 0 <= i < |frame| ==> rows[i] == Row(ticker, frame[i].ts, frame[i].flags)
  {
    seq(|frame|, i requires 0 <= i < |frame| => Row(ticker, frame[i].ts, frame[i].flags))
  }

  /** What one ticker contributes to a result list: records of this ticker, each carrying a flag. */
  function Reported(ticker: string, frame: seq<Marked>, lookback: int): (rows: seq<Row>)
    ensures forall r :: r in rows ==> r.ticker == ticker && Flagged(r.flags)
  {
    var kept := FlaggedOnly(Recent(frame, lookback));
    var rows := ToRows(ticker, kept);
    assert forall i :: 0 <= i < |rows| ==> kept[i] in kept;
    rows
  }

  /**
   * A record is reported exactly when its bar is in the frame, carries a flag
   * and lies no more than `lookback` before the frame's last timestamp.
   */
  lemma ReportedExactly(ticker: string, frame: seq<Marked>, lookback: int, ts: int, flags: Flags)
    requires frame != []
    ensures Row(ticker, ts, flags) in Reported(ticker, frame, lookback)
        <==> Marked(ts, flags) in frame && Flagged(flags) && ts >= MaxTs(frame) - lookback
  {
    var kept := FlaggedOnly(Recent(frame, lookback));
    var rows := Reported(ticker, frame, lookback);
    if Row(ticker, ts, flags) in rows {
      var i :| 0 <= i < |rows| && rows[i] == Row(ticker, ts, flags);
      assert kept[i] == Marked(ts, flags);
    }
    if Marked(ts, flags) in kept {
      var i :| 0 <= i < |kept| && kept[i] == Marked(ts, flags);
      assert rows[i] == Row(ticker, ts, flags);
    }
  }

  lemma {:induction false} SinceIncreasing(frame: seq<Marked>, cutoff: int)
    requires TimeOrdered(frame)
    ensures TimeOrdered(Since(frame, cutoff))
    decreases |frame|
  {
    if frame != [] {
      SinceIncreasing(frame[1..], cutoff);
      var rest := Since(frame[1..], cutoff);
      forall m | m in rest ensures frame[0].ts < m.ts {
        var j :| 0 <= j < |frame[1..]| && frame[1..][j] == m;
        assert frame[j + 1] == m;
      }
    }
  }

  lemma {:induction false} FlaggedIncreasing(frame: seq<Marked>)
    requires TimeOrdered(frame)
    ensures TimeOrdered(FlaggedOnly(frame))
    decreases |frame|
  {
    if frame != [] {
      FlaggedIncreasing(frame[1..]);
      var rest := FlaggedOnly(frame[1..]);
      forall m | m in rest ensures frame[0].ts < m.ts {
        var j :| 0 <= j < |frame[1..]| && frame[1..][j] == m;
        assert frame[j + 1] == m;
      }
    }
  }

  lemma RecentIncreasing(frame: seq<Marked>, lookback: int)
    requires TimeOrdered(frame)
    ensures TimeOrdered(Recent(frame, lookback))
  {
    if frame != [] {
      var cutoff := MaxTs(frame) - lookback;
      SinceIncreasing(frame, cutoff);
      SameOrder(Since(frame, cutoff), Recent(frame, lookback));
    }
  }

  lemma RowsInOrder(ticker: string, kept: seq<Marked>)
    requires TimeOrdered(kept)
    ensures forall i, j :: 0 <= i < j < |ToRows(ticker, kept)| ==> ToRows(ticker, kept)[i].ts < ToRows(ticker, kept)[j].ts
  {
    var rows := ToRows(ticker, kept);
    forall i, j | 0 <= i < j < |rows| ensures rows[i].ts < rows[j].ts {
      assert rows[i].ts == kept[i].ts && rows[j].ts == kept[j].ts;
    }
  }

  /** On a time-ordered frame the reported records come out in time order. */
  lemma ReportedInOrder(ticker: string, frame: seq<Marked>, lookback: int)
    requires TimeOrdered(frame)
    ensures forall i, j :: 0 <= i < j < |Reported(ticker, frame, lookback)| ==>
      Reported(ticker, frame, lookback)[i].ts < Reported(ticker, frame, lookback)[j].ts
  {
    RecentIncreasing(frame, lookback);
    FlaggedIncreasing(Recent(frame, lookback));
    RowsInOrder(ticker, FlaggedOnly(Recent(frame, lookback)));
  }

  /** On a time-ordered frame the largest timestamp is the last bar's. */
  lemma MaxIsLast(frame: seq<Marked>)
    requires frame != [] && TimeOrdered(frame)
    ensures MaxTs(frame) == frame[|frame| - 1].ts
  {
    var i :| 0 <= i < |frame| && frame[i].ts == MaxTs(frame);
  }

  /** With a non-negative lookback the last bar is always inside the window. */
  lemma LastBarKept(frame: seq<Marked>, lookback: int)
    requires frame != [] && lookback >= 0 && TimeOrdered(frame)
    ensures frame[|frame| - 1] in Recent(frame, lookback)
  {
    var m := MaxTs(frame);
    var i :| 0 <= i < |frame| && frame[i].ts == m;
    assert frame[|frame| - 1].ts >= m;
  }

  /** An empty frame contributes nothing. */
  lemma EmptyFrameReportsNothing(ticker: string, lookback: int)
    ensures Reported(ticker, [], lookback) == []
  {
  }

  /** On a time-ordered frame the window is a suffix: once a bar is in, every later bar is. */
  lemma {:induction false} SinceSuffix(frame: seq<Marked>, cutoff: int)
    requires TimeOrdered(frame)
    ensures exists k :: 0 <= k <= |frame| && Since(frame, cutoff) == frame[k..]
    decreases |frame|
  {
    if frame == [] {
      assert Since(frame, cutoff) == frame[0..];
    } else if frame[0].ts >= cutoff {
      SinceAll(frame, cutoff);
      assert Since(frame, cutoff) == frame[0..];
    } else {
      SinceSuffix(frame[1..], cutoff);
      var k :| 0 <= k <= |frame[1..]| && Since(frame[1..], cutoff) == frame[1..][k..];
      assert frame[1..][k..] == frame[k + 1..];
    }
  }

  lemma SameOrder(a: seq<Marked>, b: seq<Marked>)
    requires a == b && TimeOrdered(a)
    ensures TimeOrdered(b)
  {
  }

  lemma TailTimeOrdered(frame: seq<Marked>)
    requires TimeOrdered(frame) && |frame| > 1
    ensures TimeOrdered(frame[1..]) && frame[1..][0].ts > frame[0].ts
  {
  }

  /** When the first bar passes the cutoff, so does every later one. */
  lemma {:induction false} SinceAll(frame: seq<Marked>, cutoff: int)
    requires TimeOrdered(frame) && frame != [] && frame[0].ts >= cutoff
    ensures Since(frame, cutoff) == frame
    decreases |frame|
  {
    if |frame| > 1 {
      TailTimeOrdered(frame);
      assert frame[1..][0].ts >= cutoff;
      SinceAll(frame[1..], cutoff);
      assert [frame[0]] + frame[1..] == frame;
    } else {
      assert Since(frame[1..], cutoff) == [];
      assert [frame[0]] == frame;
    }
  }

  /** Bars at 0h, 1h, 2h, 3h, 4h (timestamps in hours), none flagged. */
  const HourlyFrame: seq<Marked> :=
    [Marked(0, Cross(false)), Marked(1, Cross(false)), Marked(2, Cross(false)), Marked(3, Cross(false)), Marked(4, Cross(false))]

  /** Example: with a 2h lookback the window over `HourlyFrame` holds the bars at 2h, 3h and 4h. */
  lemma TwoHourWindowExample()
    ensures Recent(HourlyFrame, 2) == HourlyFrame[2..]
  {
    HourlyFrameMax();
    HourlyFrameHead();
    HourlyFrameTail();
  }

  lemma HourlyFrameMax()
    ensures MaxTs(HourlyFrame) == 4
  {
    assert TimeOrdered(HourlyFrame);
    MaxIsLast(HourlyFrame);
  }

  lemma HourlyFrameHead()
    ensures Since(HourlyFrame, 2) == Since(HourlyFrame[2..], 2)
  {
    var frame := HourlyFrame;
    assert Since(frame[1..], 2) == Since(frame[2..], 2) by {
      assert frame[1..][0].ts == 1 && frame[1..][1..] == frame[2..];
    }
  }

  lemma HourlyFrameTail()
    ensures Since(HourlyFrame[2..], 2) == HourlyFrame[2..]
  {
    var frame := HourlyFrame;
    assert TimeOrdered(frame[2..]) && frame[2..][0].ts == 2;
    SinceAll(frame[2..], 2);
  }
}
