/** OHLCV bars and the time units the scanners use. */
module Bars {

  /** Timestamps and durations are integer microseconds, the resolution of Python's datetime. */
  const Second: int := 1_000_000
  const Minute: int := 60 * Second
  const Hour: int := 60 * Minute
  const Day: int := 24 * Hour

  /** One row of a price frame: its index timestamp and the OHLCV columns. */
  datatype Bar = Bar(ts: int, open: real, high: real, low: real, close: real, volume: int)

  /** The price columns a downloaded frame can carry. */
  datatype Field = Open | High | Low | Close | Volume

  /** All five columns: what the `required_cols` check and the OHLCV resampling ask for. */
  const Ohlcv: set<Field> := {Open, High, Low, Close, Volume}

  /** The value a bar holds in one price column (volume as a real). */
  function Get(b: Bar, f: Field): real {
    match f
    case Open => b.open
    case High => b.high
    case Low => b.low
    case Close => b.close
    case Volume => b.volume as real
  }

  /** Two frames with the same index that hold the same values in every column of `fs`. */
  predicate AgreeOn(a: seq<Bar>, b: seq<Bar>, fs: set<Field>) {
    && |a| == |b|
    && (forall i :: 0 <= i < |a| ==> a[i].ts == b[i].ts)
    && (forall i, f :: 0 <= i < |a| && f in fs ==> Get(a[i], f) == Get(b[i], f))
  }

  /** Agreeing on every column and the index is being the same frame. */
  lemma AgreeOnAll(a: seq<Bar>, b: seq<Bar>)
    requires AgreeOn(a, b, Ohlcv)
    ensures a == b
  {
    forall i | 0 <= i < |a| ensures a[i] == b[i] {
      assert Get(a[i], Open) == Get(b[i], Open) && Get(a[i], High) == Get(b[i], High);
      assert Get(a[i], Low) == Get(b[i], Low) && Get(a[i], Close) == Get(b[i], Close);
      assert Get(a[i], Volume) == Get(b[i], Volume);
    }
  }

  /** The frame's index is strictly increasing (no duplicate timestamps). */
  predicate Increasing(bars: seq<Bar>) {
    forall i, j :: 0 <= i < j < |bars| ==> bars[i].ts < bars[j].ts
  }

  /** The `hl2` column: the midpoint of a bar's high and low. */
  function Hl2(b: Bar): (m: real)
    ensures b.low <= b.high ==> b.low <= m <= b.high
    ensures m - b.low == b.high - m
  {
    (b.high + b.low) / 2.0
  }

  /** The `Close` column. */
  function Closes(bars: seq<Bar>): seq<real> {
    seq(|bars|, i requires 0 <= i < |bars| => bars[i].close)
  }

  /** The `hl2` column for a whole frame. */
  function Hl2s(bars: seq<Bar>): seq<real> {
    seq(|bars|, i requires 0 <= i < |bars| => Hl2(bars[i]))
  }

  /** `df['Close']` reads nothing but the Close column. */
  lemma ClosesReadClose(a: seq<Bar>, b: seq<Bar>, fs: set<Field>)
    requires AgreeOn(a, b, fs) && Close in fs
    ensures Closes(a) == Closes(b)
  {
    forall i | 0 <= i < |a| ensures Closes(a)[i] == Closes(b)[i] {
      assert Get(a[i], Close) == Get(b[i], Close);
    }
  }

  /** `(df['High'] + df['Low']) / 2` reads nothing but the High and Low columns. */
  lemma Hl2sReadHighLow(a: seq<Bar>, b: seq<Bar>, fs: set<Field>)
    requires AgreeOn(a, b, fs) && High in fs && Low in fs
    ensures Hl2s(a) == Hl2s(b)
  {
    forall i | 0 <= i < |a| ensures Hl2s(a)[i] == Hl2s(b)[i] {
      assert Get(a[i], High) == Get(b[i], High) && Get(a[i], Low) == Get(b[i], Low);
    }
  }
}
