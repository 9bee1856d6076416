/**
 * `df.resample(width).agg({Open: first, High: max, Low: min, Close: last,
 * Volume: sum}).dropna()`: bars are grouped into fixed-width buckets labelled
 * by their left edge; a bucket without bars would hold NaN prices and is
 * dropped, so only non-empty buckets appear in the result.
 */
module Resampler {
  import opened Bars

  /** `floor(ts / width) * width`: the label of the bucket that holds `ts`. */
  function BucketOf(ts: int, width: int): (k: int)
    requires width > 0
    ensures k <= ts < k + width
  {
    (ts / width) * width
  }

  /** Two different multiples of `w` are at least `w` apart. */
  lemma {:induction false} MultipleGap(p: int, q: int, w: int)
    requires w > 0 && p < q
    ensures p * w + w <= q * w
    decreases q - p
  {
    if p + 1 < q {
      MultipleGap(p + 1, q, w);
    }
    assert (p + 1) * w == p * w + w;
  }

  /** The bucket of `ts` is the one multiple of `w` in `(ts - w, ts]`. */
  lemma BucketUnique(ts: int, q: int, w: int)
    requires w > 0 && q * w <= ts < q * w + w
    ensures BucketOf(ts, w) == q * w
  {
    var p := ts / w;
    if p < q {
      MultipleGap(p, q, w);
    } else if q < p {
      MultipleGap(q, p, w);
    }
  }

  /** Later timestamps never fall in earlier buckets. */
  lemma BucketMonotone(a: int, b: int, w: int)
    requires w > 0 && a <= b
    ensures BucketOf(a, w) <= BucketOf(b, w)
  {
    if a / w > b / w {
      MultipleGap(b / w, a / w, w);
    }
  }

  /** A bucket label lies in its own bucket. */
  lemma BucketOfLabel(ts: int, w: int)
    requires w > 0
    ensures BucketOf(BucketOf(ts, w), w) == BucketOf(ts, w)
  {
    BucketUnique(BucketOf(ts, w), ts / w, w);
  }

  function Key(b: Bar, width: int): int
    requires width > 0
  {
    BucketOf(b.ts, width)
  }

  /** Every bar of `run` falls in bucket `k`. */
  predicate InOneBucket(run: seq<Bar>, width: int, k: int)
    requires width > 0
  {
    forall j :: 0 <= j < |run| ==> Key(run[j], width) == k
  }

  /** Every run is non-empty and lies in the bucket of its first bar. */
  predicate WellKeyed(rs: seq<seq<Bar>>, width: int)
    requires width > 0
  {
    forall i :: 0 <= i < |rs| ==> rs[i] != [] && InOneBucket(rs[i], width, Key(rs[i][0], width))
  }

  /** The bucket labels of the runs strictly increase. */
  predicate KeysIncrease(rs: seq<seq<Bar>>, width: int)
    requires width > 0 && WellKeyed(rs, width)
  {
    forall i, j :: 0 <= i < j < |rs| ==> Key(rs[i][0], width) < Key(rs[j][0], width)
  }

  /** Splits a frame into maximal runs of consecutive bars that share a bucket. */
  function Runs(bars: seq<Bar>, width: int): (rs: seq<seq<Bar>>)
    requires width > 0
    ensures |rs| <= |bars|
    ensures bars == [] <==> rs == []
    ensures WellKeyed(rs, width)
    ensures rs != [] ==> rs[0][0] == bars[0]
    decreases |bars|
  {
    if bars == [] then []
    else
      var rest := Runs(bars[1..], width);
      if rest != [] && Key(rest[0][0], width) == Key(bars[0], width) then
        [[bars[0]] + rest[0]] + rest[1..]
      else
        [[bars[0]]] + rest
  }

  function Flatten(rs: seq<seq<Bar>>): seq<Bar> {
    if rs == [] then [] else rs[0] + Flatten(rs[1..])
  }

  /** `max` of the High column over a bucket. */
  function MaxHigh(run: seq<Bar>): (m: real)
    requires run != []
    ensures forall j :: 0 <= j < |run| ==> run[j].high <= m
    ensures exists j :: 0 <= j < |run| && run[j].high == m
  {
    if |run| == 1 then run[0].high
    else
      var m := MaxHigh(run[1..]);
      assert forall j :: 1 <= j < |run| ==> run[j] == run[1..][j - 1];
      if run[0].high >= m then run[0].high else m
  }

  /** `min` of the Low column over a bucket. */
  function MinLow(run: seq<Bar>): (m: real)
    requires run != []
    ensures forall j :: 0 <= j < |run| ==> m <= run[j].low
    ensures exists j :: 0 <= j < |run| && run[j].low == m
  {
    if |run| == 1 then run[0].low
    else
      var m := MinLow(run[1..]);
      assert forall j :: 1 <= j < |run| ==> run[j] == run[1..][j - 1];
      if run[0].low <= m then run[0].low else m
  }

  /** `sum` of the Volume column over a bucket. */
  function TotalVolume(run: seq<Bar>): int {
    if run == [] then 0 else run[0].volume + TotalVolume(run[1..])
  }

  /** One output bar: labelled by the bucket, first open, max high, min low, last close, summed volume. */
  function Aggregate(run: seq<Bar>, width: int): Bar
    requires run != [] && width > 0
  {
    Bar(Key(run[0], width), run[0].open, MaxHigh(run), MinLow(run), run[|run| - 1].close, TotalVolume(run))
  }

  /** The resampled frame: one aggregated bar per run. */
  function Resample(bars: seq<Bar>, width: int): (out: seq<Bar>)
    requires width > 0
    ensures |out| <= |bars|
    ensures bars != [] ==> out != []
  {
    var rs := Runs(bars, width);
    seq(|rs|, i requires 0 <= i < |rs| => Aggregate(rs[i], width))
  }

  /** All bars of the frame that fall in bucket `k`, in frame order: what pandas groups under label `k`. */
  function InBucket(bars: seq<Bar>, k: int, width: int): seq<Bar>
    requires width > 0
  {
    if bars == [] then []
    else (if Key(bars[0], width) == k then [bars[0]] else []) + InBucket(bars[1..], k, width)
  }

  /** The runs partition the frame: concatenated in order they give back every bar exactly once. */
  lemma {:induction false} RunsPartition(bars: seq<Bar>, width: int)
    requires width > 0
    ensures Flatten(Runs(bars, width)) == bars
    decreases |bars|
  {
    if bars != [] {
      var rest := Runs(bars[1..], width);
      RunsPartition(bars[1..], width);
      if rest != [] && Key(rest[0][0], width) == Key(bars[0], width) {
        var rs := Runs(bars, width);
        assert rs[1..] == rest[1..];
        assert Flatten(rest) == rest[0] + Flatten(rest[1..]);
      } else {
        var rs := Runs(bars, width);
        assert rs[1..] == rest;
      }
    }
  }

  /** On a time-ordered frame the runs' bucket labels strictly increase, so no bucket is split. */
  lemma {:induction false} RunKeysIncrease(bars: seq<Bar>, width: int)
    requires width > 0 && Increasing(bars)
    ensures KeysIncrease(Runs(bars, width), width)
    decreases |bars|
  {
    if bars != [] {
      var rest := Runs(bars[1..], width);
      RunKeysIncrease(bars[1..], width);
      var rs := Runs(bars, width);
      if rest != [] && Key(rest[0][0], width) == Key(bars[0], width) {
        assert forall j :: 0 < j < |rs| ==> rs[j] == rest[j];
      } else {
        assert forall j :: 0 < j < |rs| ==> rs[j] == rest[j - 1];
        if rest != [] {
          assert rest[0][0] == bars[1];
          BucketMonotone(bars[0].ts, bars[1].ts, width);
        }
      }
    }
  }

  lemma {:induction false} InBucketAppend(a: seq<Bar>, b: seq<Bar>, k: int, width: int)
    requires width > 0
    ensures InBucket(a + b, k, width) == InBucket(a, k, width) + InBucket(b, k, width)
    decreases |a|
  {
    if a == [] {
      assert a + b == b;
    } else {
      assert (a + b)[0] == a[0];
      assert (a + b)[1..] == a[1..] + b;
      InBucketAppend(a[1..], b, k, width);
    }
  }

  lemma {:induction false} InBucketAll(run: seq<Bar>, k: int, width: int)
    requires width > 0 && InOneBucket(run, width, k)
    ensures InBucket(run, k, width) == run
    decreases |run|
  {
    if run != [] {
      InBucketAll(run[1..], k, width);
    }
  }

  lemma {:induction false} InBucketNone(run: seq<Bar>, k: int, width: int)
    requires width > 0
    requires forall j :: 0 <= j < |run| ==> Key(run[j], width) != k
    ensures InBucket(run, k, width) == []
    decreases |run|
  {
    if run != [] {
      InBucketNone(run[1..], k, width);
    }
  }

  /** No run after the first `from` holds bucket `k` when `k` is below all their labels. */
  lemma {:induction false} InBucketOfLaterRuns(rs: seq<seq<Bar>>, k: int, width: int)
    requires width > 0 && WellKeyed(rs, width)
    requires forall i :: 0 <= i < |rs| ==> Key(rs[i][0], width) != k
    ensures InBucket(Flatten(rs), k, width) == []
    decreases |rs|
  {
    if rs != [] {
      InBucketNone(rs[0], k, width);
      InBucketOfLaterRuns(rs[1..], k, width);
      InBucketAppend(rs[0], Flatten(rs[1..]), k, width);
    }
  }

  /** With increasing labels, the bars of run `i`'s bucket are exactly run `i`. */
  lemma {:induction false} InBucketOfRun(rs: seq<seq<Bar>>, i: nat, width: int)
    requires width > 0 && WellKeyed(rs, width) && KeysIncrease(rs, width) && i < |rs|
    ensures InBucket(Flatten(rs), Key(rs[i][0], width), width) == rs[i]
    decreases |rs|
  {
    var k := Key(rs[i][0], width);
    InBucketAppend(rs[0], Flatten(rs[1..]), k, width);
    if i == 0 {
      InBucketAll(rs[0], k, width);
      InBucketOfLaterRuns(rs[1..], k, width);
    } else {
      InBucketNone(rs[0], k, width);
      InBucketOfRun(rs[1..], i - 1, width);
    }
  }

  /**
   * The resampled frame of a time-ordered frame is, bucket by bucket in
   * increasing label order, the aggregate of ALL bars in that bucket; every
   * bar's bucket appears, and no empty bucket does.
   */
  lemma ResampleByBucket(bars: seq<Bar>, width: int)
    requires width > 0 && Increasing(bars)
    ensures Increasing(Resample(bars, width))
    ensures forall i :: 0 <= i < |Resample(bars, width)| ==>
      InBucket(bars, Resample(bars, width)[i].ts, width) != [] &&
      Resample(bars, width)[i] == Aggregate(InBucket(bars, Resample(bars, width)[i].ts, width), width)
    ensures forall j :: 0 <= j < |bars| ==>
      exists i :: 0 <= i < |Resample(bars, width)| && Resample(bars, width)[i].ts == Key(bars[j], width)
  {
    var rs := Runs(bars, width);
    var out := Resample(bars, width);
    RunsPartition(bars, width);
    RunKeysIncrease(bars, width);
    forall i | 0 <= i < |out|
      ensures InBucket(bars, out[i].ts, width) == rs[i]
    {
      InBucketOfRun(rs, i, width);
    }
    forall j | 0 <= j < |bars|
      ensures exists i :: 0 <= i < |out| && out[i].ts == Key(bars[j], width)
    {
      var i := RunOf(rs, j, width);
      assert out[i].ts == Key(rs[i][0], width);
    }
  }

  /** The run that holds the `j`-th bar of the flattened runs shares that bar's bucket. */
  lemma {:induction false} RunOf(rs: seq<seq<Bar>>, j: nat, width: int) returns (i: nat)
    requires width > 0 && WellKeyed(rs, width) && j < |Flatten(rs)|
    ensures i < |rs| && Key(rs[i][0], width) == Key(Flatten(rs)[j], width)
    decreases |rs|
  {
    assert rs != [];
    if j < |rs[0]| {
      i := 0;
      assert Flatten(rs)[j] == rs[0][j];
    } else {
      var i' := RunOf(rs[1..], j - |rs[0]|, width);
      i := i' + 1;
    }
  }

  /** Runs of a frame whose neighbouring bars lie in different buckets are single bars. */
  lemma {:induction false} RunsOfSeparated(s: seq<Bar>, width: int)
    requires width > 0
    requires forall j :: 0 < j < |s| ==> Key(s[j - 1], width) != Key(s[j], width)
    ensures Runs(s, width) == seq(|s|, j requires 0 <= j < |s| => [s[j]])
    decreases |s|
  {
    if s != [] {
      RunsOfSeparated(s[1..], width);
    }
  }

  /** Resampling an already resampled frame at the same width changes nothing. */
  lemma ResampleIdempotent(bars: seq<Bar>, width: int)
    requires width > 0 && Increasing(bars)
    ensures Resample(Resample(bars, width), width) == Resample(bars, width)
  {
    var out := Resample(bars, width);
    ResampleByBucket(bars, width);
    forall j | 0 <= j < |out|
      ensures Key(out[j], width) == out[j].ts
    {
      BucketOfLabel(Runs(bars, width)[j][0].ts, width);
    }
    forall j | 0 < j < |out|
      ensures Key(out[j - 1], width) != Key(out[j], width)
    {
    }
    RunsOfSeparated(out, width);
    var rs := Runs(out, width);
    forall j | 0 <= j < |out|
      ensures Aggregate(rs[j], width) == out[j]
    {
      SingletonAggregate(out[j], width);
    }
  }

  /** A bar already labelled by its bucket aggregates to itself. */
  lemma SingletonAggregate(b: Bar, width: int)
    requires width > 0 && Key(b, width) == b.ts
    ensures Aggregate([b], width) == b
  {
    assert TotalVolume([b]) == b.volume + TotalVolume([]);
  }

  /** Four hourly bars from midnight: closes 10, 11, 9, 12. */
  const HourlyBars := [Bar(0, 10.0, 10.5, 9.5, 10.0, 100), Bar(Hour, 10.0, 11.5, 9.8, 11.0, 200),
                       Bar(2 * Hour, 11.0, 11.2, 8.7, 9.0, 300), Bar(3 * Hour, 9.0, 12.4, 8.9, 12.0, 400)]

  /** The four hourly bars fall in one four-hour bucket, so they form a single run. */
  lemma HourlyBarsOneRun()
    ensures Runs(HourlyBars, 4 * Hour) == [HourlyBars]
  {
    var bars := HourlyBars;
    var w := 4 * Hour;
    forall j | 0 <= j < 4 ensures Key(bars[j], w) == 0 {
      BucketUnique(bars[j].ts, 0, w);
    }
    assert Runs(bars[3..], w) == [bars[3..]] by {
      assert bars[3..][1..] == [];
    }
    assert Runs(bars[2..], w) == [bars[2..]] by {
      assert bars[2..][1..] == bars[3..];
      assert bars[2..][0] == bars[2] && bars[3..][0] == bars[3];
      assert [bars[2]] + bars[3..] == bars[2..];
    }
    assert Runs(bars[1..], w) == [bars[1..]] by {
      assert bars[1..][1..] == bars[2..];
      assert bars[1..][0] == bars[1] && bars[2..][0] == bars[2];
      assert [bars[1]] + bars[2..] == bars[1..];
    }
    assert [bars[0]] + bars[1..] == bars;
  }

  /** The aggregated columns of the four hourly bars. */
  lemma HourlyBarsColumns()
    ensures MaxHigh(HourlyBars) == 12.4 && MinLow(HourlyBars) == 8.7 && TotalVolume(HourlyBars) == 1000
  {
    var bars := HourlyBars;
    assert bars[1..][1..][1..] == bars[3..];
    assert TotalVolume(bars[3..]) == 400 by {
      assert bars[3..][1..] == [];
    }
    assert TotalVolume(bars[2..]) == 700 by {
      assert bars[2..][1..] == bars[3..];
    }
    assert TotalVolume(bars[1..]) == 900 by {
      assert bars[1..][1..] == bars[2..];
    }
  }

  /** Four hourly bars resampled into one four-hour bucket (closes 10, 11, 9, 12). */
  lemma FourHourExample()
    ensures Resample(HourlyBars, 4 * Hour) == [Bar(0, 10.0, 12.4, 8.7, 12.0, 1000)]
  {
    HourlyBarsOneRun();
    HourlyBarsColumns();
    BucketUnique(0, 0, 4 * Hour);
    assert Resample(HourlyBars, 4 * Hour) == [Aggregate(HourlyBars, 4 * Hour)];
  }
}
