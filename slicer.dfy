/** `slice_timeseries`: cutting a time-indexed single-column series into
    one window per anchor, each window re-based to its first sample. */
module Slicer {
  import opened Common
  import opened Text
  import opened Calendar
  import opened Sorting

  /** One entry of a series: its instant (or, once re-based, its offset
      from the first entry of its window) and its value or MISSING. */
  datatype Sample<V> = Sample(time: Time, value: Option<V>)

  /** A single-column series under its column name. */
  datatype Series<V> = Series(name: string, samples: seq<Sample<V>>)

  function SampleTime<V>(x: Sample<V>): int
  {
    x.time
  }

  const NanosPerHour: int := 3600 * NanosPerSecond

  /** `start_date + timedelta(hours = comparison_span)`. */
  function WindowEnd(anchor: Time, span: int): Time
  {
    anchor + span * NanosPerHour
  }

  /** Both ends of the window are included. */
  predicate InWindow(t: Time, anchor: Time, span: int)
  {
    anchor <= t <= WindowEnd(anchor, span)
  }

  /** The reference definition of a window: the samples inside it, in
      order, values unchanged. */
  function Window<V>(s: seq<Sample<V>>, anchor: Time, span: int): (w: seq<Sample<V>>)
    ensures |w| <= |s|
  {
    if s == [] then []
    else (if InWindow(s[0].time, anchor, span) then [s[0]] else []) + Window(s[1..], anchor, span)
  }

  // ---------------------------------------------------------------------
  // Label slicing on a sorted index

  /** The position label slicing starts at: the first entry at or after `t`. */
  function FirstAtOrAfter<V>(s: seq<Sample<V>>, t: Time): (i: nat)
    ensures i <= |s|
    ensures forall k :: 0 <= k < i ==> s[k].time < t
    ensures i < |s| ==> s[i].time >= t
  {
    if s == [] || s[0].time >= t then 0
    else
      var j := FirstAtOrAfter(s[1..], t);
      assert forall k :: 1 <= k < j + 1 ==> s[k] == s[1..][k - 1];
      j + 1
  }

  /** The position label slicing stops before: the first entry after `t`. */
  function FirstAfter<V>(s: seq<Sample<V>>, t: Time): (i: nat)
    ensures i <= |s|
    ensures forall k :: 0 <= k < i ==> s[k].time <= t
    ensures i < |s| ==> s[i].time > t
  {
    if s == [] || s[0].time > t then 0
    else
      var j := FirstAfter(s[1..], t);
      assert forall k :: 1 <= k < j + 1 ==> s[k] == s[1..][k - 1];
      j + 1
  }

  /** `df[start_date:end_date]`: the run of entries from the first one at or
      after the start up to the last one at or before the end. */
  function LabelSlice<V>(s: seq<Sample<V>>, anchor: Time, span: int): seq<Sample<V>>
  {
    var lo := FirstAtOrAfter(s, anchor);
    var hi := FirstAfter(s, WindowEnd(anchor, span));
    if lo <= hi then s[lo..hi] else []
  }

  lemma {:induction false} WindowAppend<V>(a: seq<Sample<V>>, b: seq<Sample<V>>, anchor: Time, span: int)
    ensures Window(a + b, anchor, span) == Window(a, anchor, span) + Window(b, anchor, span)
  {
    if a == [] {
      assert a + b == b;
    } else {
      var head := if InWindow(a[0].time, anchor, span) then [a[0]] else [];
      var ab := a + b;
      assert ab[0] == a[0] && ab[1..] == a[1..] + b;
      WindowAppend(a[1..], b, anchor, span);
      calc {
        Window(ab, anchor, span);
        head + Window(a[1..] + b, anchor, span);
        head + (Window(a[1..], anchor, span) + Window(b, anchor, span));
        (head + Window(a[1..], anchor, span)) + Window(b, anchor, span);
      }
    }
  }

  lemma {:induction false} WindowOutside<V>(s: seq<Sample<V>>, anchor: Time, span: int)
    requires forall k :: 0 <= k < |s| ==> !InWindow(s[k].time, anchor, span)
    ensures Window(s, anchor, span) == []
  {
    if s != [] {
      WindowOutside(s[1..], anchor, span);
    }
  }

  lemma {:induction false} WindowInside<V>(s: seq<Sample<V>>, anchor: Time, span: int)
    requires forall k :: 0 <= k < |s| ==> InWindow(s[k].time, anchor, span)
    ensures Window(s, anchor, span) == s
  {
    if s != [] {
      WindowInside(s[1..], anchor, span);
    }
  }

  /** A run of samples inside the window, with nothing before or after it
      inside: the window is that run. */
  lemma WindowOfRun<V>(s: seq<Sample<V>>, lo: nat, hi: nat, anchor: Time, span: int)
    requires lo <= hi <= |s|
    requires forall k :: 0 <= k < lo ==> !InWindow(s[k].time, anchor, span)
    requires forall k :: lo <= k < hi ==> InWindow(s[k].time, anchor, span)
    requires forall k :: hi <= k < |s| ==> !InWindow(s[k].time, anchor, span)
    ensures Window(s, anchor, span) == s[lo..hi]
  {
    var a, b, c := s[..lo], s[lo..hi], s[hi..];
    assert s == a + b + c;
    WindowAppend(a + b, c, anchor, span);
    WindowAppend(a, b, anchor, span);
    assert forall k :: 0 <= k < |a| ==> a[k] == s[k];
    WindowOutside(a, anchor, span);
    assert forall k :: 0 <= k < |b| ==> b[k] == s[lo + k];
    WindowInside(b, anchor, span);
    assert forall k :: 0 <= k < |c| ==> c[k] == s[hi + k];
    WindowOutside(c, anchor, span);
  }

  /** On a sorted index, label slicing selects exactly the samples of the
      window, in order. */
  lemma LabelSliceIsWindow<V>(s: seq<Sample<V>>, anchor: Time, span: int)
    requires SortedBy(s, SampleTime)
    ensures LabelSlice(s, anchor, span) == Window(s, anchor, span)
  {
    var e := WindowEnd(anchor, span);
    var lo := FirstAtOrAfter(s, anchor);
    var hi := FirstAfter(s, e);
    forall k | hi <= k < |s| ensures s[k].time > e {
      assert SampleTime(s[hi]) <= SampleTime(s[k]);
    }
    forall k | lo <= k < |s| ensures s[k].time >= anchor {
      assert SampleTime(s[lo]) <= SampleTime(s[k]);
    }
    if lo <= hi {
      WindowOfRun(s, lo, hi, anchor, span);
    } else {
      WindowOutside(s, anchor, span);
    }
  }

  // ---------------------------------------------------------------------
  // Windows and their re-based form

  /** Line 263: every offset is taken from the first entry of the window. */
  function Rebase<V>(w: seq<Sample<V>>): (r: seq<Sample<V>>)
    ensures |r| == |w|
  {
    if w == [] then []
    else seq(|w|, k requires 0 <= k < |w| => Sample(w[k].time - w[0].time, w[k].value))
  }

  /** The output for the anchor at position `index` of the anchor list: the
      column is named after the series and that position. */
  datatype Slice<V> = Slice(name: string, points: seq<Sample<V>>)

  function SliceOf<V>(series: Series<V>, anchor: Time, span: int, index: nat): Slice<V>
  {
    Slice(series.name + "_" + NatToString(index), Rebase(Window(series.samples, anchor, span)))
  }

  /** A sample is in the window exactly when it is a sample of the series
      inside both bounds. */
  lemma {:induction false} WindowMembers<V>(s: seq<Sample<V>>, anchor: Time, span: int, x: Sample<V>)
    ensures x in Window(s, anchor, span) <==> x in s && InWindow(x.time, anchor, span)
  {
    if s != [] {
      WindowMembers(s[1..], anchor, span, x);
      assert s == [s[0]] + s[1..];
    }
  }

  /** A window of a sorted series is sorted. */
  lemma {:induction false} WindowSorted<V>(s: seq<Sample<V>>, anchor: Time, span: int)
    requires SortedBy(s, SampleTime)
    ensures SortedBy(Window(s, anchor, span), SampleTime)
  {
    if s != [] {
      var w := Window(s, anchor, span);
      var rest := Window(s[1..], anchor, span);
      WindowSorted(s[1..], anchor, span);
      forall k | 0 <= k < |rest| ensures s[0].time <= rest[k].time {
        assert rest[k] in rest;
        WindowMembers(s[1..], anchor, span, rest[k]);
        var m :| 0 <= m < |s[1..]| && s[1..][m] == rest[k];
        assert SampleTime(s[0]) <= SampleTime(s[m + 1]);
      }
      if InWindow(s[0].time, anchor, span) {
        ConsSorted(s[0], rest, SampleTime);
      }
    }
  }

  /** What an output holds: the values of the window unchanged and in
      order, the first offset 0, every offset the distance of its sample
      from the first one and, on a sorted series, every offset between 0
      and the span. */
  lemma SliceContents<V>(series: Series<V>, anchor: Time, span: int, index: nat)
    requires SortedBy(series.samples, SampleTime)
    ensures var w, p := Window(series.samples, anchor, span), SliceOf(series, anchor, span, index).points;
      && |p| == |w|
      && (forall k :: 0 <= k < |p| ==> p[k].value == w[k].value && p[k].time == w[k].time - w[0].time)
      && (p != [] ==> p[0].time == 0)
      && (forall k :: 0 <= k < |p| ==> 0 <= p[k].time <= span * NanosPerHour)
  {
    var w := Window(series.samples, anchor, span);
    var p := SliceOf(series, anchor, span, index).points;
    assert p == Rebase(w);
    WindowSorted(series.samples, anchor, span);
    forall k | 0 <= k < |p| ensures 0 <= p[k].time <= span * NanosPerHour {
      assert w[k] in w && w[0] in w;
      WindowMembers(series.samples, anchor, span, w[k]);
      WindowMembers(series.samples, anchor, span, w[0]);
      assert SampleTime(w[0]) <= SampleTime(w[k]);
      assert p[k].time == w[k].time - w[0].time;
    }
  }

  /** An anchor after the last sample gives an empty output. */
  lemma AnchorAfterLast<V>(series: Series<V>, anchor: Time, span: int, index: nat)
    requires forall k :: 0 <= k < |series.samples| ==> series.samples[k].time < anchor
    ensures SliceOf(series, anchor, span, index).points == []
  {
    WindowOutside(series.samples, anchor, span);
  }

  /** An anchor at the first sample of a sorted series, with a span of no
      less than zero, starts its output with that sample at offset 0. */
  lemma AnchorAtFirst<V>(series: Series<V>, span: int, index: nat)
    requires series.samples != [] && span >= 0
    ensures var p := SliceOf(series, series.samples[0].time, span, index).points;
      p != [] && p[0] == Sample(0, series.samples[0].value)
  {
  }

  // ---------------------------------------------------------------------
  // The slicing loop

  /** `slice_timeseries(df, date_list, comparison_span)` on the sorted
      series the callers pass: one output per anchor, in anchor order. */
  method SliceTimeseries<V>(series: Series<V>, anchors: seq<Time>, span: int) returns (out: seq<Slice<V>>)
    requires SortedBy(series.samples, SampleTime)
    ensures |out| == |anchors|
    ensures forall i :: 0 <= i < |anchors| ==> out[i] == SliceOf(series, anchors[i], span, i)
  {
    out := [];
    var i := 0;
    while i < |anchors|
      invariant 0 <= i <= |anchors| && |out| == i
      invariant forall k :: 0 <= k < i ==> out[k] == SliceOf(series, anchors[k], span, k)
    {
      var sliced := LabelSlice(series.samples, anchors[i], span);
      LabelSliceIsWindow(series.samples, anchors[i], span);
      out := out + [Slice(series.name + "_" + NatToString(i), Rebase(sliced))];
      i := i + 1;
    }
  }
}
