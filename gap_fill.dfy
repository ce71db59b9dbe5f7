/** Gap marking.  `log_parsing` keeps parallel lists, one of timestamps and
    one per channel, and appends each real record to all of them.  From
    the second record of the whole ingestion on, it then compares the
    record just appended with the entry appended before it (which may be a
    gap sentinel) and, when the seconds component of their difference
    exceeds five minutes, appends a sentinel: the midpoint instant with
    MISSING in every channel.  This module states that policy as a fold
    over the real records and proves what it produces. */
module GapFill {
  import opened Common
  import opened Calendar
  import opened Formats

  /** The threshold of `... .seconds / 60.0 > 5`, in seconds. */
  const GapThresholdSeconds: int := 300

  /** `pd.Timedelta(d).seconds` for a difference of `d` nanoseconds: the
      seconds component, with whole days (floor semantics) dropped. */
  function TimedeltaSeconds(d: int): (r: int)
    ensures 0 <= r < SecondsPerDay
    ensures 0 <= d < NanosPerDay ==> r * NanosPerSecond <= d < (r + 1) * NanosPerSecond
  {
    (d % NanosPerDay) / NanosPerSecond
  }

  /** The test of lines 88, 145, 189 and 234: `seconds / 60.0 > 5` on a
      whole number of seconds is `seconds > 300`. */
  predicate IsGap(prev: Time, next: Time)
  {
    TimedeltaSeconds(next - prev) > GapThresholdSeconds
  }

  /** The middle of `pd.date_range(prev, next, periods = 3)`, taken as the
      floor of the exact midpoint. */
  function Midpoint(a: Time, b: Time): (m: Time)
    ensures a <= b ==> a <= m <= b
    ensures b <= a ==> b <= m <= a
    ensures (a + b) % 2 == 0 ==> m + m == a + b
  {
    (a + b) / 2
  }

  /** Within a day, a gap is a difference of at least 301 whole seconds. */
  lemma GapWithinADay(prev: Time, next: Time)
    requires 0 <= next - prev < NanosPerDay
    ensures IsGap(prev, next) <==> next - prev >= (GapThresholdSeconds + 1) * NanosPerSecond
  {
  }

  /** Whole days do not count: shifting one instant by whole days never
      changes the verdict, so an outage of a day and three minutes is no
      gap, and a record one minute before its predecessor is one. */
  lemma GapIgnoresWholeDays(prev: Time, next: Time, days: int)
    ensures IsGap(prev, next + days * NanosPerDay) == IsGap(prev, next)
  {
    var d := next - prev;
    assert (d + days * NanosPerDay) % NanosPerDay == d % NanosPerDay;
  }

  lemma GapExamples()
    ensures IsGap(0, 20 * 60 * NanosPerSecond)
    ensures !IsGap(0, 5 * 60 * NanosPerSecond)
    ensures IsGap(0, 5 * 60 * NanosPerSecond + NanosPerSecond)
    ensures !IsGap(0, NanosPerDay + 3 * 60 * NanosPerSecond)
    ensures IsGap(60 * NanosPerSecond, 0)
  {
  }

  // ---------------------------------------------------------------------
  // The parallel lists

  /** `date_col` and the per-channel value lists (`None` is NaN). */
  datatype Columns<V> = Columns(dates: seq<Time>, cols: seq<seq<Option<V>>>)

  /** One list per channel, each as long as the timestamp list. */
  ghost predicate LockStep<V>(a: Columns<V>, n: nat)
  {
    |a.cols| == n && forall k :: 0 <= k < n ==> |a.cols[k]| == |a.dates|
  }

  function Empty<V>(n: nat): (a: Columns<V>)
    ensures LockStep(a, n) && a.dates == []
  {
    Columns([], seq(n, _ => []))
  }

  /** Appends each channel's value of a real record to its list. */
  function PushValues<V>(cols: seq<seq<Option<V>>>, values: seq<V>): (r: seq<seq<Option<V>>>)
    requires |values| == |cols|
    ensures |r| == |cols| && forall k :: 0 <= k < |cols| ==> r[k] == cols[k] + [Some(values[k])]
  {
    seq(|cols|, k requires 0 <= k < |cols| => cols[k] + [Some(values[k])])
  }

  /** Appends NaN to every channel's list. */
  function PushMissing<V>(cols: seq<seq<Option<V>>>): (r: seq<seq<Option<V>>>)
    ensures |r| == |cols| && forall k :: 0 <= k < |cols| ==> r[k] == cols[k] + [None]
  {
    seq(|cols|, k requires 0 <= k < |cols| => cols[k] + [None])
  }

  /** One record through the loop body: append it; unless it is the first
      record (the lists were empty), compare it with the entry appended
      just before it and append a sentinel after it on a gap. */
  function Step<V>(a: Columns<V>, r: Record<V>): (b: Columns<V>)
    requires LockStep(a, |r.values|)
    ensures LockStep(b, |r.values|)
    ensures |b.dates| == |a.dates| + (if a.dates != [] && IsGap(a.dates[|a.dates| - 1], r.time) then 2 else 1)
  {
    var dates := a.dates + [r.time];
    var cols := PushValues(a.cols, r.values);
    if a.dates == [] then Columns(dates, cols)
    else
      var prev := a.dates[|a.dates| - 1];
      if IsGap(prev, r.time) then Columns(dates + [Midpoint(prev, r.time)], PushMissing(cols))
      else Columns(dates, cols)
  }

  /** A step keeps everything already appended, appends the record in
      every list, and on a gap appends the sentinel after it. */
  lemma StepFacts<V>(a: Columns<V>, r: Record<V>)
    requires LockStep(a, |r.values|)
    ensures var b, m, n := Step(a, r), |a.dates|, |r.values|;
      && (forall p :: 0 <= p < m ==> b.dates[p] == a.dates[p])
      && (forall k, p :: 0 <= k < n && 0 <= p < m ==> b.cols[k][p] == a.cols[k][p])
      && b.dates[m] == r.time
      && (forall k :: 0 <= k < n ==> b.cols[k][m] == Some(r.values[k]))
      && (|b.dates| == m + 2 ==> (b.dates[m + 1] == Midpoint(a.dates[m - 1], r.time)
           && forall k :: 0 <= k < n ==> b.cols[k][m + 1] == None))
  {
  }

  ghost predicate Width<V>(recs: seq<Record<V>>, n: nat)
  {
    forall i :: 0 <= i < |recs| ==> |recs[i].values| == n
  }

  /** The lists after the given real records, in ingestion order. */
  function Ingest<V>(n: nat, recs: seq<Record<V>>): (a: Columns<V>)
    requires Width(recs, n)
    ensures LockStep(a, n)
  {
    if recs == [] then Empty(n)
    else Step(Ingest(n, recs[..|recs| - 1]), recs[|recs| - 1])
  }

  // ---------------------------------------------------------------------
  // What the lists look like

  /** Entry `p` is a sentinel (MISSING, read from the first channel). */
  ghost predicate Sentinel<V>(a: Columns<V>, p: int)
  {
    |a.cols| > 0 && 0 <= p < |a.cols[0]| && a.cols[0][p].None?
  }

  /** Every channel agrees on which entries are MISSING. */
  ghost predicate MissingAgree<V>(a: Columns<V>)
    requires LockStep(a, |a.cols|) && |a.cols| > 0
  {
    forall k, p :: 0 <= k < |a.cols| && 0 <= p < |a.dates| ==> (a.cols[k][p].None? <==> a.cols[0][p].None?)
  }

  /** Entry `p` is a sentinel exactly when the one before it is real, is
      not the first entry, and is a gap away from the entry before it. */
  ghost predicate RuleAt<V>(a: Columns<V>, p: int)
    requires LockStep(a, |a.cols|) && |a.cols| > 0 && 1 <= p < |a.dates|
  {
    Sentinel(a, p) <==> p >= 2 && !Sentinel(a, p - 1) && IsGap(a.dates[p - 2], a.dates[p - 1])
  }

  /** The rule at every entry but the first. */
  ghost predicate SentinelRule<V>(a: Columns<V>)
    requires LockStep(a, |a.cols|) && |a.cols| > 0
  {
    forall p :: 1 <= p < |a.dates| ==> RuleAt(a, p)
  }

  /** A sentinel sits at the midpoint of the two entries before it. */
  ghost predicate SentinelsAtMidpoints<V>(a: Columns<V>)
    requires LockStep(a, |a.cols|) && |a.cols| > 0
  {
    forall p :: 2 <= p < |a.dates| && Sentinel(a, p) ==> a.dates[p] == Midpoint(a.dates[p - 2], a.dates[p - 1])
  }

  /** The shape every ingestion has: the rules above, the first entry
      real, and a real last entry no gap away from the entry before it. */
  ghost predicate GapShaped<V>(a: Columns<V>)
    requires LockStep(a, |a.cols|) && |a.cols| > 0
  {
    var d := a.dates;
    && MissingAgree(a) && SentinelRule(a) && SentinelsAtMidpoints(a)
    && (|d| > 0 ==> !Sentinel(a, 0))
    && LastRealNoGap(a)
  }

  /** A real last entry is no gap away from the entry before it. */
  ghost predicate LastRealNoGap<V>(a: Columns<V>)
  {
    var d := a.dates;
    |d| >= 2 && !Sentinel(a, |d| - 1) ==> !IsGap(d[|d| - 2], d[|d| - 1])
  }

  lemma {:induction false} IngestGapShaped<V>(n: nat, recs: seq<Record<V>>)
    requires n > 0 && Width(recs, n)
    ensures GapShaped(Ingest(n, recs))
  {
    if recs != [] {
      var init := recs[..|recs| - 1];
      var r := recs[|recs| - 1];
      IngestGapShaped(n, init);
      StepGapShaped(Ingest(n, init), r);
    }
  }

  lemma StepMissingAgree<V>(a: Columns<V>, r: Record<V>)
    requires |r.values| > 0 && LockStep(a, |r.values|) && MissingAgree(a)
    ensures MissingAgree(Step(a, r))
  {
    var b := Step(a, r);
    StepFacts(a, r);
    forall k, p | 0 <= k < |r.values| && 0 <= p < |b.dates| ensures b.cols[k][p].None? <==> b.cols[0][p].None? {
      if p < |a.dates| {
        assert b.cols[k][p] == a.cols[k][p] && b.cols[0][p] == a.cols[0][p];
      }
    }
  }

  /** Appending keeps which of the old entries are sentinels, and the
      record's entry is real. */
  lemma StepSentinels<V>(a: Columns<V>, r: Record<V>)
    requires |r.values| > 0 && LockStep(a, |r.values|)
    ensures var b, m := Step(a, r), |a.dates|;
      && (forall p :: 0 <= p < m ==> (Sentinel(b, p) <==> Sentinel(a, p)))
      && !Sentinel(b, m)
      && (|b.dates| == m + 2 ==> Sentinel(b, m + 1))
  {
    StepFacts(a, r);
  }

  lemma StepSentinelRule<V>(a: Columns<V>, r: Record<V>)
    requires |r.values| > 0 && LockStep(a, |r.values|) && SentinelRule(a) && LastRealNoGap(a)
    ensures SentinelRule(Step(a, r))
  {
    var b := Step(a, r);
    var m := |a.dates|;
    var d, e := a.dates, b.dates;
    StepFacts(a, r);
    StepSentinels(a, r);
    forall p: int | 1 <= p < |b.dates|
      ensures RuleAt(b, p)
    {
      if p < m {
        assert e[p - 1] == d[p - 1];
        if p >= 2 { assert e[p - 2] == d[p - 2]; }
        assert RuleAt(a, p);
      } else if p == m {
        if p >= 2 { assert e[p - 2] == d[p - 2] && e[p - 1] == d[p - 1]; }
      } else {
        assert e[p - 1] == r.time && e[p - 2] == d[m - 1];
      }
    }
  }

  lemma StepMidpoints<V>(a: Columns<V>, r: Record<V>)
    requires |r.values| > 0 && LockStep(a, |r.values|) && SentinelsAtMidpoints(a)
    ensures SentinelsAtMidpoints(Step(a, r))
  {
    var b := Step(a, r);
    var m := |a.dates|;
    var d, e := a.dates, b.dates;
    StepFacts(a, r);
    StepSentinels(a, r);
    forall p | 2 <= p < |e| && Sentinel(b, p) ensures e[p] == Midpoint(e[p - 2], e[p - 1]) {
      if p < m {
        assert e[p] == d[p] && e[p - 1] == d[p - 1] && e[p - 2] == d[p - 2];
      } else {
        assert p == m + 1;
      }
    }
  }

  /** One more record keeps the shape. */
  lemma StepGapShaped<V>(a: Columns<V>, r: Record<V>)
    requires |r.values| > 0 && LockStep(a, |r.values|) && GapShaped(a)
    ensures GapShaped(Step(a, r))
  {
    var b := Step(a, r);
    var m := |a.dates|;
    StepMissingAgree(a, r);
    StepSentinelRule(a, r);
    StepMidpoints(a, r);
    StepFacts(a, r);
    StepSentinels(a, r);
    if |b.dates| >= 2 && !Sentinel(b, |b.dates| - 1) {
      assert |b.dates| == m + 1 && b.dates[m - 1] == a.dates[m - 1];
    }
  }

  /** The sentinel rule in the form of the loop: for a real entry that is
      not the first, a sentinel follows it exactly when it is a gap away
      from the entry appended before it, sentinel or not. */
  lemma SentinelFollowsGap<V>(a: Columns<V>, q: int)
    requires LockStep(a, |a.cols|) && |a.cols| > 0 && GapShaped(a)
    requires 1 <= q < |a.dates| && !Sentinel(a, q)
    ensures IsGap(a.dates[q - 1], a.dates[q]) <==> q + 1 < |a.dates| && Sentinel(a, q + 1)
  {
    if q + 1 < |a.dates| {
      assert RuleAt(a, q + 1);
    }
  }

  /** Entry `p` holds a value in every channel. */
  ghost predicate RealAt<V>(a: Columns<V>, p: nat)
    requires LockStep(a, |a.cols|) && p < |a.dates|
  {
    forall k :: 0 <= k < |a.cols| ==> a.cols[k][p].Some?
  }

  /** The record entry `p` holds, when it is real. */
  ghost function EntryAt<V>(a: Columns<V>, p: nat): Record<V>
    requires LockStep(a, |a.cols|) && p < |a.dates| && RealAt(a, p)
  {
    Record(a.dates[p], seq(|a.cols|, k requires 0 <= k < |a.cols| => a.cols[k][p].value))
  }

  /** The real records among the first `p` entries, in order. */
  ghost function RealEntries<V>(a: Columns<V>, p: nat): seq<Record<V>>
    requires LockStep(a, |a.cols|) && p <= |a.dates|
  {
    if p == 0 then []
    else RealEntries(a, p - 1) + if RealAt(a, p - 1) then [EntryAt(a, p - 1)] else []
  }

  lemma {:induction false} RealEntriesPrefix<V>(a: Columns<V>, b: Columns<V>, p: nat)
    requires LockStep(a, |a.cols|) && p <= |a.dates|
    requires LockStep(b, |a.cols|) && p <= |b.dates|
    requires forall i :: 0 <= i < p ==> a.dates[i] == b.dates[i]
    requires forall k, i :: 0 <= k < |a.cols| && 0 <= i < p ==> a.cols[k][i] == b.cols[k][i]
    ensures RealEntries(a, p) == RealEntries(b, p)
  {
    if p > 0 {
      RealEntriesPrefix(a, b, p - 1);
      assert RealAt(a, p - 1) <==> RealAt(b, p - 1);
      if RealAt(a, p - 1) {
        assert EntryAt(a, p - 1).values == EntryAt(b, p - 1).values;
      }
    }
  }

  /** A step adds exactly its record to the real entries. */
  lemma StepRealEntries<V>(a: Columns<V>, r: Record<V>)
    requires |r.values| > 0 && LockStep(a, |r.values|)
    ensures RealEntries(Step(a, r), |Step(a, r).dates|) == RealEntries(a, |a.dates|) + [r]
  {
    var b := Step(a, r);
    var m := |a.dates|;
    StepFacts(a, r);
    RealEntriesPrefix(a, b, m);
    assert RealAt(b, m);
    assert EntryAt(b, m).values == r.values;
    assert RealEntries(b, m + 1) == RealEntries(a, m) + [r];
    if |b.dates| == m + 2 {
      assert b.cols[0][m + 1] == None;
      assert !RealAt(b, m + 1);
    }
  }

  /** Dropping the sentinels gives back exactly the real records, in
      ingestion order, with their values unchanged. */
  lemma {:induction false} IngestRealEntries<V>(n: nat, recs: seq<Record<V>>)
    requires n > 0 && Width(recs, n)
    ensures RealEntries(Ingest(n, recs), |Ingest(n, recs).dates|) == recs
  {
    if recs != [] {
      var init, r := recs[..|recs| - 1], recs[|recs| - 1];
      assert Width(init, n);
      IngestRealEntries(n, init);
      var a, b := Ingest(n, init), Ingest(n, recs);
      assert b == Step(a, r);
      StepRealEntries(a, r);
      assert RealEntries(b, |b.dates|) == init + [r];
      assert recs == init + [r];
    }
  }

  /** How many entries of a list are MISSING. */
  function CountMissing<V>(col: seq<Option<V>>): nat
  {
    if col == [] then 0 else CountMissing(col[..|col| - 1]) + (if col[|col| - 1].None? then 1 else 0)
  }

  /** Each real record adds one entry to every list and each sentinel one
      more; every channel holds as many MISSING entries as there are
      sentinels, and there are fewer sentinels than real records. */
  lemma {:induction false} IngestCounts<V>(n: nat, recs: seq<Record<V>>)
    requires Width(recs, n)
    ensures var a := Ingest(n, recs);
      && |recs| <= |a.dates|
      && (recs != [] ==> |a.dates| - |recs| <= |recs| - 1)
      && forall k :: 0 <= k < n ==> CountMissing(a.cols[k]) == |a.dates| - |recs|
  {
    if recs != [] {
      var init := recs[..|recs| - 1];
      var r := recs[|recs| - 1];
      IngestCounts(n, init);
      var a := Ingest(n, init);
      var b := Step(a, r);
      forall k | 0 <= k < n ensures CountMissing(b.cols[k]) == |b.dates| - |recs| {
        var c := a.cols[k] + [Some(r.values[k])];
        assert c[..|c| - 1] == a.cols[k];
        if |b.dates| == |a.dates| + 2 {
          assert b.cols[k] == c + [None];
          assert (c + [None])[..|c|] == c;
        } else {
          assert b.cols[k] == c;
        }
      }
    }
  }

  // ---------------------------------------------------------------------
  // Worked examples

  lemma IngestOne<V>(r: Record<V>)
    ensures Ingest(|r.values|, [r]) == Columns([r.time], seq(|r.values|, k requires 0 <= k < |r.values| => [Some(r.values[k])]))
  {
    var n := |r.values|;
    assert [r][..0] == [];
    var b := Ingest(n, [r]);
    assert b == Step(Ingest(n, []), r);
    assert Ingest<V>(n, []) == Empty<V>(n);
    assert b.dates == [r.time];
    assert forall k :: 0 <= k < n ==> b.cols[k] == [Some(r.values[k])];
    assert b.cols == seq(n, k requires 0 <= k < n => [Some(r.values[k])]);
  }

  /** Two readings twenty minutes apart: the second is appended, then a
      sentinel ten minutes after the first. */
  lemma TwentyMinuteGap<V>(t0: Time, x: V, y: V)
    ensures var minute := 60 * NanosPerSecond;
      Ingest(1, [Record(t0, [x]), Record(t0 + 20 * minute, [y])])
      == Columns([t0, t0 + 20 * minute, t0 + 10 * minute], [[Some(x), Some(y), None]])
  {
    var minute := 60 * NanosPerSecond;
    var recs := [Record(t0, [x]), Record(t0 + 20 * minute, [y])];
    assert recs[..1] == [Record(t0, [x])];
    IngestOne(Record(t0, [x]));
    var a := Ingest(1, recs[..1]);
    assert a == Columns([t0], [[Some(x)]]);
    assert IsGap(t0, t0 + 20 * minute);
    assert Midpoint(t0, t0 + 20 * minute) == t0 + 10 * minute;
    var b := Ingest(1, recs);
    assert b == Step(a, recs[1]);
    assert b.cols[0] == [Some(x), Some(y), None];
  }

  /** The comparison is with the last appended entry, not the last real
      record: after a 20-minute outage the sentinel at 10 minutes becomes
      the predecessor, so a reading one minute after the resumption yields
      a second sentinel (at 15.5 minutes) inside the same outage. */
  lemma SentinelAsPredecessor<V>(x: V, y: V, z: V)
    ensures var minute := 60 * NanosPerSecond;
      Ingest(1, [Record(0, [x]), Record(20 * minute, [y]), Record(21 * minute, [z])]).dates
      == [0, 20 * minute, 10 * minute, 21 * minute, 31 * minute / 2]
  {
    var minute := 60 * NanosPerSecond;
    var recs := [Record(0, [x]), Record(20 * minute, [y]), Record(21 * minute, [z])];
    assert recs[..2] == [Record(0, [x]), Record(20 * minute, [y])];
    TwentyMinuteGap(0, x, y);
    var a := Ingest(1, recs[..2]);
    assert a.dates == [0, 20 * minute, 10 * minute];
    assert IsGap(10 * minute, 21 * minute);
  }
}
