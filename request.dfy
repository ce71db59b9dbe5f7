/** The request handling of `df_slices`: the "type channel" selector, the
    comma-separated anchor list, and the pairing of the non-empty slices
    with their anchors for plotting. */
module Request {
  import opened Common
  import opened Text
  import opened Calendar
  import opened Sorting
  import opened Slicer

  /** Lines 297-301: the selector is split on spaces; with more than one
      part the first is the data type and the second the channel,
      otherwise the whole selector is the data type and there is no
      channel. */
  function SplitRequest(request: string): (r: (string, string))
    ensures ' ' !in r.1
    ensures ' ' in request ==> ' ' !in r.0
    ensures ' ' !in request ==> r == (request, "")
  {
    var parts := Split(request, ' ');
    if |parts| > 1 then
      assert ' ' in request by {
        JoinSplit(request, ' ');
        assert Join(parts, ' ')[|parts[0]|] == ' ';
      }
      (parts[0], parts[1])
    else
      assert ' ' !in request by {
        JoinSplit(request, ' ');
      }
      (request, "")
  }

  /** A selector built from a data type and a channel splits back into
      them. */
  lemma SplitRequestJoin(kind: string, channel: string)
    requires ' ' !in kind && ' ' !in channel
    ensures SplitRequest(kind + " " + channel) == (kind, channel)
  {
    SplitJoin([kind, channel], ' ');
    assert [kind, channel][1..] == [channel];
    assert Join([kind, channel], ' ') == kind + " " + channel;
  }

  // ---------------------------------------------------------------------
  // The anchor list

  /** Line 305: newlines are dropped and the text is cut at every comma. */
  function AnchorTokens(text: string): (tokens: seq<string>)
    ensures |tokens| >= 1
    ensures forall k :: 0 <= k < |tokens| ==> ',' !in tokens[k] && '\n' !in tokens[k]
  {
    var tokens := Split(Remove(text, '\n'), ',');
    assert forall k :: 0 <= k < |tokens| ==> '\n' !in tokens[k] by {
      forall k | 0 <= k < |tokens| ensures '\n' !in tokens[k] {
        JoinSplit(Remove(text, '\n'), ',');
        JoinContains(tokens, ',', k);
      }
    }
    tokens
  }

  /** Line 307: one token read as an anchor, after stripping whitespace. */
  function ReadAnchor(token: string): Option<Time>
  {
    ParseTimestamp(Strip(token))
  }

  /** The reference definition of the anchors: each token passed to
      `read`, in token order, the ones that do not read dropped. */
  function ReadAll(tokens: seq<string>, read: string -> Option<Time>): (anchors: seq<Time>)
    ensures |anchors| <= |tokens|
  {
    if tokens == [] then []
    else
      ReadAll(tokens[..|tokens| - 1], read)
      + match read(tokens[|tokens| - 1]) { case Some(t) => [t] case None => [] }
  }

  function ParsedAnchors(tokens: seq<string>): (anchors: seq<Time>)
    ensures |anchors| <= |tokens|
  {
    ReadAll(tokens, ReadAnchor)
  }

  /** The loop of lines 306-309, with `read` the reading of one token:
      the readings that succeed are appended in token order. */
  method ReadTokens(tokens: seq<string>, read: string -> Option<Time>) returns (anchors: seq<Time>)
    ensures anchors == ReadAll(tokens, read)
  {
    anchors := [];
    var i := 0;
    while i < |tokens|
      invariant 0 <= i <= |tokens|
      invariant anchors == ReadAll(tokens[..i], read)
    {
      ReadAllSnoc(tokens, i, read);
      var parsed := read(tokens[i]);
      if parsed.Some? {
        anchors := anchors + [parsed.value];
      }
      i := i + 1;
    }
    assert tokens[..i] == tokens;
  }

  /** Lines 304-309: the text is cut into tokens, and each is stripped and
      read as a timestamp. */
  method ParseAnchors(text: string) returns (anchors: seq<Time>)
    ensures anchors == ParsedAnchors(AnchorTokens(text))
  {
    var tokens := Split(Remove(text, '\n'), ',');
    anchors := ReadTokens(tokens, ReadAnchor);
  }

  /** One more token: the anchors so far, then that token's reading. */
  lemma ReadAllSnoc(tokens: seq<string>, i: nat, read: string -> Option<Time>)
    requires i < |tokens|
    ensures ReadAll(tokens[..i + 1], read)
      == ReadAll(tokens[..i], read) + match read(tokens[i]) { case Some(t) => [t] case None => [] }
  {
    assert tokens[..i + 1][..i] == tokens[..i];
  }

  /** The anchors are taken token by token: the anchors of a token list
      are those of its first part followed by those of the rest. */
  lemma {:induction false} ReadAllAppend(a: seq<string>, b: seq<string>, read: string -> Option<Time>)
    ensures ReadAll(a + b, read) == ReadAll(a, read) + ReadAll(b, read)
  {
    if b != [] {
      var init := b[..|b| - 1];
      ReadAllAppend(a, init, read);
      assert (a + b)[..|a + b| - 1] == a + init;
    } else {
      assert a + b == a;
    }
  }

  /** A token that `read` rejects contributes nothing. */
  lemma ReadAllSkips(a: seq<string>, bad: string, b: seq<string>, read: string -> Option<Time>)
    requires read(bad).None?
    ensures ReadAll(a + [bad] + b, read) == ReadAll(a, read) + ReadAll(b, read)
  {
    ReadAllAppend(a + [bad], b, read);
    assert (a + [bad])[..|a|] == a;
  }

  /** A token that does not read as a timestamp contributes nothing, and
      the anchors of the others keep their order. */
  lemma DropsUnreadable(a: seq<string>, bad: string, b: seq<string>)
    requires ParseTimestamp(Strip(bad)).None?
    ensures ParsedAnchors(a + [bad] + b) == ParsedAnchors(a) + ParsedAnchors(b)
  {
    ReadAllSkips(a, bad, b, ReadAnchor);
  }

  lemma {:induction false} ReadAllMembers(tokens: seq<string>, read: string -> Option<Time>, t: Time)
    ensures t in ReadAll(tokens, read) <==> exists k :: 0 <= k < |tokens| && read(tokens[k]) == Some(t)
  {
    if tokens != [] {
      var init := tokens[..|tokens| - 1];
      ReadAllMembers(init, read, t);
      assert forall k :: 0 <= k < |init| ==> init[k] == tokens[k];
    }
  }

  /** An instant is an anchor exactly when some stripped token reads as it. */
  lemma ParsedAnchorsMembers(tokens: seq<string>, t: Time)
    ensures t in ParsedAnchors(tokens) <==> exists k :: 0 <= k < |tokens| && ParseTimestamp(Strip(tokens[k])) == Some(t)
  {
    ReadAllMembers(tokens, ReadAnchor, t);
  }

  function Formatted(ds: seq<DateTime>): (r: seq<string>)
    requires forall k :: 0 <= k < |ds| ==> ValidDateTime(ds[k])
    ensures |r| == |ds|
  {
    seq(|ds|, k requires 0 <= k < |ds| => FormatDateTime(ds[k]))
  }

  /** A timestamp in the log format reads back as its instant. */
  lemma ReadFormatted(d: DateTime)
    requires ValidDateTime(d)
    ensures ReadAnchor(FormatDateTime(d)) == Some(TimeOf(d))
  {
    FormatDateTimeShape(d);
    StripUnchanged(FormatDateTime(d));
    ParseFormatDateTime(d);
  }

  function TimesOf(ds: seq<DateTime>): (r: seq<Time>)
    requires forall k :: 0 <= k < |ds| ==> ValidDateTime(ds[k])
    ensures |r| == |ds|
  {
    seq(|ds|, k requires 0 <= k < |ds| => TimeOf(ds[k]))
  }

  /** Tokens that all read give their readings, in order. */
  lemma {:induction false} ReadAllReads(tokens: seq<string>, times: seq<Time>, read: string -> Option<Time>)
    requires |tokens| == |times|
    requires forall k :: 0 <= k < |tokens| ==> read(tokens[k]) == Some(times[k])
    ensures ReadAll(tokens, read) == times
  {
    if tokens != [] {
      var m := |tokens| - 1;
      ReadAllReads(tokens[..m], times[..m], read);
      assert times == times[..m] + [times[m]];
    }
  }

  lemma ParsedFormatted(ds: seq<DateTime>)
    requires forall k :: 0 <= k < |ds| ==> ValidDateTime(ds[k])
    ensures ParsedAnchors(Formatted(ds)) == TimesOf(ds)
  {
    forall k | 0 <= k < |ds| ensures ReadAnchor(FormatDateTime(ds[k])) == Some(TimeOf(ds[k])) {
      ReadFormatted(ds[k]);
    }
    ReadAllReads(Formatted(ds), TimesOf(ds), ReadAnchor);
  }

  /** Instants written in the log format and joined by commas read back as
      the same instants, in the same order. */
  lemma AnchorsRoundTrip(ds: seq<DateTime>)
    requires forall k :: 0 <= k < |ds| ==> ValidDateTime(ds[k])
    ensures ParsedAnchors(AnchorTokens(Join(Formatted(ds), ','))) == TimesOf(ds)
  {
    if ds == [] {
      assert Split([], ',') == [[]];
      assert ReadAnchor([]) == None;
      assert ReadAll([[]], ReadAnchor) == [];
      return;
    }
    var parts := Formatted(ds);
    forall k | 0 <= k < |parts| ensures ',' !in parts[k] && '\n' !in parts[k] {
      FormatDateTimeShape(ds[k]);
    }
    var text := Join(parts, ',');
    forall x | x in text ensures x != '\n' {
      JoinMembers(parts, ',', x);
    }
    assert Remove(text, '\n') == text;
    SplitJoin(parts, ',');
    ParsedFormatted(ds);
  }

  // ---------------------------------------------------------------------
  // The plotted output

  /** What is plotted for a slice: its offsets, its values and its anchor. */
  datatype Curve<V> = Curve(offsets: seq<Time>, values: seq<Option<V>>, anchor: Time)

  function CurveOf<V>(s: Slice<V>, anchor: Time): (c: Curve<V>)
    ensures |c.offsets| == |c.values| == |s.points| && c.anchor == anchor
    ensures forall k :: 0 <= k < |s.points| ==> c.offsets[k] == s.points[k].time && c.values[k] == s.points[k].value
  {
    Curve(seq(|s.points|, k requires 0 <= k < |s.points| => s.points[k].time),
          seq(|s.points|, k requires 0 <= k < |s.points| => s.points[k].value), anchor)
  }

  /** The curves of the first `n` slices: a slice is kept when it is not
      empty and has an anchor at its own position, and it is paired with
      that anchor. */
  function KeptCurves<V>(slices: seq<Slice<V>>, anchors: seq<Time>, n: nat): (r: seq<Curve<V>>)
    requires n <= |slices|
    ensures |r| <= n
  {
    if n == 0 then []
    else
      KeptCurves(slices, anchors, n - 1)
      + if slices[n - 1].points != [] && n - 1 < |anchors| then [CurveOf(slices[n - 1], anchors[n - 1])] else []
  }

  /** Lines 339-345: the loop that keeps the plottable slices. */
  method PlotCurves<V>(slices: seq<Slice<V>>, anchors: seq<Time>) returns (out: seq<Curve<V>>)
    ensures out == KeptCurves(slices, anchors, |slices|)
  {
    out := [];
    var i := 0;
    while i < |slices|
      invariant 0 <= i <= |slices|
      invariant out == KeptCurves(slices, anchors, i)
    {
      if slices[i].points != [] && i < |anchors| {
        out := out + [CurveOf(slices[i], anchors[i])];
      }
      i := i + 1;
    }
  }

  /** Every curve is a non-empty slice paired with the anchor at its own
      position, and every such slice gives a curve; the order of the
      slices is kept. */
  lemma {:induction false} KeptCurvesPaired<V>(slices: seq<Slice<V>>, anchors: seq<Time>, n: nat)
    requires n <= |slices|
    ensures forall c :: c in KeptCurves(slices, anchors, n) <==>
      exists i :: 0 <= i < n && i < |anchors| && slices[i].points != [] && c == CurveOf(slices[i], anchors[i])
    ensures forall c :: c in KeptCurves(slices, anchors, n) ==> c.offsets != []
  {
    if n > 0 {
      KeptCurvesPaired(slices, anchors, n - 1);
    }
  }

  /** The slices `slice_timeseries` gives for the anchors. */
  function SlicesOf<V>(series: Series<V>, anchors: seq<Time>, span: int): (r: seq<Slice<V>>)
    ensures |r| == |anchors|
  {
    seq(|anchors|, i requires 0 <= i < |anchors| => SliceOf(series, anchors[i], span, i))
  }

  /** `df_slices` once the series is at hand: anchors, slices, curves. */
  function DfSlicesSpec<V>(series: Series<V>, text: string, span: int): seq<Curve<V>>
  {
    var anchors := ParsedAnchors(AnchorTokens(text));
    KeptCurves(SlicesOf(series, anchors, span), anchors, |anchors|)
  }

  /** Lines 304-309 and 335-347 on the series the cache hands over. */
  method DfSlices<V>(series: Series<V>, text: string, span: int) returns (out: seq<Curve<V>>)
    requires SortedBy(series.samples, SampleTime)
    ensures out == DfSlicesSpec(series, text, span)
  {
    var anchors := ParseAnchors(text);
    var slices := SliceTimeseries(series, anchors, span);
    assert slices == SlicesOf(series, anchors, span);
    out := PlotCurves(slices, anchors);
  }

  function Values<V>(w: seq<Sample<V>>): (r: seq<Option<V>>)
    ensures |r| == |w|
  {
    seq(|w|, k requires 0 <= k < |w| => w[k].value)
  }

  /** A curve plots the window of its anchor: its offsets start at 0 and
      stay within the span, and its values are those of the window. */
  ghost predicate PlotsWindow<V>(c: Curve<V>, series: Series<V>, span: int)
  {
    && c.offsets != [] && c.offsets[0] == 0
    && (forall k :: 0 <= k < |c.offsets| ==> 0 <= c.offsets[k] <= span * NanosPerHour)
    && c.values == Values(Window(series.samples, c.anchor, span))
  }

  /** The curve of a non-empty slice of a sorted series plots its window. */
  lemma CurveOfSlice<V>(series: Series<V>, anchor: Time, span: int, index: nat)
    requires SortedBy(series.samples, SampleTime)
    requires SliceOf(series, anchor, span, index).points != []
    ensures PlotsWindow(CurveOf(SliceOf(series, anchor, span, index), anchor), series, span)
  {
    SliceContents(series, anchor, span, index);
    var c := CurveOf(SliceOf(series, anchor, span, index), anchor);
    assert c.values == Values(Window(series.samples, anchor, span));
  }

  /** The curves kept from the first `n` slices of a sorted series each
      belong to one of the anchors and plot its window. */
  lemma {:induction false} KeptCurvesPlot<V>(series: Series<V>, anchors: seq<Time>, span: int, n: nat)
    requires SortedBy(series.samples, SampleTime) && n <= |anchors|
    ensures forall c :: c in KeptCurves(SlicesOf(series, anchors, span), anchors, n) ==>
      c.anchor in anchors && PlotsWindow(c, series, span)
  {
    if n > 0 {
      var slices := SlicesOf(series, anchors, span);
      KeptCurvesPlot(series, anchors, span, n - 1);
      if slices[n - 1].points != [] {
        CurveOfSlice(series, anchors[n - 1], span, n - 1);
      }
    }
  }

  /** Every plotted curve belongs to an anchor the text names and plots
      that anchor's window, and there are no more curves than anchors. */
  lemma DfSlicesCurves<V>(series: Series<V>, text: string, span: int)
    requires SortedBy(series.samples, SampleTime)
    ensures |DfSlicesSpec(series, text, span)| <= |ParsedAnchors(AnchorTokens(text))|
    ensures forall c :: c in DfSlicesSpec(series, text, span) ==>
      c.anchor in ParsedAnchors(AnchorTokens(text)) && PlotsWindow(c, series, span)
  {
    var anchors := ParsedAnchors(AnchorTokens(text));
    KeptCurvesPlot(series, anchors, span, |anchors|);
  }
}
