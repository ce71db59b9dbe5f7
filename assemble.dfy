/** `log_parsing`: the folder index, then for the requested data type the
    records of every existing log file, day by day in index order, fed
    through the gap-marking accumulation, and finally the rows ordered by
    timestamp.  Files are given as a map from path to lines (a path not in
    the map is a file that does not exist) and `float` as a fallible
    conversion `num`. */
module Assemble {
  import opened Common
  import opened Calendar
  import opened Sorting
  import opened FolderIndex
  import opened Formats
  import opened GapFill

  /** The line parser of a data type, with `num` standing for `float`. */
  function LineParser<V>(t: DataType, num: string -> Option<V>): string -> LineOutcome<V>
  {
    line => ParseLine(t, line, num)
  }

  /** Every record `parse` yields has `n` values. */
  ghost predicate Yields<V>(parse: string -> LineOutcome<V>, n: nat)
  {
    forall line :: parse(line).Parsed? ==> |parse(line).record.values| == n
  }

  lemma LineParserYields<V>(t: DataType, num: string -> Option<V>)
    ensures Yields(LineParser(t, num), ChannelCount(t))
  {
    forall line | LineParser(t, num)(line).Parsed?
      ensures |LineParser(t, num)(line).record.values| == ChannelCount(t)
    {
      assert LineParser(t, num)(line) == ParseLine(t, line, num);
    }
  }

  /** The records a file's lines give under `parse`, in line order.  A
      skipped line adds nothing; the first line that aborts aborts the
      whole call. */
  function Collect<V>(lines: seq<string>, parse: string -> LineOutcome<V>): (r: Result<seq<Record<V>>>)
    ensures r.Ok? ==> |r.value| <= |lines|
  {
    if lines == [] then Ok([])
    else
      match Collect(lines[..|lines| - 1], parse)
      case Err(e) => Err(e)
      case Ok(rs) =>
        match parse(lines[|lines| - 1])
        case Parsed(rec) => Ok(rs + [rec])
        case Skipped => Ok(rs)
        case Aborted(e) => Err(e)
  }

  lemma {:induction false} CollectWidth<V>(lines: seq<string>, parse: string -> LineOutcome<V>, n: nat)
    requires Yields(parse, n)
    ensures Collect(lines, parse).Ok? ==> Width(Collect(lines, parse).value, n)
  {
    if lines != [] {
      CollectWidth(lines[..|lines| - 1], parse, n);
    }
  }

  /** The records of one file's lines. */
  function LinesRecords<V>(t: DataType, lines: seq<string>, num: string -> Option<V>): (r: Result<seq<Record<V>>>)
    ensures r.Ok? ==> Width(r.value, ChannelCount(t)) && |r.value| <= |lines|
  {
    LineParserYields(t, num);
    CollectWidth(lines, LineParser(t, num), ChannelCount(t));
    Collect(lines, LineParser(t, num))
  }

  /** The records of the day folders, in index order; a day without the
      file contributes nothing. */
  function DayRecords<V>(t: DataType, root: string, channel: string, days: seq<DateFolder>,
                         files: map<string, seq<string>>, num: string -> Option<V>): (r: Result<seq<Record<V>>>)
    ensures r.Ok? ==> Width(r.value, ChannelCount(t))
  {
    if days == [] then Ok([])
    else
      match DayRecords(t, root, channel, days[..|days| - 1], files, num)
      case Err(e) => Err(e)
      case Ok(rs) =>
        var path := LogPath(root, t, days[|days| - 1].name, channel);
        if path !in files then Ok(rs)
        else
          match LinesRecords(t, files[path], num)
          case Err(e) => Err(e)
          case Ok(more) => Ok(rs + more)
  }

  /** The parallel lists one accumulation produces (for temperatures, the
      lists of one channel). */
  function ChannelSpec<V>(t: DataType, root: string, channel: string, days: seq<DateFolder>,
                          files: map<string, seq<string>>, num: string -> Option<V>): (r: Result<Columns<V>>)
    ensures r.Ok? ==> LockStep(r.value, ChannelCount(t))
  {
    match DayRecords(t, root, channel, days, files, num)
    case Err(e) => Err(e)
    case Ok(recs) => Ok(Ingest(ChannelCount(t), recs))
  }

  // ---------------------------------------------------------------------
  // Properties of the record extraction

  /** The lines are accepted exactly when none of them aborts, and the
      failure reported is that of the first one that does. */
  lemma {:induction false} CollectOutcome<V>(lines: seq<string>, parse: string -> LineOutcome<V>)
    ensures Collect(lines, parse).Ok? <==> forall i :: 0 <= i < |lines| ==> !parse(lines[i]).Aborted?
    ensures forall i :: 0 <= i < |lines| && parse(lines[i]).Aborted? && (forall j :: 0 <= j < i ==> !parse(lines[j]).Aborted?) ==>
      Collect(lines, parse) == Err(parse(lines[i]).failure)
  {
    if lines != [] {
      var init := lines[..|lines| - 1];
      CollectOutcome(init, parse);
      assert forall i :: 0 <= i < |init| ==> init[i] == lines[i];
    }
  }

  /** The accepted records are exactly the records of the parsed lines. */
  lemma {:induction false} CollectMembers<V>(lines: seq<string>, parse: string -> LineOutcome<V>)
    requires Collect(lines, parse).Ok?
    ensures forall rec :: rec in Collect(lines, parse).value <==>
      exists i :: 0 <= i < |lines| && parse(lines[i]) == Parsed(rec)
  {
    if lines != [] {
      var init := lines[..|lines| - 1];
      CollectMembers(init, parse);
      assert forall i :: 0 <= i < |init| ==> init[i] == lines[i];
      forall rec | exists i :: 0 <= i < |lines| && parse(lines[i]) == Parsed(rec)
        ensures rec in Collect(lines, parse).value
      {
        var i :| 0 <= i < |lines| && parse(lines[i]) == Parsed(rec);
        if i < |init| {
          assert parse(init[i]) == Parsed(rec);
        }
      }
    }
  }

  /** Line `i` is the first line of the file that aborts. */
  ghost predicate FirstAbortAt<V>(t: DataType, lines: seq<string>, num: string -> Option<V>, i: int)
  {
    0 <= i < |lines| && ParseLine(t, lines[i], num).Aborted?
    && forall j :: 0 <= j < i ==> !ParseLine(t, lines[j], num).Aborted?
  }

  /** A file's lines are accepted exactly when none of them aborts; the
      failure reported is that of the first line that aborts; and the
      accepted records are exactly the records of the parsed lines. */
  lemma LinesRecordsOutcome<V>(t: DataType, lines: seq<string>, num: string -> Option<V>)
    ensures LinesRecords(t, lines, num).Ok? <==> forall i :: 0 <= i < |lines| ==> !ParseLine(t, lines[i], num).Aborted?
    ensures forall i :: FirstAbortAt(t, lines, num, i) ==> LinesRecords(t, lines, num) == Err(ParseLine(t, lines[i], num).failure)
    ensures LinesRecords(t, lines, num).Ok? ==> forall rec :: rec in LinesRecords(t, lines, num).value <==>
      exists i :: 0 <= i < |lines| && ParseLine(t, lines[i], num) == Parsed(rec)
  {
    var parse := LineParser(t, num);
    assert forall i :: 0 <= i < |lines| ==> parse(lines[i]) == ParseLine(t, lines[i], num);
    CollectOutcome(lines, parse);
    if Collect(lines, parse).Ok? {
      CollectMembers(lines, parse);
    }
  }

  /** One more line: the records so far, then what that line adds. */
  lemma CollectSnoc<V>(lines: seq<string>, j: nat, parse: string -> LineOutcome<V>)
    requires j < |lines|
    ensures Collect(lines[..j + 1], parse) ==
      match Collect(lines[..j], parse)
      case Err(e) => Err(e)
      case Ok(rs) =>
        match parse(lines[j])
        case Parsed(rec) => Ok(rs + [rec])
        case Skipped => Ok(rs)
        case Aborted(e) => Err(e)
  {
    assert lines[..j + 1][..j] == lines[..j];
  }

  /** A skipped line (a `Status` line without 64 fields) appends nothing. */
  lemma SkippedLineAppendsNothing<V>(t: DataType, lines: seq<string>, line: string, num: string -> Option<V>)
    requires ParseLine(t, line, num).Skipped?
    ensures LinesRecords(t, lines + [line], num) == LinesRecords(t, lines, num)
  {
    assert (lines + [line])[..|lines|] == lines;
    assert LineParser(t, num)(line) == ParseLine(t, line, num);
  }

  /** Once a prefix of the lines aborts, the rest of the file is not read. */
  lemma {:induction false} CollectErrPrefix<V>(lines: seq<string>, j: nat, parse: string -> LineOutcome<V>)
    requires j <= |lines| && Collect(lines[..j], parse).Err?
    ensures Collect(lines, parse) == Collect(lines[..j], parse)
  {
    if j < |lines| {
      var init := lines[..|lines| - 1];
      assert init[..j] == lines[..j];
      CollectErrPrefix(init, j, parse);
    } else {
      assert lines[..j] == lines;
    }
  }

  /** Once a prefix of the days aborts, no later day is read. */
  lemma {:induction false} DayRecordsErrPrefix<V>(t: DataType, root: string, channel: string, days: seq<DateFolder>,
                                                  i: nat, files: map<string, seq<string>>, num: string -> Option<V>)
    requires i <= |days| && DayRecords(t, root, channel, days[..i], files, num).Err?
    ensures DayRecords(t, root, channel, days, files, num) == DayRecords(t, root, channel, days[..i], files, num)
  {
    if i < |days| {
      var init := days[..|days| - 1];
      assert init[..i] == days[..i];
      DayRecordsErrPrefix(t, root, channel, init, i, files, num);
    } else {
      assert days[..i] == days;
    }
  }

  /** What one accumulation reads is only the files of its own data type
      and channel: two file maps that agree on those paths give the same
      records.  In particular each temperature channel is independent of
      the files of the other channels. */
  lemma {:induction false} DayRecordsLocal<V>(t: DataType, root: string, channel: string, days: seq<DateFolder>,
                                              f1: map<string, seq<string>>, f2: map<string, seq<string>>,
                                              num: string -> Option<V>)
    requires forall i :: 0 <= i < |days| ==>
      var p := LogPath(root, t, days[i].name, channel);
      (p in f1 <==> p in f2) && (p in f1 ==> f1[p] == f2[p])
    ensures DayRecords(t, root, channel, days, f1, num) == DayRecords(t, root, channel, days, f2, num)
  {
    if days != [] {
      var init := days[..|days| - 1];
      assert forall i :: 0 <= i < |init| ==> init[i] == days[i];
      DayRecordsLocal(t, root, channel, init, f1, f2, num);
    }
  }

  lemma IngestEmptyIff<V>(n: nat, recs: seq<Record<V>>)
    requires Width(recs, n)
    ensures Ingest(n, recs).dates == [] <==> recs == []
  {
    IngestCounts(n, recs);
  }

  // ---------------------------------------------------------------------
  // The accumulation loop

  /** The body of the line loop once a record is read (lines 72-96): the
      record is appended to every list; unless it is the first record, it
      is compared with the entry appended before it and a sentinel follows
      it on a gap. */
  method AppendRecord<V>(dateCol: seq<Time>, chCol: seq<seq<Option<V>>>, isFirst: bool, rec: Record<V>)
    returns (dates: seq<Time>, cols: seq<seq<Option<V>>>)
    requires LockStep(Columns(dateCol, chCol), |rec.values|)
    requires isFirst == (dateCol == [])
    ensures Columns(dates, cols) == Step(Columns(dateCol, chCol), rec)
  {
    dates := dateCol + [rec.time];
    cols := PushValues(chCol, rec.values);
    if isFirst {
      return;
    }
    if IsGap(dates[|dates| - 2], dates[|dates| - 1]) {
      dates := dates + [Midpoint(dates[|dates| - 2], dates[|dates| - 1])];
      cols := PushMissing(cols);
    }
  }

  /** The lists `a` with the records `recs` appended one by one. */
  function Extend<V>(n: nat, a: Columns<V>, recs: seq<Record<V>>): (b: Columns<V>)
    requires LockStep(a, n) && Width(recs, n)
    ensures LockStep(b, n)
    ensures b.dates == [] <==> a.dates == [] && recs == []
    ensures |a.dates| <= |b.dates|
  {
    if recs == [] then a else Step(Extend(n, a, recs[..|recs| - 1]), recs[|recs| - 1])
  }

  lemma ExtendSnoc<V>(n: nat, a: Columns<V>, recs: seq<Record<V>>, rec: Record<V>)
    requires LockStep(a, n) && Width(recs, n) && |rec.values| == n
    ensures Width(recs + [rec], n)
    ensures Extend(n, a, recs + [rec]) == Step(Extend(n, a, recs), rec)
  {
    assert (recs + [rec])[..|recs|] == recs;
  }

  /** Carrying the lists from one file to the next (lines 57-96) is the
      same as ingesting all the records at once. */
  lemma {:induction false} ExtendIngest<V>(n: nat, seen: seq<Record<V>>, more: seq<Record<V>>)
    requires Width(seen, n) && Width(more, n)
    ensures Width(seen + more, n)
    ensures Extend(n, Ingest(n, seen), more) == Ingest(n, seen + more)
  {
    if more == [] {
      assert seen + more == seen;
    } else {
      var init, last := more[..|more| - 1], more[|more| - 1];
      ExtendIngest(n, seen, init);
      assert (seen + more)[..|seen + more| - 1] == seen + init;
      assert (seen + more)[|seen + more| - 1] == last;
    }
  }

  /** One more line of a file that `parse` skips changes nothing. */
  lemma LineSkipped<V>(lines: seq<string>, j: nat, parse: string -> LineOutcome<V>, cur: seq<Record<V>>)
    requires j < |lines| && Collect(lines[..j], parse) == Ok(cur) && parse(lines[j]).Skipped?
    ensures Collect(lines[..j + 1], parse) == Ok(cur)
  {
    CollectSnoc(lines, j, parse);
  }

  /** A line that aborts decides the whole file. */
  lemma LineAborted<V>(lines: seq<string>, j: nat, parse: string -> LineOutcome<V>, cur: seq<Record<V>>, e: Failure)
    requires j < |lines| && Collect(lines[..j], parse) == Ok(cur) && parse(lines[j]) == Aborted(e)
    ensures Collect(lines, parse) == Err(e)
  {
    CollectSnoc(lines, j, parse);
    CollectErrPrefix(lines, j + 1, parse);
  }

  /** A parsed line appends its record. */
  lemma LineParsed<V>(lines: seq<string>, j: nat, parse: string -> LineOutcome<V>, n: nat,
                      a: Columns<V>, cur: seq<Record<V>>, rec: Record<V>)
    requires j < |lines| && Yields(parse, n) && LockStep(a, n) && Width(cur, n)
    requires Collect(lines[..j], parse) == Ok(cur) && parse(lines[j]) == Parsed(rec)
    ensures |rec.values| == n && Width(cur + [rec], n)
    ensures Collect(lines[..j + 1], parse) == Ok(cur + [rec])
    ensures Extend(n, a, cur + [rec]) == Step(Extend(n, a, cur), rec)
  {
    CollectSnoc(lines, j, parse);
    ExtendSnoc(n, a, cur, rec);
  }

  /** The line loop over one file (lines 68-96), with `parse` the line
      parser of the data type, starting from the lists `a` and the
      first-record flag `isFirst` left by the files before. */
  method ReadFile<V>(lines: seq<string>, parse: string -> LineOutcome<V>, n: nat, a: Columns<V>, isFirst: bool)
    returns (res: Result<Columns<V>>, first: bool)
    requires Yields(parse, n) && LockStep(a, n) && isFirst == (a.dates == [])
    ensures Collect(lines, parse).Err? ==> res == Err(Collect(lines, parse).failure)
    ensures Collect(lines, parse).Ok? ==>
      && Width(Collect(lines, parse).value, n)
      && res == Ok(Extend(n, a, Collect(lines, parse).value))
      && first == (isFirst && Collect(lines, parse).value == [])
  {
    var dateCol, chCol := a.dates, a.cols;
    first := isFirst;
    ghost var cur: seq<Record<V>> := [];
    var j := 0;
    while j < |lines|
      invariant 0 <= j <= |lines|
      invariant Collect(lines[..j], parse) == Ok(cur)
      invariant Width(cur, n)
      invariant Columns(dateCol, chCol) == Extend(n, a, cur)
      invariant first == (isFirst && cur == [])
    {
      match parse(lines[j]) {
        case Skipped =>
          LineSkipped(lines, j, parse, cur);
        case Aborted(e) =>
          LineAborted(lines, j, parse, cur, e);
          return Err(e), first;
        case Parsed(rec) =>
          LineParsed(lines, j, parse, n, a, cur, rec);
          dateCol, chCol := AppendRecord(dateCol, chCol, first, rec);
          first := false;
          cur := cur + [rec];
      }
      j := j + 1;
    }
    assert lines[..j] == lines;
    return Ok(Columns(dateCol, chCol)), first;
  }

  /** One more day folder: the records so far, then those of that day's
      file when it exists. */
  lemma DayRecordsSnoc<V>(t: DataType, root: string, channel: string, days: seq<DateFolder>, i: nat,
                          files: map<string, seq<string>>, num: string -> Option<V>)
    requires i < |days|
    ensures var path := LogPath(root, t, days[i].name, channel);
      DayRecords(t, root, channel, days[..i + 1], files, num) ==
      match DayRecords(t, root, channel, days[..i], files, num)
      case Err(e) => Err(e)
      case Ok(rs) =>
        if path !in files then Ok(rs)
        else
          match LinesRecords(t, files[path], num)
          case Err(e) => Err(e)
          case Ok(more) => Ok(rs + more)
  {
    assert days[..i + 1][..i] == days[..i];
  }

  /** Day `i` without the file adds nothing. */
  lemma DayWithoutFile<V>(t: DataType, root: string, channel: string, days: seq<DateFolder>, i: nat,
                          files: map<string, seq<string>>, num: string -> Option<V>, seen: seq<Record<V>>)
    requires i < |days| && LogPath(root, t, days[i].name, channel) !in files
    requires DayRecords(t, root, channel, days[..i], files, num) == Ok(seen)
    ensures DayRecords(t, root, channel, days[..i + 1], files, num) == Ok(seen)
  {
    DayRecordsSnoc(t, root, channel, days, i, files, num);
  }

  /** Day `i` whose file reads as `more` appends `more`, both to the
      records and to the lists built from them. */
  lemma DayFileRead<V>(t: DataType, root: string, channel: string, days: seq<DateFolder>, i: nat,
                       files: map<string, seq<string>>, num: string -> Option<V>, seen: seq<Record<V>>, more: seq<Record<V>>)
    requires i < |days| && LogPath(root, t, days[i].name, channel) in files
    requires DayRecords(t, root, channel, days[..i], files, num) == Ok(seen)
    requires Collect(files[LogPath(root, t, days[i].name, channel)], LineParser(t, num)) == Ok(more)
    ensures Width(seen + more, ChannelCount(t))
    ensures DayRecords(t, root, channel, days[..i + 1], files, num) == Ok(seen + more)
    ensures Extend(ChannelCount(t), Ingest(ChannelCount(t), seen), more) == Ingest(ChannelCount(t), seen + more)
  {
    DayRecordsSnoc(t, root, channel, days, i, files, num);
    var path := LogPath(root, t, days[i].name, channel);
    assert LinesRecords(t, files[path], num) == Ok(more);
    ExtendIngest(ChannelCount(t), seen, more);
  }

  /** Day `i` whose file aborts with `e` makes the whole channel fail with `e`. */
  lemma DayFileAborted<V>(t: DataType, root: string, channel: string, days: seq<DateFolder>, i: nat,
                          files: map<string, seq<string>>, num: string -> Option<V>, seen: seq<Record<V>>, e: Failure)
    requires i < |days| && LogPath(root, t, days[i].name, channel) in files
    requires DayRecords(t, root, channel, days[..i], files, num) == Ok(seen)
    requires Collect(files[LogPath(root, t, days[i].name, channel)], LineParser(t, num)) == Err(e)
    ensures ChannelSpec(t, root, channel, days, files, num) == Err(e)
  {
    DayRecordsSnoc(t, root, channel, days, i, files, num);
    var path := LogPath(root, t, days[i].name, channel);
    assert LinesRecords(t, files[path], num) == Err(e);
    DayRecordsErrPrefix(t, root, channel, days, i + 1, files, num);
  }

  /** The day loop of lines 57-96 (and of its copies for the other types):
      each day of the index whose file exists is read in turn, the lists
      and the first-record flag carried from one file to the next. */
  method AccumulateChannel<V>(t: DataType, root: string, channel: string, days: seq<DateFolder>,
                              files: map<string, seq<string>>, num: string -> Option<V>)
    returns (res: Result<Columns<V>>)
    ensures res == ChannelSpec(t, root, channel, days, files, num)
  {
    var n := ChannelCount(t);
    var lists: Columns<V> := Empty(n);
    var isFirst := true;
    ghost var seen: seq<Record<V>> := [];
    assert days[..0] == [];
    var i := 0;
    while i < |days|
      invariant 0 <= i <= |days|
      invariant DayRecords(t, root, channel, days[..i], files, num) == Ok(seen)
      invariant lists == Ingest(n, seen)
      invariant isFirst == (seen == [])
    {
      var path := LogPath(root, t, days[i].name, channel);
      if path in files {
        LineParserYields(t, num);
        var read;
        read, isFirst := ReadFile(files[path], LineParser(t, num), n, lists, isFirst);
        if read.Err? {
          DayFileAborted(t, root, channel, days, i, files, num, seen, read.failure);
          return read;
        }
        ghost var more := Collect(files[path], LineParser(t, num)).value;
        DayFileRead(t, root, channel, days, i, files, num, seen, more);
        seen := seen + more;
        lists := read.value;
      } else {
        DayWithoutFile(t, root, channel, days, i, files, num, seen);
      }
      i := i + 1;
    }
    assert days[..i] == days;
    return Ok(lists);
  }

  // ---------------------------------------------------------------------
  // Frames

  /** A row of a frame: its timestamp and one value (or MISSING) per column. */
  datatype Row<V> = Row(time: Time, values: seq<Option<V>>)

  /** A time-indexed frame: column names and rows. */
  datatype Frame<V> = Frame(columns: seq<string>, rows: seq<Row<V>>)

  /** What `log_parsing` returns: one frame, one frame per temperature
      channel, or nothing for an unknown data type. */
  datatype Ingested<V> = Table(frame: Frame<V>) | Tables(frames: seq<Frame<V>>) | NoTable

  /** The rows of the parallel lists, in appending order. */
  function RowsOf<V>(a: Columns<V>): (rows: seq<Row<V>>)
    requires LockStep(a, |a.cols|)
  {
    seq(|a.dates|, p requires 0 <= p < |a.dates| =>
      Row(a.dates[p], seq(|a.cols|, k requires 0 <= k < |a.cols| => a.cols[k][p])))
  }

  function RowTime<V>(r: Row<V>): int
  {
    r.time
  }

  /** The frame of lines 98-101: the columns under their names, with the
      rows ordered by timestamp (`sort_index`). */
  function FrameOf<V>(names: seq<string>, a: Columns<V>): Frame<V>
    requires LockStep(a, |a.cols|)
  {
    Frame(names, SortBy(RowsOf(a), RowTime))
  }

  /** The row a real record becomes: its instant and a value in every
      column. */
  function RowOfRecord<V>(r: Record<V>): Row<V>
  {
    Row(r.time, seq(|r.values|, k requires 0 <= k < |r.values| => Some(r.values[k])))
  }

  /** A real record of the first `p` entries is the record of one of them. */
  lemma {:induction false} RealEntriesMembers<V>(a: Columns<V>, p: nat, rec: Record<V>)
    requires LockStep(a, |a.cols|) && p <= |a.dates|
    ensures rec in RealEntries(a, p) <==> exists q :: 0 <= q < p && RealAt(a, q) && EntryAt(a, q) == rec
  {
    if p > 0 {
      RealEntriesMembers(a, p - 1, rec);
    }
  }

  /** A row with a value in every one of its `n` columns. */
  ghost predicate RealRow<V>(row: Row<V>, n: nat)
  {
    |row.values| == n && forall k :: 0 <= k < n ==> row.values[k].Some?
  }

  /** A row MISSING in every one of its `n` columns. */
  ghost predicate MissingRow<V>(row: Row<V>, n: nat)
  {
    |row.values| == n && forall k :: 0 <= k < n ==> row.values[k].None?
  }

  /** Each appended entry, as a row, is a real reading or a sentinel. */
  lemma RowsOfShape<V>(a: Columns<V>)
    requires LockStep(a, |a.cols|) && |a.cols| > 0 && GapShaped(a)
    ensures forall row :: row in RowsOf(a) ==> RealRow(row, |a.cols|) || MissingRow(row, |a.cols|)
  {
    var n, rows := |a.cols|, RowsOf(a);
    forall row | row in rows ensures RealRow(row, n) || MissingRow(row, n) {
      var p :| 0 <= p < |rows| && rows[p] == row;
      assert forall k :: 0 <= k < n ==> row.values[k] == a.cols[k][p];
    }
  }

  /** The real rows among the appended entries are the rows of the real
      records those entries hold. */
  lemma RowsOfReal<V>(a: Columns<V>)
    requires LockStep(a, |a.cols|)
    ensures forall row :: row in RowsOf(a) && RealRow(row, |a.cols|) <==>
      exists rec :: rec in RealEntries(a, |a.dates|) && row == RowOfRecord(rec)
  {
    var n, rows := |a.cols|, RowsOf(a);
    forall row | row in rows && RealRow(row, n)
      ensures exists rec :: rec in RealEntries(a, |a.dates|) && row == RowOfRecord(rec)
    {
      var p :| 0 <= p < |rows| && rows[p] == row;
      assert forall k :: 0 <= k < n ==> row.values[k] == a.cols[k][p];
      assert RealAt(a, p);
      RealEntriesMembers(a, |a.dates|, EntryAt(a, p));
      assert row == RowOfRecord(EntryAt(a, p));
    }
    forall rec | rec in RealEntries(a, |a.dates|) ensures RowOfRecord(rec) in rows && RealRow(RowOfRecord(rec), n) {
      RealEntriesMembers(a, |a.dates|, rec);
      var q :| 0 <= q < |a.dates| && RealAt(a, q) && EntryAt(a, q) == rec;
      assert rows[q] == RowOfRecord(rec);
    }
  }

  /** The rows of the frame, ordered by timestamp, are the appended entries
      rearranged: one per entry, at most two per record.  A row is either
      a real reading, with a value in every column, or a sentinel, MISSING
      in every column; the real rows are exactly the rows of the ingested
      records. */
  lemma FrameRows<V>(names: seq<string>, n: nat, recs: seq<Record<V>>, f: Frame<V>)
    requires n > 0 && Width(recs, n) && f == FrameOf(names, Ingest(n, recs))
    ensures SortedBy(f.rows, RowTime)
    ensures multiset(f.rows) == multiset(RowsOf(Ingest(n, recs)))
    ensures |f.rows| == |Ingest(n, recs).dates| <= 2 * |recs|
    ensures forall row :: row in f.rows ==> RealRow(row, n) || MissingRow(row, n)
    ensures forall row :: row in f.rows && RealRow(row, n) <==> exists rec :: rec in recs && row == RowOfRecord(rec)
  {
    var rows := RowsOf(Ingest(n, recs));
    SortByMembers(rows, RowTime);
    IngestCounts(n, recs);
    IngestRowsShape(n, recs);
    IngestRowsReal(n, recs);
  }

  lemma IngestRowsShape<V>(n: nat, recs: seq<Record<V>>)
    requires n > 0 && Width(recs, n)
    ensures forall row :: row in RowsOf(Ingest(n, recs)) ==> RealRow(row, n) || MissingRow(row, n)
  {
    IngestGapShaped(n, recs);
    RowsOfShape(Ingest(n, recs));
  }

  lemma IngestRowsReal<V>(n: nat, recs: seq<Record<V>>)
    requires n > 0 && Width(recs, n)
    ensures forall row :: row in RowsOf(Ingest(n, recs)) && RealRow(row, n) <==>
      exists rec :: rec in recs && row == RowOfRecord(rec)
  {
    IngestRealEntries(n, recs);
    RowsOfReal(Ingest(n, recs));
  }

  lemma RowsOfThree<V>(t0: Time, t1: Time, t2: Time, u: Option<V>, v: Option<V>, w: Option<V>)
    ensures RowsOf(Columns([t0, t1, t2], [[u, v, w]])) == [Row(t0, [u]), Row(t1, [v]), Row(t2, [w])]
  {
    var rows := RowsOf(Columns([t0, t1, t2], [[u, v, w]]));
    assert rows[0].values == [u] && rows[1].values == [v] && rows[2].values == [w];
  }

  /** Two readings twenty minutes apart: the lists hold the readings and
      then the sentinel, and the frame, once sorted, reads the first
      reading, the sentinel ten minutes later, then the second reading. */
  lemma TwentyMinuteGapFrame<V>(names: seq<string>, t0: Time, x: V, y: V)
    ensures var minute := 60 * NanosPerSecond;
      FrameOf(names, Ingest(1, [Record(t0, [x]), Record(t0 + 20 * minute, [y])])).rows
      == [Row(t0, [Some(x)]), Row(t0 + 10 * minute, [None]), Row(t0 + 20 * minute, [Some(y)])]
  {
    var minute := 60 * NanosPerSecond;
    TwentyMinuteGap(t0, x, y);
    RowsOfThree(t0, t0 + 20 * minute, t0 + 10 * minute, Some(x), Some(y), None);
    SortThreeBy(Row(t0, [Some(x)]), Row(t0 + 20 * minute, [Some(y)]), Row(t0 + 10 * minute, [None]), RowTime);
  }

  /** The column names of the frame of a data type. */
  function ColumnNames(t: DataType, channel: string): seq<string>
  {
    match t
    case Maxigauge => MaxigaugeColumns
    case Status => StatusColumns
    case Flowmeter => ["Flowmeter"]
    case Temperature => [channel]
  }

  function ChannelFrame<V>(t: DataType, root: string, channel: string, days: seq<DateFolder>,
                           files: map<string, seq<string>>, num: string -> Option<V>): Result<Frame<V>>
  {
    match ChannelSpec(t, root, channel, days, files, num)
    case Err(e) => Err(e)
    case Ok(a) => Ok(FrameOf(ColumnNames(t, channel), a))
  }

  /** One frame per temperature channel, in channel order; each channel is
      accumulated from empty lists with its own first-record flag. */
  function TemperatureFrames<V>(root: string, channels: seq<string>, days: seq<DateFolder>,
                                files: map<string, seq<string>>, num: string -> Option<V>): (r: Result<seq<Frame<V>>>)
    ensures r.Ok? ==> |r.value| == |channels|
  {
    if channels == [] then Ok([])
    else
      match TemperatureFrames(root, channels[..|channels| - 1], days, files, num)
      case Err(e) => Err(e)
      case Ok(fs) =>
        match ChannelFrame(Temperature, root, channels[|channels| - 1], days, files, num)
        case Err(e) => Err(e)
        case Ok(f) => Ok(fs + [f])
  }

  /** Once a channel aborts, no later channel is read. */
  lemma {:induction false} TemperatureFramesErrPrefix<V>(root: string, channels: seq<string>, k: nat, days: seq<DateFolder>,
                                                         files: map<string, seq<string>>, num: string -> Option<V>)
    requires k <= |channels| && TemperatureFrames(root, channels[..k], days, files, num).Err?
    ensures TemperatureFrames(root, channels, days, files, num) == TemperatureFrames(root, channels[..k], days, files, num)
  {
    if k < |channels| {
      var init := channels[..|channels| - 1];
      assert init[..k] == channels[..k];
      TemperatureFramesErrPrefix(root, init, k, days, files, num);
    } else {
      assert channels[..k] == channels;
    }
  }

  /** `log_parsing(log_folder, data_type)` given the folder's entry names
      and its files. */
  function LogParsingSpec<V>(path: string, entries: seq<string>, files: map<string, seq<string>>,
                             tag: string, num: string -> Option<V>): Result<Ingested<V>>
  {
    match NormaliseRoot(path)
    case Err(e) => Err(e)
    case Ok(root) =>
      var days := FolderIndexOf(entries);
      match DataTypeOf(tag)
      case None => Ok(NoTable)
      case Some(t) =>
        if t == Temperature then
          match TemperatureFrames(root, TemperatureChannels, days, files, num)
          case Err(e) => Err(e)
          case Ok(fs) => Ok(Tables(fs))
        else
          match ChannelFrame(t, root, "", days, files, num)
          case Err(e) => Err(e)
          case Ok(f) => Ok(Table(f))
  }

  /** One more channel: the frames so far, then that channel's frame. */
  lemma TemperatureFramesSnoc<V>(root: string, channels: seq<string>, k: nat, days: seq<DateFolder>,
                                 files: map<string, seq<string>>, num: string -> Option<V>)
    requires k < |channels|
    ensures TemperatureFrames(root, channels[..k + 1], days, files, num) ==
      match TemperatureFrames(root, channels[..k], days, files, num)
      case Err(e) => Err(e)
      case Ok(fs) =>
        match ChannelFrame(Temperature, root, channels[k], days, files, num)
        case Err(e) => Err(e)
        case Ok(f) => Ok(fs + [f])
  {
    assert channels[..k + 1][..k] == channels[..k];
  }

  /** One accumulation and its frame (lines 98-101, 194 and 241-244). */
  method AccumulateFrame<V>(t: DataType, root: string, channel: string, days: seq<DateFolder>,
                            files: map<string, seq<string>>, num: string -> Option<V>)
    returns (res: Result<Frame<V>>)
    ensures res == ChannelFrame(t, root, channel, days, files, num)
  {
    var lists := AccumulateChannel(t, root, channel, days, files, num);
    if lists.Err? {
      return Err(lists.failure);
    }
    return Ok(FrameOf(ColumnNames(t, channel), lists.value));
  }

  /** Lines 202-244: the four temperature channels in turn, each with its
      own lists and its own first-record flag. */
  method AccumulateTemperatures<V>(root: string, days: seq<DateFolder>, files: map<string, seq<string>>,
                                   num: string -> Option<V>)
    returns (res: Result<seq<Frame<V>>>)
    ensures res == TemperatureFrames(root, TemperatureChannels, days, files, num)
  {
    var channels := TemperatureChannels;
    var frames: seq<Frame<V>> := [];
    var idx := 0;
    while idx < |channels|
      invariant 0 <= idx <= |channels|
      invariant TemperatureFrames(root, channels[..idx], days, files, num) == Ok(frames)
    {
      TemperatureFramesSnoc(root, channels, idx, days, files, num);
      var frame := AccumulateFrame(Temperature, root, channels[idx], days, files, num);
      if frame.Err? {
        TemperatureFramesErrPrefix(root, channels, idx + 1, days, files, num);
        return Err(frame.failure);
      }
      frames := frames + [frame.value];
      idx := idx + 1;
    }
    assert channels[..idx] == channels;
    return Ok(frames);
  }

  /** `log_parsing`: normalise the root, index the day folders, then run
      the accumulation of the requested type (four times, one per channel,
      for temperatures). */
  method LogParsing<V>(path: string, entries: seq<string>, files: map<string, seq<string>>,
                       tag: string, num: string -> Option<V>)
    returns (res: Result<Ingested<V>>)
    ensures res == LogParsingSpec(path, entries, files, tag, num)
  {
    var root := NormaliseRoot(path);
    if root.Err? {
      return Err(root.failure);
    }
    var days := ListDateFolders(entries);
    var kind := DataTypeOf(tag);
    if kind.None? {
      return Ok(NoTable);
    }
    var t := kind.value;
    if t == Temperature {
      var frames := AccumulateTemperatures(root.value, days, files, num);
      return match frames case Err(e) => Err(e) case Ok(fs) => Ok(Tables(fs));
    }
    var frame := AccumulateFrame(t, root.value, "", days, files, num);
    return match frame case Err(e) => Err(e) case Ok(f) => Ok(Table(f));
  }
}
