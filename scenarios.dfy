/** A worked ingestion, end to end: one day folder `24-01-01` holding a
    `Flowmeter` log of two readings twenty minutes apart. */
module Scenarios {
  import opened Common
  import opened Text
  import opened Calendar
  import opened FolderIndex
  import opened Formats
  import opened GapFill
  import opened Assemble

  const FlowmeterFile: string := "log/24-01-01/Flowmeter 24-01-01.log"
  const FirstLine: string := "24-01-01,10:00:00,1.5\n"
  const SecondLine: string := "24-01-01,10:20:00,2.0\n"

  /** The lines' date field is read day-first (`%d-%m-%y`), so `24-01-01`
      in a line is the 24th of January 2001, whatever the folder says. */
  const FirstReading: DateTime := DateTime(Date(2001, 1, 24), 10, 0, 0)
  const SecondReading: DateTime := DateTime(Date(2001, 1, 24), 10, 20, 0)

  lemma RootIsNormal()
    ensures NormaliseRoot("log/") == Ok("log/")
  {
    StripUnchanged("log/");
  }

  lemma OneDayFolder()
    ensures FolderIndexOf(["24-01-01"]) == [DateFolder("24-01-01", Date(2024, 1, 1))]
  {
    var names := ["24-01-01"];
    assert ParseDate("24-01-01") == Some(Date(2024, 1, 1));
    assert names[..0] == [];
    assert DatedEntries(names) == [DateFolder("24-01-01", Date(2024, 1, 1))];
  }

  /** The two readings are real dates and times; kept apart from the line
      texts so that the calendar arithmetic is proved on its own. */
  lemma ReadingsValid()
    ensures ValidDateTime(FirstReading) && ValidDateTime(SecondReading)
  {
    assert DaysInMonth(2001, 1) == 31;
  }

  lemma LinesAreWellFormed()
    ensures ValidDateTime(FirstReading) && ValidDateTime(SecondReading)
    ensures FirstLine == SingleValueLine(FirstReading, "1.5")
    ensures SecondLine == SingleValueLine(SecondReading, "2.0")
  {
    ReadingsValid();
    var date := FormatDayMonthYear(Date(2001, 1, 24));
    assert date == "24-01-01" by {
      assert Pad2(24) == "24" && Pad2(1) == "01";
    }
    assert FormatClock(10, 0, 0) == "10:00:00" by {
      assert Pad2(10) == "10" && Pad2(0) == "00";
    }
    assert FormatClock(10, 20, 0) == "10:20:00" by {
      assert Pad2(10) == "10" && Pad2(20) == "20" && Pad2(0) == "00";
    }
  }

  lemma ReadingsTwentyMinutesApart()
    ensures TimeOf(SecondReading) == TimeOf(FirstReading) + 20 * (60 * NanosPerSecond)
  {
  }

  /** A line known to be a well-formed single-value line reads as its
      record. */
  lemma LineReads<V>(line: string, d: DateTime, value: string, num: string -> Option<V>, v: V)
    requires ValidDateTime(d) && ',' !in value && '\n' !in value && num(value) == Some(v)
    requires line == SingleValueLine(d, value)
    ensures ParseLine(Flowmeter, line, num) == Parsed(Record(TimeOf(d), [v]))
  {
    SingleValueLineReads(Flowmeter, d, value, num);
  }

  lemma LinesRead<V>(num: string -> Option<V>, x: V, y: V)
    requires num("1.5") == Some(x) && num("2.0") == Some(y)
    ensures ParseLine(Flowmeter, FirstLine, num) == Parsed(Record(TimeOf(FirstReading), [x]))
    ensures ParseLine(Flowmeter, SecondLine, num) == Parsed(Record(TimeOf(SecondReading), [y]))
  {
    LinesAreWellFormed();
    assert ',' !in "1.5" && '\n' !in "1.5" && ',' !in "2.0" && '\n' !in "2.0";
    LineReads(FirstLine, FirstReading, "1.5", num, x);
    LineReads(SecondLine, SecondReading, "2.0", num, y);
  }

  /** Two lines that each parse give their two records. */
  lemma CollectTwo<V>(l1: string, l2: string, parse: string -> LineOutcome<V>, r1: Record<V>, r2: Record<V>)
    requires parse(l1) == Parsed(r1) && parse(l2) == Parsed(r2)
    ensures Collect([l1, l2], parse) == Ok([r1, r2])
  {
    var one, two := [l1], [l1, l2];
    assert one[..0] == [] && one[0] == l1;
    assert Collect(one[..0], parse) == Ok([]);
    assert [] + [r1] == [r1];
    assert Collect(one, parse) == Ok([r1]);
    assert two[..1] == one && two[1] == l2;
    assert Collect(two, parse) == Ok([r1] + [r2]);
    assert [r1] + [r2] == [r1, r2];
  }

  /** The file's two lines give the two readings. */
  lemma FileRecords<V>(lines: seq<string>, num: string -> Option<V>, x: V, y: V)
    requires lines == [FirstLine, SecondLine]
    requires num("1.5") == Some(x) && num("2.0") == Some(y)
    ensures LinesRecords(Flowmeter, lines, num)
      == Ok([Record(TimeOf(FirstReading), [x]), Record(TimeOf(FirstReading) + 20 * (60 * NanosPerSecond), [y])])
  {
    LinesRead(num, x, y);
    ReadingsTwentyMinutesApart();
    var parse := LineParser(Flowmeter, num);
    CollectTwo(FirstLine, SecondLine, parse, Record(TimeOf(FirstReading), [x]), Record(TimeOf(SecondReading), [y]));
    assert LinesRecords(Flowmeter, lines, num) == Collect(lines, parse);
  }

  lemma FlowmeterPath()
    ensures LogPath("log/", Flowmeter, "24-01-01", "") == FlowmeterFile
  {
  }

  /** A single day whose file gives the records `recs`. */
  lemma OneDayRecords<V>(t: DataType, root: string, day: DateFolder, files: map<string, seq<string>>,
                         num: string -> Option<V>, recs: seq<Record<V>>)
    requires LogPath(root, t, day.name, "") in files
    requires LinesRecords(t, files[LogPath(root, t, day.name, "")], num) == Ok(recs)
    ensures DayRecords(t, root, "", [day], files, num) == Ok(recs)
  {
    assert [day][..0] == [];
    assert [] + recs == recs;
  }

  /** Everything up to the frame, for a root, one day and a data type
      other than the temperatures. */
  lemma OneDayFrame<V>(path: string, entries: seq<string>, files: map<string, seq<string>>, tag: string,
                       num: string -> Option<V>, t: DataType, day: DateFolder, recs: seq<Record<V>>)
    requires NormaliseRoot(path) == Ok(path) && FolderIndexOf(entries) == [day]
    requires DataTypeOf(tag) == Some(t) && t != Temperature
    requires DayRecords(t, path, "", [day], files, num) == Ok(recs)
    ensures LogParsingSpec(path, entries, files, tag, num) == Ok(Table(FrameOf(ColumnNames(t, ""), Ingest(ChannelCount(t), recs))))
  {
  }

  /** One day folder whose single-value file holds two readings twenty
      minutes apart gives a three-row frame: the first reading, a
      sentinel ten minutes later, then the second reading. */
  lemma OneDayTwoReadings<V>(path: string, entries: seq<string>, files: map<string, seq<string>>, tag: string,
                             num: string -> Option<V>, day: DateFolder, t0: Time, x: V, y: V)
    requires NormaliseRoot(path) == Ok(path) && FolderIndexOf(entries) == [day] && DataTypeOf(tag) == Some(Flowmeter)
    requires LogPath(path, Flowmeter, day.name, "") in files
    requires LinesRecords(Flowmeter, files[LogPath(path, Flowmeter, day.name, "")], num)
      == Ok([Record(t0, [x]), Record(t0 + 20 * (60 * NanosPerSecond), [y])])
    ensures var minute := 60 * NanosPerSecond;
      LogParsingSpec(path, entries, files, tag, num)
      == Ok(Table(Frame(["Flowmeter"], [Row(t0, [Some(x)]), Row(t0 + 10 * minute, [None]), Row(t0 + 20 * minute, [Some(y)])])))
  {
    var recs := [Record(t0, [x]), Record(t0 + 20 * (60 * NanosPerSecond), [y])];
    OneDayRecords(Flowmeter, path, day, files, num, recs);
    OneDayFrame(path, entries, files, tag, num, Flowmeter, day, recs);
    TwentyMinuteGapFrame(["Flowmeter"], t0, x, y);
  }

  /** The folder's `Flowmeter` file exists and gives the two readings. */
  lemma FlowmeterFileRecords<V>(path: string, files: map<string, seq<string>>, num: string -> Option<V>, x: V, y: V)
    requires path == "log/" && files == map[FlowmeterFile := [FirstLine, SecondLine]]
    requires num("1.5") == Some(x) && num("2.0") == Some(y)
    ensures LogPath(path, Flowmeter, "24-01-01", "") in files
    ensures LinesRecords(Flowmeter, files[LogPath(path, Flowmeter, "24-01-01", "")], num)
      == Ok([Record(TimeOf(FirstReading), [x]), Record(TimeOf(FirstReading) + 20 * (60 * NanosPerSecond), [y])])
  {
    FlowmeterPath();
    FileRecords(files[LogPath(path, Flowmeter, "24-01-01", "")], num, x, y);
  }
}
