/** The four log formats: file naming, column names and the field layout
    each one reads a record from. */
module Formats {
  import opened Common
  import opened Text
  import opened Calendar

  /** The closed set of data types `log_parsing` understands. */
  datatype DataType = Maxigauge | Status | Flowmeter | Temperature

  /** The `data_type` tag, compared exactly; any other tag selects no
      branch of `log_parsing`, which then returns `None`. */
  function DataTypeOf(tag: string): (r: Option<DataType>)
    ensures r == Some(Maxigauge) <==> tag == "maxigauge"
    ensures r == Some(Status) <==> tag == "Status"
    ensures r == Some(Flowmeter) <==> tag == "Flowmeter"
    ensures r == Some(Temperature) <==> tag == "Temperature"
  {
    if tag == "maxigauge" then Some(Maxigauge)
    else if tag == "Status" then Some(Status)
    else if tag == "Flowmeter" then Some(Flowmeter)
    else if tag == "Temperature" then Some(Temperature)
    else None
  }

  const MaxigaugeColumns: seq<string> := ["CH1", "CH2", "CH3", "CH4", "CH5", "CH6"]

  const StatusColumns: seq<string> :=
    ["nxdsf", "nxdsct", "nxdst", "nxdsbs", "nxdstrs", "tc400errorcode", "tc400ovtempelec",
     "tc400ovtemppump", "tc400setspdatt", "tc400pumpaccel", "tc400commerr", "ctrl_pres",
     "cpastate", "cparun", "cpawarn", "cpaerr", "cpatempwi", "cpatempwo", "cpatempo", "cpatemph",
     "cpalp", "cpalpa", "cpahp", "cpahpa", "cpadp", "cpacurrent", "cpahours", "cpapscale",
     "cpatscale", "cpasn", "cpamodel"]

  /** The temperature channels, one file per channel and day. */
  const TemperatureChannels: seq<string> := ["CH1", "CH2", "CH5", "CH6"]

  /** A `Status` line is accepted only with exactly this many fields. */
  const StatusFieldCount: nat := 64

  /** The field index each channel's value is read from, in column order. */
  function ValueFields(t: DataType): seq<nat>
  {
    match t
    case Maxigauge => [5, 11, 17, 23, 29, 35]
    case Status => seq(31, i => 3 + 2 * i)
    case Flowmeter => [2]
    case Temperature => [2]
  }

  /** The number of value columns of a record of each type. */
  function ChannelCount(t: DataType): nat
  {
    match t
    case Maxigauge => 6
    case Status => 31
    case Flowmeter => 1
    case Temperature => 1
  }

  /** The layout agrees with the column names, and every index a `Status`
      record reads lies inside its 64 fields. */
  lemma LayoutShape(t: DataType)
    ensures |ValueFields(t)| == ChannelCount(t) >= 1
    ensures t == Maxigauge ==> |MaxigaugeColumns| == ChannelCount(t)
    ensures t == Status ==> |StatusColumns| == ChannelCount(t)
    ensures t == Status ==> forall i :: 0 <= i < 31 ==> ValueFields(t)[i] == 3 + 2 * i < StatusFieldCount
  {
  }

  /** The file a day folder holds for a data type (and, for temperatures,
      a channel).  `root` already ends in `/`, so the temperature path has
      a doubled separator, as `log_parsing` builds it. */
  function LogPath(root: string, t: DataType, day: string, channel: string): string
  {
    match t
    case Maxigauge => root + day + "/maxigauge " + day + ".log"
    case Status => root + day + "/Status_" + day + ".log"
    case Flowmeter => root + day + "/Flowmeter " + day + ".log"
    case Temperature => root + "/log-data/192.168.109.188/" + day + "/" + channel + " T " + day + ".log"
  }

  /** Every log file name starts with the root, then (for temperatures,
      after the fixed `/log-data/192.168.109.188/` directory) the day
      folder, and ends in the day's name followed by `.log`. */
  lemma LogPathShape(root: string, t: DataType, day: string, channel: string)
    ensures var path := LogPath(root, t, day, channel);
      && (t != Temperature ==> root + day + "/" <= path)
      && (t == Temperature ==> root + "/log-data/192.168.109.188/" + day + "/" <= path)
      && exists middle :: path == root + middle + day + ".log"
  {
    var path := LogPath(root, t, day, channel);
    match t
    case Maxigauge =>
      assert path == root + (day + "/maxigauge ") + day + ".log";
    case Status =>
      assert path == root + (day + "/Status_") + day + ".log";
    case Flowmeter =>
      assert path == root + (day + "/Flowmeter ") + day + ".log";
    case Temperature =>
      assert path == root + ("/log-data/192.168.109.188/" + day + "/" + channel + " T ") + day + ".log";
  }

  /** One real reading: its instant and one value per channel. */
  datatype Record<V> = Record(time: Time, values: seq<V>)

  /** What one log line contributes. */
  datatype LineOutcome<V> = Parsed(record: Record<V>) | Skipped | Aborted(failure: Failure)

  /** The timestamp text: the date and time fields with their spaces
      removed, joined by one space. */
  function TimestampText(date: string, clock: string): string
  {
    Remove(date, ' ') + " " + Remove(clock, ' ')
  }

  /** Reading stops at index `i` with `e`: every earlier value field
      exists and converts, and field `idxs[i]` is missing (`FieldMissing`)
      or does not convert (`BadNumber`). */
  predicate FirstFailureAt<V>(fields: seq<string>, idxs: seq<nat>, conv: string -> Option<V>, i: nat, e: Failure)
    requires i < |idxs|
  {
    && (forall j :: 0 <= j < i ==> idxs[j] < |fields| && conv(fields[idxs[j]]).Some?)
    && (if idxs[i] >= |fields| then e == FieldMissing else conv(fields[idxs[i]]).None? && e == BadNumber)
  }

  /** A failure in the values after the first carries over, one index on,
      when the first value reads. */
  lemma FirstFailureShift<V>(fields: seq<string>, idxs: seq<nat>, conv: string -> Option<V>, k: nat, e: Failure)
    requires 0 < |idxs| && idxs[0] < |fields| && conv(fields[idxs[0]]).Some?
    requires k < |idxs[1..]| && FirstFailureAt(fields, idxs[1..], conv, k, e)
    ensures FirstFailureAt(fields, idxs, conv, k + 1, e)
  {
    assert forall j :: 1 <= j < k + 1 ==> idxs[j] == idxs[1..][j - 1];
    assert idxs[k + 1] == idxs[1..][k];
  }

  /** The values at the given field indices, converted left to right; the
      first index past the end or the first refused conversion stops it. */
  function ReadValues<V>(fields: seq<string>, idxs: seq<nat>, conv: string -> Option<V>): (r: Result<seq<V>>)
    ensures r.Ok? <==> forall i :: 0 <= i < |idxs| ==> idxs[i] < |fields| && conv(fields[idxs[i]]).Some?
    ensures r.Ok? ==> (|r.value| == |idxs|
      && forall i :: 0 <= i < |idxs| ==> idxs[i] < |fields| && conv(fields[idxs[i]]) == Some(r.value[i]))
    ensures r.Err? ==> r.failure == FieldMissing || r.failure == BadNumber
    ensures (forall i :: 0 <= i < |idxs| ==> idxs[i] < |fields|) && r.Err? ==> r.failure == BadNumber
    ensures r.Err? ==> exists i :: 0 <= i < |idxs| && FirstFailureAt(fields, idxs, conv, i, r.failure)
  {
    if idxs == [] then Ok([])
    else if idxs[0] >= |fields| then assert FirstFailureAt(fields, idxs, conv, 0, FieldMissing); Err(FieldMissing)
    else
      match conv(fields[idxs[0]])
      case None => assert FirstFailureAt(fields, idxs, conv, 0, BadNumber); Err(BadNumber)
      case Some(v) =>
        match ReadValues(fields, idxs[1..], conv)
        case Err(e) =>
          var k :| 0 <= k < |idxs[1..]| && FirstFailureAt(fields, idxs[1..], conv, k, e);
          FirstFailureShift(fields, idxs, conv, k, e);
          Err(e)
        case Ok(vs) =>
          assert forall i :: 1 <= i < |idxs| ==> idxs[i] == idxs[1..][i - 1];
          Ok([v] + vs)
  }

  /** A record from split fields: the timestamp from fields 0 and 1, then
      the values. */
  function ReadRecord<V>(fields: seq<string>, idxs: seq<nat>, conv: string -> Option<V>): (r: LineOutcome<V>)
    ensures !r.Skipped?
    ensures r.Parsed? <==> (|fields| >= 2 && ParseTimestamp(TimestampText(fields[0], fields[1])).Some?
      && ReadValues(fields, idxs, conv).Ok?)
    ensures r.Parsed? ==> (Some(r.record.time) == ParseTimestamp(TimestampText(fields[0], fields[1]))
      && r.record.values == ReadValues(fields, idxs, conv).value)
  {
    if |fields| < 2 then Aborted(FieldMissing)
    else
      match ParseTimestamp(TimestampText(fields[0], fields[1]))
      case None => Aborted(BadTimestamp)
      case Some(time) =>
        match ReadValues(fields, idxs, conv)
        case Err(e) => Aborted(e)
        case Ok(vs) => Parsed(Record(time, vs))
  }

  /** The fields a format splits a line into: `Status` and `Temperature`
      drop the line's newline first, the other two split it as read. */
  function Fields(t: DataType, line: string): seq<string>
  {
    match t
    case Maxigauge => Split(line, ',')
    case Status => Split(Remove(line, '\n'), ',')
    case Flowmeter => Split(line, ',')
    case Temperature => Split(Remove(line, '\n'), ',')
  }

  /** The text handed to `float` for a value field: `Flowmeter` drops the
      newline from its value field, the others pass the field as it is. */
  function ValueText(t: DataType, field: string): string
  {
    if t == Flowmeter then Remove(field, '\n') else field
  }

  /** What one line of a log file of type `t` contributes, with `num` the
      (fallible) conversion `float` performs. */
  function ParseLine<V>(t: DataType, line: string, num: string -> Option<V>): (r: LineOutcome<V>)
    ensures r.Skipped? <==> t == Status && 2 <= |Fields(t, line)| && |Fields(t, line)| != StatusFieldCount
    ensures r.Parsed? ==> |r.record.values| == ChannelCount(t)
    ensures t == Status && |Fields(t, line)| == StatusFieldCount ==> r != Aborted(FieldMissing)
  {
    var fields := Fields(t, line);
    if t == Status && |fields| >= 2 && |fields| != StatusFieldCount then Skipped
    else
      var conv := s => num(ValueText(t, s));
      var r := ReadRecord(fields, ValueFields(t), conv);
      LayoutShape(t);
      assert r.Parsed? ==> |r.record.values| == |ValueFields(t)|;
      assert t == Status && |fields| == StatusFieldCount ==> forall i :: 0 <= i < |ValueFields(t)| ==> ValueFields(t)[i] < |fields|;
      r
  }

  /** A parsed line's record is exactly what its fields say: the timestamp
      of fields 0 and 1 and, for each channel, the conversion of the field
      at that channel's index. */
  lemma ParseLineRecord<V>(t: DataType, line: string, num: string -> Option<V>)
    requires ParseLine(t, line, num).Parsed?
    ensures var f, r := Fields(t, line), ParseLine(t, line, num).record;
      |f| >= 2 && Some(r.time) == ParseTimestamp(TimestampText(f[0], f[1]))
      && |r.values| == |ValueFields(t)|
      && forall i :: 0 <= i < |r.values| ==>
           ValueFields(t)[i] < |f| && num(ValueText(t, f[ValueFields(t)[i]])) == Some(r.values[i])
  {
    var f := Fields(t, line);
    var conv := s => num(ValueText(t, s));
    assert ParseLine(t, line, num) == ReadRecord(f, ValueFields(t), conv);
    assert ReadValues(f, ValueFields(t), conv).Ok?;
  }

  /** A line is parsed exactly when it is not a skipped `Status` line, its
      first two fields give a timestamp and every value field of its
      format exists and converts; any other line aborts. */
  lemma ParseLineParsed<V>(t: DataType, line: string, num: string -> Option<V>)
    ensures var f := Fields(t, line);
      ParseLine(t, line, num).Parsed? <==>
        && |f| >= 2
        && !(t == Status && |f| != StatusFieldCount)
        && ParseTimestamp(TimestampText(f[0], f[1])).Some?
        && forall i :: 0 <= i < |ValueFields(t)| ==>
             ValueFields(t)[i] < |f| && num(ValueText(t, f[ValueFields(t)[i]])).Some?
  {
    var f := Fields(t, line);
    var conv := s => num(ValueText(t, s));
    if !(t == Status && |f| >= 2 && |f| != StatusFieldCount) {
      assert ParseLine(t, line, num) == ReadRecord(f, ValueFields(t), conv);
    }
  }

  /** A `Status` line is checked for its field count before anything else
      but its first two fields is looked at: with comma count other than 63
      it is skipped, whatever its contents. */
  lemma StatusFieldCountRule<V>(line: string, num: string -> Option<V>)
    requires Occurrences(Remove(line, '\n'), ',') >= 1
    ensures ParseLine(Status, line, num).Skipped? <==> Occurrences(Remove(line, '\n'), ',') != 63
  {
    SplitCount(Remove(line, '\n'), ',');
  }

  /** A line of a single-value log (`Flowmeter`, `Temperature`): the date,
      the time and the value, comma-separated, ending in a newline. */
  function SingleValueLine(d: DateTime, value: string): string
    requires ValidDateTime(d)
  {
    FormatDayMonthYear(d.date) + "," + FormatClock(d.hour, d.minute, d.second) + "," + value + "\n"
  }

  /** The fields of a single-value line: the date, the time and the
      value (`Flowmeter` keeps the newline on it). */
  lemma SingleValueFields(t: DataType, d: DateTime, value: string)
    requires t == Flowmeter || t == Temperature
    requires ValidDateTime(d) && ',' !in value && '\n' !in value
    ensures var a, b := FormatDayMonthYear(d.date), FormatClock(d.hour, d.minute, d.second);
      Fields(t, SingleValueLine(d, value)) == [a, b, if t == Flowmeter then value + "\n" else value]
  {
    var a, b := FormatDayMonthYear(d.date), FormatClock(d.hour, d.minute, d.second);
    TimestampHalvesShape(d);
    var line := SingleValueLine(d, value);
    var body := a + "," + b + "," + value;
    assert line == body + "\n";
    if t == Flowmeter {
      JoinThree(a, b, value + "\n", ',');
      assert line == a + [','] + b + [','] + (value + "\n");
      assert ',' !in value + "\n";
      SplitJoin([a, b, value + "\n"], ',');
      assert Fields(t, line) == Split(line, ',');
    } else {
      RemoveAppend(body, "\n", '\n');
      assert Remove(body, '\n') == body by {
        forall x | x in body ensures x != '\n' {
          assert x in a + "," + b + "," || x in value;
        }
      }
      JoinThree(a, b, value, ',');
      assert body == a + [','] + b + [','] + value;
      SplitJoin([a, b, value], ',');
      assert Remove(line, '\n') == body + Remove("\n", '\n');
      assert Remove("\n", '\n') == [];
      assert Remove(line, '\n') == body;
      assert Fields(t, line) == Split(body, ',');
    }
  }

  /** A well-formed single-value line reads as its instant and the
      conversion of its value text; a value `float` refuses aborts. */
  lemma SingleValueLineReads<V>(t: DataType, d: DateTime, value: string, num: string -> Option<V>)
    requires t == Flowmeter || t == Temperature
    requires ValidDateTime(d) && ',' !in value && '\n' !in value
    ensures ParseLine(t, SingleValueLine(d, value), num) ==
      match num(value)
      case Some(v) => Parsed(Record(TimeOf(d), [v]))
      case None => Aborted(BadNumber)
  {
    var fields := Fields(t, SingleValueLine(d, value));
    SingleValueFields(t, d, value);
    TimestampHalvesShape(d);
    if t == Flowmeter {
      RemoveAppend(value, "\n", '\n');
    }
    assert ValueText(t, fields[2]) == value;
    assert TimestampText(fields[0], fields[1]) == FormatDateTime(d);
    ParseFormatDateTime(d);
    assert ValueFields(t) == [2];
  }
}
