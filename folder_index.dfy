/** The index of day folders: the root path is normalised, the directory
    entries whose names read as `YY-MM-DD` are kept with their dates, and
    the kept entries are ordered by date. */
module FolderIndex {
  import opened Common
  import opened Text
  import opened Calendar
  import opened Sorting

  /** A day folder: its directory name and the day that name denotes. */
  datatype DateFolder = DateFolder(name: string, date: Date)

  /** `log_folder.strip()`, then a `/` is added unless it already ends in
      one.  An empty path fails on `log_folder[-1]`. */
  function NormaliseRoot(path: string): (r: Result<string>)
    ensures r.Err? <==> Strip(path) == []
    ensures r.Err? ==> r.failure == EmptyRootPath
    ensures r.Ok? ==> |r.value| >= 1 && r.value[|r.value| - 1] == '/'
    ensures r.Ok? ==> |Strip(path)| <= |r.value| <= |Strip(path)| + 1 && r.value[..|Strip(path)|] == Strip(path)
    ensures r.Ok? && Strip(path)[|Strip(path)| - 1] == '/' ==> r.value == Strip(path)
  {
    var p := Strip(path);
    if p == [] then Err(EmptyRootPath)
    else if p[|p| - 1] != '/' then Ok(p + "/")
    else Ok(p)
  }

  /** Normalising an already normalised root changes nothing. */
  lemma NormaliseRootIdempotent(path: string)
    requires NormaliseRoot(path).Ok?
    ensures NormaliseRoot(NormaliseRoot(path).value) == NormaliseRoot(path)
  {
    var p := Strip(path);
    var q := NormaliseRoot(path).value;
    StripInfix(path);
    assert q[0] == p[0];
    StripUnchanged(q);
  }

  /** The entries kept by the filter loop, in listing order. */
  function DatedEntries(names: seq<string>): seq<DateFolder>
  {
    if names == [] then []
    else
      var last := names[|names| - 1];
      DatedEntries(names[..|names| - 1])
      + match ParseDate(last) { case Some(d) => [DateFolder(last, d)] case None => [] }
  }

  /** The sort key: the day number of the folder's date. */
  function FolderKey(f: DateFolder): int
  {
    if ValidDate(f.date) then DayNumber(f.date) else 0
  }

  /** An entry is kept exactly when its name parses, with the parsed date. */
  lemma {:induction false} DatedEntriesMembers(names: seq<string>, f: DateFolder)
    ensures f in DatedEntries(names) <==> f.name in names && ParseDate(f.name) == Some(f.date)
  {
    if names != [] {
      var init := names[..|names| - 1];
      DatedEntriesMembers(init, f);
      assert names == init + [names[|names| - 1]];
    }
  }

  ghost predicate Distinct<T>(s: seq<T>)
  {
    forall i, j :: 0 <= i < j < |s| ==> s[i] != s[j]
  }

  lemma {:induction false} DatedEntriesDistinct(names: seq<string>)
    requires Distinct(names)
    ensures Distinct(DatedEntries(names))
  {
    if names != [] {
      var init := names[..|names| - 1];
      var last := names[|names| - 1];
      DatedEntriesDistinct(init);
      forall f | f in DatedEntries(init) ensures f.name != last {
        DatedEntriesMembers(init, f);
      }
    }
  }

  lemma {:induction false} DistinctCounts<T>(s: seq<T>, x: T)
    requires Distinct(s)
    ensures multiset(s)[x] <= 1
  {
    if s != [] {
      assert s == [s[0]] + s[1..];
      DistinctCounts(s[1..], x);
      if x == s[0] {
        assert x !in s[1..];
      }
    }
  }

  lemma DistinctPermutation<T>(a: seq<T>, b: seq<T>)
    requires Distinct(a) && multiset(a) == multiset(b)
    ensures Distinct(b)
  {
    forall i, j | 0 <= i < j < |b| ensures b[i] != b[j] {
      if b[i] == b[j] {
        assert b == b[..j] + [b[j]] + b[j + 1..];
        assert b[i] in b[..j];
        assert multiset(b)[b[j]] >= 2;
        DistinctCounts(a, b[j]);
        assert false;
      }
    }
  }

  lemma DateBeforeTotal(a: Date, b: Date)
    ensures a == b || DateBefore(a, b) || DateBefore(b, a)
  {
  }

  /** The folder index of `log_parsing`: the dated entries ordered by day. */
  function FolderIndexOf(names: seq<string>): seq<DateFolder>
  {
    SortBy(DatedEntries(names), FolderKey)
  }

  /** The index holds exactly the entries whose names parse, with their
      dates, ordered by date; when the listing has no repeated names (as a
      directory listing does not) the dates are strictly increasing. */
  lemma FolderIndexCorrect(names: seq<string>)
    ensures forall f :: f in FolderIndexOf(names) <==> f.name in names && ParseDate(f.name) == Some(f.date)
    ensures forall i, j :: 0 <= i < j < |FolderIndexOf(names)| ==>
      !DateBefore(FolderIndexOf(names)[j].date, FolderIndexOf(names)[i].date)
    ensures Distinct(names) ==> forall i, j :: 0 <= i < j < |FolderIndexOf(names)| ==>
      DateBefore(FolderIndexOf(names)[i].date, FolderIndexOf(names)[j].date)
  {
    var e := DatedEntries(names);
    var idx := FolderIndexOf(names);
    forall f ensures f in idx <==> f.name in names && ParseDate(f.name) == Some(f.date) {
      DatedEntriesMembers(names, f);
      assert f in idx <==> f in multiset(idx);
    }
    forall i, j | 0 <= i < j < |idx| ensures !DateBefore(idx[j].date, idx[i].date) {
      assert idx[i] in idx && idx[j] in idx;
      if DateBefore(idx[j].date, idx[i].date) {
        DayNumberMonotone(idx[j].date, idx[i].date);
      }
    }
    if Distinct(names) {
      DatedEntriesDistinct(names);
      DistinctPermutation(e, idx);
      forall i, j | 0 <= i < j < |idx| ensures DateBefore(idx[i].date, idx[j].date) {
        assert idx[i] in idx && idx[j] in idx;
        DateBeforeTotal(idx[i].date, idx[j].date);
        if idx[i].date == idx[j].date {
          FormatParseDate(idx[i].name);
          FormatParseDate(idx[j].name);
        }
      }
    }
  }

  /** Lines 35-48: the filter loop over the listing, then the sort. */
  method ListDateFolders(names: seq<string>) returns (index: seq<DateFolder>)
    ensures index == FolderIndexOf(names)
  {
    var kept: seq<DateFolder> := [];
    var i := 0;
    while i < |names|
      invariant 0 <= i <= |names|
      invariant kept == DatedEntries(names[..i])
    {
      var folder := names[i];
      assert names[..i + 1][..i] == names[..i];
      match ParseDate(folder) {
        case Some(d) => kept := kept + [DateFolder(folder, d)];
        case None =>
      }
      i := i + 1;
    }
    assert names[..i] == names;
    index := SortBy(kept, FolderKey);
  }
}
