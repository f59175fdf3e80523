/** powerusageparser.py: the SRUMUTIL CSV report filter, the grouping of the
    counter columns by timestamp across report files, their element-wise
    sums, the unit conversion and the by-value ordering of a dictionary. */
module PowerUsageParser {
  import opened Common
  import opened Text
  import opened Utils

  // ---------------------------------------------------------------------
  // open_srumutil_report
  // ---------------------------------------------------------------------

  /** The fields of one report line: the text before its first newline,
      split at commas. */
  function Fields(line: string): seq<string> {
    Split(Split(line, "\n")[0], ",")
  }

  function AllFields(lines: seq<string>): seq<seq<string>> {
    seq(|lines|, i requires 0 <= i < |lines| => Fields(lines[i]))
  }

  /** The text handed to `strptime` for a timestamp field: leading spaces
      removed, then everything from the first `.` on dropped. */
  function StampText(field: string): string {
    Split(LStripChar(field, ' '), ".")[0]
  }

  /** The conversion the report applies to a timestamp field: `epoch`
      (`strptime` followed by `mktime`) of the field's stamp text. */
  function FieldTime(epoch: string -> Option<int>): string -> Option<int> {
    field => epoch(StampText(field))
  }

  /** `application in name or name in application`. */
  predicate AppMatches(application: string, name: string) {
    Contains(name, application) || Contains(application, name)
  }

  /** A kept row, `row[:2] + [utc_tstamp] + row[3:]`: the first two fields,
      the integer timestamp that replaces field 2, and the fields after it. */
  datatype KeptRow = KeptRow(head: seq<string>, stamp: int, tail: seq<string>)

  datatype SrumReport = SrumReport(header: seq<string>, rows: seq<KeptRow>)

  function OptionToSeq<T>(o: Option<T>): seq<T> {
    if o.Some? then [o.value] else []
  }

  /** What the filter loop does with one data row. The conversion of the
      timestamp field (`strptime` and `mktime`, local-time dependent) is the
      parameter `stamp`; `None` stands for the ValueError of a malformed
      stamp. */
  function RowStep(row: seq<string>, application: string, stamp: string -> Option<int>, finaltime: int)
    : Result<Option<KeptRow>>
  {
    if |row| < 3 then Err(IndexError)
    else
      match stamp(row[2])
      case None => Err(ValueError)
      case Some(t) =>
        if t < finaltime || !AppMatches(application, row[0]) then Ok(None)
        else Ok(Some(KeptRow(row[..2], t, row[3..])))
  }

  /** The filter loop over the data rows, in order; the first exception
      ends it. */
  function FilterRows(rows: seq<seq<string>>, application: string, stamp: string -> Option<int>, finaltime: int)
    : Result<seq<KeptRow>>
  {
    if |rows| == 0 then Ok([])
    else
      var prev :- FilterRows(rows[..|rows| - 1], application, stamp, finaltime);
      var step :- RowStep(rows[|rows| - 1], application, stamp, finaltime);
      Ok(prev + OptionToSeq(step))
  }

  /** `finaltime`: the converted timestamp of the last data row. */
  function FinalTime(body: seq<seq<string>>, stamp: string -> Option<int>): Result<int> {
    if |body| == 0 then Err(IndexError)
    else
      var last := body[|body| - 1];
      if |last| < 3 then Err(IndexError)
      else
        match stamp(last[2])
        case None => Err(ValueError)
        case Some(t) => Ok(t)
  }

  /** What `open_srumutil_report` returns for the lines of a file: the header
      row and the kept rows, or the exception it raises. */
  function ReportOf(lines: seq<string>, application: string, epoch: string -> Option<int>): Result<SrumReport> {
    var data := AllFields(lines);
    if |data| == 0 then Err(IndexError)
    else
      var finaltime :- FinalTime(data[1..], FieldTime(epoch));
      var kept :- FilterRows(data[1..], application, FieldTime(epoch), finaltime);
      Ok(SrumReport(data[0], kept))
  }

  /** `open_srumutil_report`, over the lines `readlines` gives. */
  method OpenSrumutilReport(lines: seq<string>, application: string, epoch: string -> Option<int>)
    returns (r: Result<SrumReport>)
    ensures r == ReportOf(lines, application, epoch)
  {
    var data := SplitRows(lines);
    if |data| == 0 {
      return Err(IndexError);
    }
    var header := data[0];
    data := data[1..];
    if |data| == 0 || |data[|data| - 1]| < 3 {
      return Err(IndexError);
    }
    var stamp := FieldTime(epoch);
    var ft := stamp(data[|data| - 1][2]);
    if ft.None? {
      return Err(ValueError);
    }
    var kept := FilterData(data, application, stamp, ft.value);
    if kept.Err? {
      return Err(kept.error);
    }
    return Ok(SrumReport(header, kept.value));
  }

  /** The reading loop of `open_srumutil_report`. */
  method SplitRows(lines: seq<string>) returns (data: seq<seq<string>>)
    ensures data == AllFields(lines)
  {
    data := [];
    for i := 0 to |lines|
      invariant data == AllFields(lines[..i])
    {
      data := data + [Fields(lines[i])];
    }
    assert lines[..|lines|] == lines;
  }

  /** The filter loop of `open_srumutil_report`. */
  method FilterData(data: seq<seq<string>>, application: string, stamp: string -> Option<int>, finaltime: int)
    returns (r: Result<seq<KeptRow>>)
    ensures r == FilterRows(data, application, stamp, finaltime)
  {
    var newData: seq<KeptRow> := [];
    for i := 0 to |data|
      invariant FilterRows(data[..i], application, stamp, finaltime) == Ok(newData)
    {
      assert data[..i + 1][..i] == data[..i];
      var row := data[i];
      if |row| < 3 {
        FilterKeepsFirstError(data, i + 1, application, stamp, finaltime);
        return Err(IndexError);
      }
      var t := stamp(row[2]);
      if t.None? {
        FilterKeepsFirstError(data, i + 1, application, stamp, finaltime);
        return Err(ValueError);
      }
      assert FilterRows(data[..i + 1], application, stamp, finaltime)
          == Ok(newData + OptionToSeq(RowStep(row, application, stamp, finaltime).value));
      if t.value < finaltime {
        assert RowStep(row, application, stamp, finaltime) == Ok(None);
        assert newData + [] == newData;
        continue;
      }
      if AppMatches(application, row[0]) {
        assert RowStep(row, application, stamp, finaltime) == Ok(Some(KeptRow(row[..2], t.value, row[3..])));
        newData := newData + [KeptRow(row[..2], t.value, row[3..])];
      } else {
        assert RowStep(row, application, stamp, finaltime) == Ok(None);
        assert newData + [] == newData;
      }
    }
    assert data[..|data|] == data;
    return Ok(newData);
  }

  lemma {:induction false} FilterKeepsFirstError(rows: seq<seq<string>>, i: nat, application: string,
                                                 stamp: string -> Option<int>, finaltime: int)
    requires i <= |rows| && FilterRows(rows[..i], application, stamp, finaltime).Err?
    ensures FilterRows(rows, application, stamp, finaltime) == FilterRows(rows[..i], application, stamp, finaltime)
    decreases |rows|
  {
    if i < |rows| {
      var init := rows[..|rows| - 1];
      assert init[..i] == rows[..i];
      FilterKeepsFirstError(init, i, application, stamp, finaltime);
    } else {
      assert rows[..i] == rows;
    }
  }

  /** A data row the filter keeps: it has a timestamp field, the stamp
      converts, it is not earlier than `finaltime`, and the application
      matches its name in either direction. */
  predicate Passes(row: seq<string>, application: string, stamp: string -> Option<int>, finaltime: int) {
    && |row| >= 3
    && stamp(row[2]).Some?
    && stamp(row[2]).value >= finaltime
    && AppMatches(application, row[0])
  }

  /** The row written for a kept data row. */
  function Rewrite(row: seq<string>, stamp: string -> Option<int>): KeptRow
    requires |row| >= 3 && stamp(row[2]).Some?
  {
    KeptRow(row[..2], stamp(row[2]).value, row[3..])
  }

  /** The reference time is read from field 2 of the last line, and a file
      without a header line, without a data line, or whose last line has
      fewer than three fields raises IndexError. */
  lemma {:induction false} ReportFinalTime(lines: seq<string>, application: string, epoch: string -> Option<int>)
    ensures |lines| < 2 ==> ReportOf(lines, application, epoch) == Err(IndexError)
    ensures |lines| >= 2 && |Fields(lines[|lines| - 1])| < 3 ==> ReportOf(lines, application, epoch) == Err(IndexError)
    ensures |lines| >= 2 && |Fields(lines[|lines| - 1])| >= 3 ==>
      FinalTime(AllFields(lines)[1..], FieldTime(epoch)) == match epoch(StampText(Fields(lines[|lines| - 1])[2]))
        case None => Err(ValueError)
        case Some(t) => Ok(t)
  {
    var data := AllFields(lines);
    if |lines| >= 2 {
      assert data[1..][|data| - 2] == Fields(lines[|lines| - 1]);
    }
  }

  /** A data row with a timestamp field whose text converts. */
  predicate HasStamp(row: seq<string>, stamp: string -> Option<int>) {
    |row| >= 3 && stamp(row[2]).Some?
  }

  /** One step of the filter succeeds exactly when the row has a stamp. */
  lemma {:induction false} FilterRowsOkStep(rows: seq<seq<string>>, application: string, stamp: string -> Option<int>, finaltime: int)
    requires |rows| > 0
    ensures FilterRows(rows, application, stamp, finaltime).Ok? <==>
      FilterRows(rows[..|rows| - 1], application, stamp, finaltime).Ok? && HasStamp(rows[|rows| - 1], stamp)
  {
  }

  /** The filter succeeds exactly when every data row has a timestamp field
      whose text converts. */
  lemma {:induction false} FilterRowsOkIff(rows: seq<seq<string>>, application: string, stamp: string -> Option<int>, finaltime: int)
    ensures FilterRows(rows, application, stamp, finaltime).Ok? <==>
      forall i :: 0 <= i < |rows| ==> HasStamp(rows[i], stamp)
  {
    if |rows| > 0 {
      var init := rows[..|rows| - 1];
      FilterRowsOkIff(init, application, stamp, finaltime);
      FilterRowsOkStep(rows, application, stamp, finaltime);
      assert forall i :: 0 <= i < |init| ==> init[i] == rows[i];
      if (forall i :: 0 <= i < |init| ==> HasStamp(init[i], stamp)) && HasStamp(rows[|rows| - 1], stamp) {
        forall i | 0 <= i < |rows| ensures HasStamp(rows[i], stamp) {
          if i < |init| {
            assert HasStamp(init[i], stamp);
          }
        }
      }
    }
  }

  /** Every kept row is the rewrite of a data row that passes the filter, so
      its timestamp is at least `finaltime` and it has the width of that
      row; and every passing data row is kept. */
  lemma {:induction false} FilterRowsMeaning(rows: seq<seq<string>>, application: string, stamp: string -> Option<int>, finaltime: int)
    requires FilterRows(rows, application, stamp, finaltime).Ok?
    ensures forall r :: r in FilterRows(rows, application, stamp, finaltime).value ==>
      && r.stamp >= finaltime
      && exists i :: 0 <= i < |rows| && Passes(rows[i], application, stamp, finaltime)
                     && r == Rewrite(rows[i], stamp) && |r.head| + 1 + |r.tail| == |rows[i]|
    ensures forall i :: 0 <= i < |rows| && Passes(rows[i], application, stamp, finaltime) ==>
      Rewrite(rows[i], stamp) in FilterRows(rows, application, stamp, finaltime).value
  {
    FilterRowsSound(rows, application, stamp, finaltime);
    FilterRowsComplete(rows, application, stamp, finaltime);
  }

  /** What one successful step appends: the rewritten row iff it passes. */
  lemma {:induction false} RowStepMeaning(row: seq<string>, application: string, stamp: string -> Option<int>, finaltime: int)
    requires RowStep(row, application, stamp, finaltime).Ok?
    ensures HasStamp(row, stamp)
    ensures OptionToSeq(RowStep(row, application, stamp, finaltime).value)
            == if Passes(row, application, stamp, finaltime) then [Rewrite(row, stamp)] else []
  {
  }

  /** A successful filter is the filter of all but the last row followed by
      what the last row contributes. */
  lemma {:induction false} FilterRowsLast(rows: seq<seq<string>>, application: string, stamp: string -> Option<int>, finaltime: int)
    requires |rows| > 0 && FilterRows(rows, application, stamp, finaltime).Ok?
    ensures FilterRows(rows[..|rows| - 1], application, stamp, finaltime).Ok?
    ensures RowStep(rows[|rows| - 1], application, stamp, finaltime).Ok?
    ensures FilterRows(rows, application, stamp, finaltime).value
            == FilterRows(rows[..|rows| - 1], application, stamp, finaltime).value
               + OptionToSeq(RowStep(rows[|rows| - 1], application, stamp, finaltime).value)
  {
  }

  /** Every kept row is the rewrite of a passing data row of the same width. */
  lemma {:induction false} FilterRowsSound(rows: seq<seq<string>>, application: string, stamp: string -> Option<int>, finaltime: int)
    requires FilterRows(rows, application, stamp, finaltime).Ok?
    ensures forall r :: r in FilterRows(rows, application, stamp, finaltime).value ==>
      && r.stamp >= finaltime
      && exists i :: 0 <= i < |rows| && Passes(rows[i], application, stamp, finaltime)
                     && r == Rewrite(rows[i], stamp) && |r.head| + 1 + |r.tail| == |rows[i]|
  {
    if |rows| > 0 {
      var n := |rows| - 1;
      var init := rows[..n];
      FilterRowsSound(init, application, stamp, finaltime);
      FilterRowsLast(rows, application, stamp, finaltime);
      RowStepMeaning(rows[n], application, stamp, finaltime);
      var kept := FilterRows(rows, application, stamp, finaltime).value;
      var prev := FilterRows(init, application, stamp, finaltime).value;
      forall r | r in kept
        ensures && r.stamp >= finaltime
                && exists i :: 0 <= i < |rows| && Passes(rows[i], application, stamp, finaltime)
                               && r == Rewrite(rows[i], stamp) && |r.head| + 1 + |r.tail| == |rows[i]|
      {
        if r in prev {
          var i :| 0 <= i < |init| && Passes(init[i], application, stamp, finaltime)
                   && r == Rewrite(init[i], stamp) && |r.head| + 1 + |r.tail| == |init[i]|;
          assert init[i] == rows[i];
        } else {
          assert Passes(rows[n], application, stamp, finaltime) && r == Rewrite(rows[n], stamp);
        }
      }
    }
  }

  /** Every passing data row is kept. */
  lemma {:induction false} FilterRowsComplete(rows: seq<seq<string>>, application: string, stamp: string -> Option<int>, finaltime: int)
    requires FilterRows(rows, application, stamp, finaltime).Ok?
    ensures forall i :: 0 <= i < |rows| && Passes(rows[i], application, stamp, finaltime) ==>
      Rewrite(rows[i], stamp) in FilterRows(rows, application, stamp, finaltime).value
  {
    if |rows| > 0 {
      var n := |rows| - 1;
      var init := rows[..n];
      FilterRowsComplete(init, application, stamp, finaltime);
      FilterRowsLast(rows, application, stamp, finaltime);
      RowStepMeaning(rows[n], application, stamp, finaltime);
      var kept := FilterRows(rows, application, stamp, finaltime).value;
      var prev := FilterRows(init, application, stamp, finaltime).value;
      forall i | 0 <= i < |rows| && Passes(rows[i], application, stamp, finaltime)
        ensures Rewrite(rows[i], stamp) in kept
      {
        if i < n {
          assert init[i] == rows[i];
          assert Rewrite(init[i], stamp) in prev;
        }
      }
    }
  }

  /** Kept rows keep the input order: filtering a prefix of the data rows
      gives a prefix of the kept rows. */
  lemma {:induction false} FilterRowsPrefix(rows: seq<seq<string>>, i: nat, application: string,
                                            stamp: string -> Option<int>, finaltime: int)
    requires i <= |rows| && FilterRows(rows, application, stamp, finaltime).Ok?
    ensures FilterRows(rows[..i], application, stamp, finaltime).Ok?
    ensures FilterRows(rows[..i], application, stamp, finaltime).value <= FilterRows(rows, application, stamp, finaltime).value
    decreases |rows|
  {
    if i < |rows| {
      var init := rows[..|rows| - 1];
      assert init[..i] == rows[..i];
      FilterRowsPrefix(init, i, application, stamp, finaltime);
    } else {
      assert rows[..i] == rows;
    }
  }

  // ---------------------------------------------------------------------
  // The grouping loop of open_srumutil_data
  // ---------------------------------------------------------------------

  /** The list under a key, or `[]` before the key is first seen. */
  function Get(m: map<string, seq<seq<int>>>, k: string): seq<seq<int>> {
    if k in m then m[k] else []
  }

  /** `row[12:]` of a kept row. A kept row starts with exactly two head
      fields and the timestamp, so these are the tail fields from index 9. */
  function CounterFields(r: KeptRow): seq<string> {
    Slice(r.tail, 9, |r.tail|)
  }

  /** `int(x.lstrip(' '))` for one counter field. */
  function Counter(x: string): Option<int> {
    ParseInt(LStripChar(x, ' '))
  }

  /** `[int(x.lstrip(' ')) for x in xs]`, left to right. The conversion of
      one field is the parameter `counter`; `open_srumutil_data` uses
      `Counter`, and `None` stands for its ValueError. */
  function ParseCounters(xs: seq<string>, counter: string -> Option<int>): (r: Result<seq<int>>)
    ensures r.Err? ==> r.error == ValueError
    ensures r.Ok? ==> |r.value| == |xs|
  {
    if |xs| == 0 then Ok([])
    else
      var prev :- ParseCounters(xs[..|xs| - 1], counter);
      match counter(xs[|xs| - 1])
      case None => Err(ValueError)
      case Some(v) => Ok(prev + [v])
  }

  /** The counters parse exactly when every field converts, and then each
      counter is that field's conversion. */
  lemma {:induction false} ParseCountersMeaning(xs: seq<string>, counter: string -> Option<int>)
    ensures ParseCounters(xs, counter).Err? <==> exists i :: 0 <= i < |xs| && counter(xs[i]).None?
    ensures ParseCounters(xs, counter).Ok? ==> forall i :: 0 <= i < |xs| ==> Some(ParseCounters(xs, counter).value[i]) == counter(xs[i])
  {
    if |xs| > 0 {
      var init := xs[..|xs| - 1];
      ParseCountersMeaning(init, counter);
      assert forall i :: 0 <= i < |init| ==> init[i] == xs[i];
      if ParseCounters(init, counter).Err? {
        var i :| 0 <= i < |init| && counter(init[i]).None?;
        assert xs[i] == init[i];
      } else if counter(xs[|xs| - 1]).None? {
        assert ParseCounters(xs, counter).Err?;
        var j := |xs| - 1;
        assert counter(xs[j]).None?;
      } else {
        var v := ParseCounters(xs, counter).value;
        assert v == ParseCounters(init, counter).value + [counter(xs[|xs| - 1]).value];
        forall i | 0 <= i < |xs| ensures Some(v[i]) == counter(xs[i]) {
          if i < |init| {
            assert v[i] == ParseCounters(init, counter).value[i];
          }
        }
      }
    }
  }

  /** The inner loop of `open_srumutil_data` over the kept rows of one file:
      each row's counters are appended under `str(row[2])`. */
  function AddRows(d: map<string, seq<seq<int>>>, rows: seq<KeptRow>, counter: string -> Option<int>): Result<map<string, seq<seq<int>>>> {
    if |rows| == 0 then Ok(d)
    else
      var prev :- AddRows(d, rows[..|rows| - 1], counter);
      var r := rows[|rows| - 1];
      var c :- ParseCounters(CounterFields(r), counter);
      var k := IntToString(r.stamp);
      Ok(prev[k := Get(prev, k) + [c]])
  }

  /** The outer loop of `open_srumutil_data` over the report files, in walk
      order: the header of the last file read, and the grouped counters. */
  function GroupFiles(files: seq<seq<string>>, application: string, epoch: string -> Option<int>)
    : Result<(Option<seq<string>>, map<string, seq<seq<int>>>)>
  {
    if |files| == 0 then Ok((None, map[]))
    else
      var prev :- GroupFiles(files[..|files| - 1], application, epoch);
      var rep :- ReportOf(files[|files| - 1], application, epoch);
      var m :- AddRows(prev.1, rep.rows, Counter);
      Ok((Some(rep.header), m))
  }

  /** What `open_srumutil_data` returns: `['timestamp'] + header[12:]` of the
      last file and the MERGED, unconverted counters. With no file `header`
      is never bound and line 111 raises NameError. */
  function SrumData(files: seq<seq<string>>, application: string, epoch: string -> Option<int>)
    : Result<(seq<string>, map<string, seq<int>>)>
  {
    var g :- GroupFiles(files, application, epoch);
    match g.0
    case None => Err(NameError)
    case Some(h) =>
      var merged :- MergeAll(g.1);
      Ok((["timestamp"] + Slice(h, 12, |h|), merged))
  }

  /** `open_srumutil_data`, over the lines of each SRUMUTIL file
      (`get_srumutil_files` of the test directory). `teststarttime` is
      accepted and not used, as in the source. */
  method OpenSrumutilData(files: seq<seq<string>>, application: string, teststarttime: int,
                          epoch: string -> Option<int>)
    returns (r: Result<(seq<string>, map<string, seq<int>>)>)
    ensures r == SrumData(files, application, epoch)
  {
    var currdata: map<string, seq<seq<int>>> := map[];
    var header: Option<seq<string>> := None;
    for i := 0 to |files|
      invariant GroupFiles(files[..i], application, epoch) == Ok((header, currdata))
    {
      assert files[..i + 1][..i] == files[..i];
      var rep := OpenSrumutilReport(files[i], application, epoch);
      if rep.Err? {
        GroupKeepsFirstError(files, i + 1, application, epoch);
        return Err(rep.error);
      }
      var added := AddFileRows(currdata, rep.value.rows, Counter);
      if added.Err? {
        GroupKeepsFirstError(files, i + 1, application, epoch);
        return Err(added.error);
      }
      currdata := added.value;
      header := Some(rep.value.header);
    }
    assert files[..|files|] == files;
    if header.None? {
      return Err(NameError);
    }
    var h := header.value;
    var fullHeader := ["timestamp"] + Slice(h, 12, |h|);
    var merged := MergeSrumRows(currdata);
    if merged.Err? {
      return Err(merged.error);
    }
    var fmtData := ConvertDataToMilliwatthours(merged.value);
    return Ok((fullHeader, merged.value));
  }

  /** The inner loop of `open_srumutil_data`: `currdata` grows by the
      counters of each kept row of one file. */
  method AddFileRows(currdata: map<string, seq<seq<int>>>, rows: seq<KeptRow>, counter: string -> Option<int>)
    returns (r: Result<map<string, seq<seq<int>>>>)
    ensures r == AddRows(currdata, rows, counter)
  {
    var m := currdata;
    for j := 0 to |rows|
      invariant AddRows(currdata, rows[..j], counter) == Ok(m)
    {
      assert rows[..j + 1][..j] == rows[..j];
      var c := ParseCounters(CounterFields(rows[j]), counter);
      if c.Err? {
        AddRowsKeepsFirstError(currdata, rows, j + 1, counter);
        return Err(c.error);
      }
      var key := IntToString(rows[j].stamp);
      ghost var before := m;
      if key !in m {
        m := m[key := []];
      }
      assert m[key] == Get(before, key);
      m := m[key := m[key] + [c.value]];
      assert m == before[key := Get(before, key) + [c.value]];
    }
    assert rows[..|rows|] == rows;
    return Ok(m);
  }

  lemma {:induction false} AddRowsKeepsFirstError(d: map<string, seq<seq<int>>>, rows: seq<KeptRow>, i: nat, counter: string -> Option<int>)
    requires i <= |rows| && AddRows(d, rows[..i], counter).Err?
    ensures AddRows(d, rows, counter) == AddRows(d, rows[..i], counter)
    decreases |rows|
  {
    if i < |rows| {
      var init := rows[..|rows| - 1];
      assert init[..i] == rows[..i];
      AddRowsKeepsFirstError(d, init, i, counter);
    } else {
      assert rows[..i] == rows;
    }
  }

  lemma {:induction false} GroupKeepsFirstError(files: seq<seq<string>>, i: nat, application: string, epoch: string -> Option<int>)
    requires i <= |files| && GroupFiles(files[..i], application, epoch).Err?
    ensures GroupFiles(files, application, epoch) == GroupFiles(files[..i], application, epoch)
    decreases |files|
  {
    if i < |files| {
      var init := files[..|files| - 1];
      assert init[..i] == files[..i];
      GroupKeepsFirstError(init, i, application, epoch);
    } else {
      assert files[..i] == files;
    }
  }

  /** The counters of the rows with key `k`, in arrival order. */
  function Arrivals(rows: seq<KeptRow>, k: string, counter: string -> Option<int>): seq<seq<int>>
    requires forall i :: 0 <= i < |rows| ==> CountersParse(rows[i], counter)
  {
    if |rows| == 0 then []
    else
      var r := rows[|rows| - 1];
      assert CountersParse(r, counter);
      Arrivals(rows[..|rows| - 1], k, counter)
      + (if IntToString(r.stamp) == k then [ParseCounters(CounterFields(r), counter).value] else [])
  }

  /** The keys `str(row[2])` of the rows. */
  function StampKeys(rows: seq<KeptRow>): set<string> {
    if |rows| == 0 then {} else StampKeys(rows[..|rows| - 1]) + {IntToString(rows[|rows| - 1].stamp)}
  }

  lemma {:induction false} StampKeysMembership(rows: seq<KeptRow>, k: string)
    ensures k in StampKeys(rows) <==> exists i :: 0 <= i < |rows| && k == IntToString(rows[i].stamp)
  {
    if |rows| > 0 {
      var init := rows[..|rows| - 1];
      StampKeysMembership(init, k);
      if exists i :: 0 <= i < |rows| && k == IntToString(rows[i].stamp) {
        var i :| 0 <= i < |rows| && k == IntToString(rows[i].stamp);
        if i < |init| { assert init[i] == rows[i]; }
      }
      if exists i :: 0 <= i < |init| && k == IntToString(init[i].stamp) {
        var i :| 0 <= i < |init| && k == IntToString(init[i].stamp);
        assert init[i] == rows[i];
      }
    }
  }

  /** The counters of a kept row parse. */
  predicate CountersParse(r: KeptRow, counter: string -> Option<int>) {
    ParseCounters(CounterFields(r), counter).Ok?
  }

  /** Grouping the rows of a file succeeds exactly when every row's counters
      parse. */
  lemma {:induction false} AddRowsOkIff(d: map<string, seq<seq<int>>>, rows: seq<KeptRow>, counter: string -> Option<int>)
    ensures AddRows(d, rows, counter).Ok? <==> forall i :: 0 <= i < |rows| ==> CountersParse(rows[i], counter)
  {
    if AddRows(d, rows, counter).Ok? {
      AddRowsOkParses(d, rows, counter);
    } else if forall i :: 0 <= i < |rows| ==> CountersParse(rows[i], counter) {
      ParsesAddRowsOk(d, rows, counter);
    }
  }

  lemma {:induction false} AddRowsOkParses(d: map<string, seq<seq<int>>>, rows: seq<KeptRow>, counter: string -> Option<int>)
    requires AddRows(d, rows, counter).Ok?
    ensures forall i :: 0 <= i < |rows| ==> CountersParse(rows[i], counter)
  {
    if |rows| > 0 {
      var init := rows[..|rows| - 1];
      AddRowsOkStep(d, rows, counter);
      AddRowsOkParses(d, init, counter);
      forall i | 0 <= i < |rows| ensures CountersParse(rows[i], counter) {
        if i < |init| {
          assert rows[i] == init[i];
        }
      }
    }
  }

  lemma {:induction false} ParsesAddRowsOk(d: map<string, seq<seq<int>>>, rows: seq<KeptRow>, counter: string -> Option<int>)
    requires forall i :: 0 <= i < |rows| ==> CountersParse(rows[i], counter)
    ensures AddRows(d, rows, counter).Ok?
  {
    if |rows| > 0 {
      var init := rows[..|rows| - 1];
      forall i | 0 <= i < |init| ensures CountersParse(init[i], counter) {
        assert init[i] == rows[i];
      }
      ParsesAddRowsOk(d, init, counter);
      AddRowsOkStep(d, rows, counter);
    }
  }

  /** One step of the grouping succeeds exactly when the earlier rows were
      grouped and the last row's counters parse. */
  lemma {:induction false} AddRowsOkStep(d: map<string, seq<seq<int>>>, rows: seq<KeptRow>, counter: string -> Option<int>)
    requires |rows| > 0
    ensures AddRows(d, rows, counter).Ok? <==> AddRows(d, rows[..|rows| - 1], counter).Ok? && CountersParse(rows[|rows| - 1], counter)
  {
  }

  /** A successful step appends the last row's counters under its key. */
  lemma {:induction false} AddRowsLast(d: map<string, seq<seq<int>>>, rows: seq<KeptRow>, counter: string -> Option<int>)
    requires |rows| > 0 && AddRows(d, rows, counter).Ok?
    ensures AddRows(d, rows[..|rows| - 1], counter).Ok? && CountersParse(rows[|rows| - 1], counter)
    ensures
      var prev := AddRows(d, rows[..|rows| - 1], counter).value;
      var r := rows[|rows| - 1];
      var k := IntToString(r.stamp);
      AddRows(d, rows, counter).value == prev[k := Get(prev, k) + [ParseCounters(CounterFields(r), counter).value]]
  {
  }

  /** After grouping, each key holds what it held before followed by the
      counters of its rows in arrival order, and the keys are the old keys
      and the rows' `str(timestamp)`. */
  lemma {:induction false} AddRowsGroups(d: map<string, seq<seq<int>>>, rows: seq<KeptRow>, counter: string -> Option<int>)
    requires AddRows(d, rows, counter).Ok?
    ensures forall i :: 0 <= i < |rows| ==> CountersParse(rows[i], counter)
    ensures AddRows(d, rows, counter).value.Keys == d.Keys + StampKeys(rows)
    ensures forall k :: Get(AddRows(d, rows, counter).value, k) == Get(d, k) + Arrivals(rows, k, counter)
  {
    AddRowsOkIff(d, rows, counter);
    AddRowsKeys(d, rows, counter);
    forall k ensures Get(AddRows(d, rows, counter).value, k) == Get(d, k) + Arrivals(rows, k, counter) {
      AddRowsGet(d, rows, counter, k);
    }
  }

  /** The keys after grouping are the old keys and the rows' keys. */
  lemma {:induction false} AddRowsKeys(d: map<string, seq<seq<int>>>, rows: seq<KeptRow>, counter: string -> Option<int>)
    requires AddRows(d, rows, counter).Ok?
    ensures AddRows(d, rows, counter).value.Keys == d.Keys + StampKeys(rows)
  {
    if |rows| > 0 {
      var init := rows[..|rows| - 1];
      AddRowsLast(d, rows, counter);
      AddRowsKeys(d, init, counter);
      assert StampKeys(rows) == StampKeys(init) + {IntToString(rows[|rows| - 1].stamp)};
    }
  }

  /** What one key holds after grouping. */
  lemma {:induction false} AddRowsGet(d: map<string, seq<seq<int>>>, rows: seq<KeptRow>, counter: string -> Option<int>,
                                      k: string)
    requires AddRows(d, rows, counter).Ok?
    ensures forall i :: 0 <= i < |rows| ==> CountersParse(rows[i], counter)
    ensures Get(AddRows(d, rows, counter).value, k) == Get(d, k) + Arrivals(rows, k, counter)
  {
    AddRowsOkIff(d, rows, counter);
    if |rows| > 0 {
      var init := rows[..|rows| - 1];
      var r := rows[|rows| - 1];
      AddRowsLast(d, rows, counter);
      AddRowsGet(d, init, counter, k);
      var c := ParseCounters(CounterFields(r), counter).value;
      var key := IntToString(r.stamp);
      var prev := AddRows(d, init, counter).value;
      var m := AddRows(d, rows, counter).value;
      assert m == prev[key := Get(prev, key) + [c]];
      assert Get(prev, k) == Get(d, k) + Arrivals(init, k, counter);
      if k == key {
        assert Arrivals(rows, k, counter) == Arrivals(init, k, counter) + [c];
        assert Get(m, k) == Get(prev, k) + [c];
      } else {
        assert Arrivals(rows, k, counter) == Arrivals(init, k, counter) + [];
        assert Arrivals(init, k, counter) + [] == Arrivals(init, k, counter);
        assert k in m <==> k in prev;
        assert k in prev ==> m[k] == prev[k];
        assert Get(m, k) == Get(prev, k);
      }
    }
  }

  /** Adding the rows of `a` and then those of `b` is adding the rows of
      `a + b`. */
  lemma {:induction false} AddRowsConcat(d: map<string, seq<seq<int>>>, a: seq<KeptRow>, b: seq<KeptRow>, counter: string -> Option<int>)
    ensures AddRows(d, a + b, counter) == (var m :- AddRows(d, a, counter); AddRows(m, b, counter))
    decreases |b|
  {
    if |b| == 0 {
      assert a + b == a;
    } else {
      var b' := b[..|b| - 1];
      assert (a + b)[..|a + b| - 1] == a + b';
      assert (a + b)[|a + b| - 1] == b[|b| - 1];
      AddRowsConcat(d, a, b', counter);
    }
  }

  /** The kept rows of all files, in walk order. */
  function AllKept(files: seq<seq<string>>, application: string, epoch: string -> Option<int>): Result<seq<KeptRow>> {
    if |files| == 0 then Ok([])
    else
      var prev :- AllKept(files[..|files| - 1], application, epoch);
      var rep :- ReportOf(files[|files| - 1], application, epoch);
      Ok(prev + rep.rows)
  }

  /** Across all files, the grouped counters are those of every kept row of
      every file, in arrival order, and the header is the last file's. */
  lemma {:induction false} GroupFilesMeaning(files: seq<seq<string>>, application: string, epoch: string -> Option<int>)
    requires GroupFiles(files, application, epoch).Ok?
    ensures AllKept(files, application, epoch).Ok?
    ensures AddRows(map[], AllKept(files, application, epoch).value, Counter) == Ok(GroupFiles(files, application, epoch).value.1)
    ensures |files| > 0 ==>
      && ReportOf(files[|files| - 1], application, epoch).Ok?
      && GroupFiles(files, application, epoch).value.0 == Some(ReportOf(files[|files| - 1], application, epoch).value.header)
    ensures |files| == 0 ==> GroupFiles(files, application, epoch).value.0.None?
  {
    if |files| > 0 {
      var init := files[..|files| - 1];
      GroupFilesMeaning(init, application, epoch);
      var rep := ReportOf(files[|files| - 1], application, epoch).value;
      AddRowsConcat(map[], AllKept(init, application, epoch).value, rep.rows, Counter);
    }
  }

  // ---------------------------------------------------------------------
  // merge_srum_rows
  // ---------------------------------------------------------------------

  function Zeros(n: nat): (z: seq<int>)
    ensures |z| == n && forall i :: 0 <= i < n ==> z[i] == 0
  {
    seq(n, _ => 0)
  }

  /** One step of the inner loop: `[acc[i] + val for i, val in
      enumerate(row)]`, which takes the row's width and raises IndexError
      when the row is wider than the accumulator. */
  function AddRow(acc: seq<int>, row: seq<int>): (r: Result<seq<int>>)
    ensures r.Err? <==> |row| > |acc|
    ensures r.Err? ==> r.error == IndexError
    ensures r.Ok? ==> |r.value| == |row| && forall i :: 0 <= i < |row| ==> r.value[i] == acc[i] + row[i]
  {
    if |row| > |acc| then Err(IndexError)
    else Ok(seq(|row|, i requires 0 <= i < |row| => acc[i] + row[i]))
  }

  /** The inner loop over the rows of one timestamp, from accumulator `z`. */
  function Accumulate(z: seq<int>, rows: seq<seq<int>>): (r: Result<seq<int>>)
    ensures r.Err? ==> r.error == IndexError
  {
    if |rows| == 0 then Ok(z)
    else
      var prev :- Accumulate(z, rows[..|rows| - 1]);
      AddRow(prev, rows[|rows| - 1])
  }

  /** The merged list of one timestamp: the accumulator starts as zeros of
      the first row's width; no rows raises IndexError (`data[0]`). */
  function MergeGroup(rows: seq<seq<int>>): (r: Result<seq<int>>)
    ensures r.Err? ==> r.error == IndexError
  {
    if |rows| == 0 then Err(IndexError) else Accumulate(Zeros(|rows[0]|), rows)
  }

  /** What `merge_srum_rows` returns. Every failure is an IndexError, so the
      result does not depend on the order in which the keys are visited. */
  function MergeAll(d: map<string, seq<seq<int>>>): Result<map<string, seq<int>>> {
    if exists k :: k in d && MergeGroup(d[k]).Err? then Err(IndexError)
    else Ok(map k | k in d :: MergeGroup(d[k]).value)
  }

  /** The inner loop of `merge_srum_rows` for one timestamp. */
  method MergeRows(data: seq<seq<int>>) returns (r: Result<seq<int>>)
    ensures r == MergeGroup(data)
  {
    if |data| == 0 {
      return Err(IndexError);
    }
    var acc := Zeros(|data[0]|);
    for j := 0 to |data|
      invariant Accumulate(Zeros(|data[0]|), data[..j]) == Ok(acc)
    {
      assert data[..j + 1][..j] == data[..j];
      var row := data[j];
      if |row| > |acc| {
        AccumulateKeepsFirstError(Zeros(|data[0]|), data, j + 1);
        return Err(IndexError);
      }
      acc := seq(|row|, i requires 0 <= i < |row| => acc[i] + row[i]);
    }
    assert data[..|data|] == data;
    return Ok(acc);
  }

  /** `merge_srum_rows`: the keys are visited in an unspecified order. */
  method MergeSrumRows(datadict: map<string, seq<seq<int>>>) returns (r: Result<map<string, seq<int>>>)
    ensures r == MergeAll(datadict)
  {
    var merged: map<string, seq<int>> := map[];
    var todo := datadict.Keys;
    while todo != {}
      invariant todo <= datadict.Keys
      invariant forall k :: k in datadict.Keys - todo ==> MergeGroup(datadict[k]).Ok?
      invariant merged == map k | k in datadict.Keys - todo :: MergeGroup(datadict[k]).value
      decreases |todo|
    {
      var t :| t in todo;
      var g := MergeRows(datadict[t]);
      if g.Err? {
        return Err(IndexError);
      }
      merged := merged[t := g.value];
      todo := todo - {t};
    }
    assert datadict.Keys - todo == datadict.Keys;
    return Ok(merged);
  }

  lemma {:induction false} AccumulateKeepsFirstError(z: seq<int>, rows: seq<seq<int>>, i: nat)
    requires i <= |rows| && Accumulate(z, rows[..i]).Err?
    ensures Accumulate(z, rows) == Accumulate(z, rows[..i])
    decreases |rows|
  {
    if i < |rows| {
      var init := rows[..|rows| - 1];
      assert init[..i] == rows[..i];
      AccumulateKeepsFirstError(z, init, i);
    } else {
      assert rows[..i] == rows;
    }
  }

  /** The sum of column `i` over the rows. */
  function ColumnSum(rows: seq<seq<int>>, i: nat): int
    requires HasColumn(rows, i)
  {
    if |rows| == 0 then 0 else ColumnSum(rows[..|rows| - 1], i) + rows[|rows| - 1][i]
  }

  /** The accumulator's width when row `j` is added: the previous row's, or
      the starting accumulator's for the first row. */
  function WidthBefore(z: seq<int>, rows: seq<seq<int>>, j: nat): nat
    requires j < |rows|
  {
    if j == 0 then |z| else |rows[j - 1]|
  }

  /** The accumulator's width is the last row's. */
  lemma {:induction false} AccumulateWidth(z: seq<int>, rows: seq<seq<int>>)
    requires Accumulate(z, rows).Ok?
    ensures |Accumulate(z, rows).value| == if |rows| == 0 then |z| else |rows[|rows| - 1]|
  {
    if |rows| > 0 {
      AccumulateWidth(z, rows[..|rows| - 1]);
    }
  }

  /** The loop raises exactly when some row is wider than the accumulator it
      is added to. */
  lemma {:induction false} AccumulateErrIff(z: seq<int>, rows: seq<seq<int>>)
    ensures Accumulate(z, rows).Err? <==> exists j :: 0 <= j < |rows| && |rows[j]| > WidthBefore(z, rows, j)
  {
    if |rows| > 0 {
      var n := |rows| - 1;
      var init := rows[..n];
      AccumulateErrIff(z, init);
      assert forall j :: 0 <= j < |init| ==> init[j] == rows[j] && WidthBefore(z, init, j) == WidthBefore(z, rows, j);
      if Accumulate(z, init).Ok? {
        AccumulateWidth(z, init);
        assert |Accumulate(z, init).value| == WidthBefore(z, rows, n);
      }
    }
  }

  /** A timestamp's rows merge exactly when it has rows and none is wider
      than the row before it; the merged list has the last row's width. */
  lemma {:induction false} MergeGroupErrIff(rows: seq<seq<int>>)
    ensures MergeGroup(rows).Err? <==>
      |rows| == 0 || exists j :: 0 < j < |rows| && |rows[j]| > |rows[j - 1]|
    ensures MergeGroup(rows).Ok? ==> |MergeGroup(rows).value| == |rows[|rows| - 1]|
  {
    if |rows| > 0 {
      var z := Zeros(|rows[0]|);
      assert |z| == |rows[0]|;
      assert MergeGroup(rows) == Accumulate(z, rows);
      AccumulateErrIff(z, rows);
      if Accumulate(z, rows).Ok? {
        AccumulateWidth(z, rows);
      }
      if exists j :: 0 <= j < |rows| && |rows[j]| > WidthBefore(z, rows, j) {
        var j :| 0 <= j < |rows| && |rows[j]| > WidthBefore(z, rows, j);
        assert 0 < j && |rows[j]| > |rows[j - 1]|;
      }
      if exists j :: 0 < j < |rows| && |rows[j]| > |rows[j - 1]| {
        var j :| 0 < j < |rows| && |rows[j]| > |rows[j - 1]|;
        assert |rows[j]| > WidthBefore(z, rows, j);
      }
    }
  }

  lemma {:induction false} AccumulateEqualWidth(z: seq<int>, rows: seq<seq<int>>)
    requires forall j :: 0 <= j < |rows| ==> |rows[j]| == |z|
    ensures Accumulate(z, rows) == Ok(seq(|z|, i requires 0 <= i < |z| => z[i] + ColumnSum(rows, i)))
  {
    if |rows| > 0 {
      var init := rows[..|rows| - 1];
      var last := rows[|rows| - 1];
      AccumulateEqualWidth(z, init);
      var prev := seq(|z|, i requires 0 <= i < |z| => z[i] + ColumnSum(init, i));
      assert Accumulate(z, rows) == AddRow(prev, last);
      assert AddRow(prev, last).value == seq(|z|, i requires 0 <= i < |z| => z[i] + ColumnSum(rows, i));
    } else {
      assert seq(|z|, i requires 0 <= i < |z| => z[i] + ColumnSum(rows, i)) == z;
    }
  }

  /** For rows of equal width, entry `i` of the merged list is the sum of
      column `i` over the rows. */
  lemma {:induction false} MergeGroupColumnSums(rows: seq<seq<int>>)
    requires |rows| > 0 && forall j :: 0 <= j < |rows| ==> |rows[j]| == |rows[0]|
    ensures MergeGroup(rows) == Ok(seq(|rows[0]|, i requires 0 <= i < |rows[0]| => ColumnSum(rows, i)))
  {
    var z := Zeros(|rows[0]|);
    AccumulateEqualWidth(z, rows);
    assert seq(|z|, i requires 0 <= i < |z| => z[i] + ColumnSum(rows, i))
        == seq(|rows[0]|, i requires 0 <= i < |rows[0]| => ColumnSum(rows, i));
  }

  /** Every row has a column `i`. */
  predicate HasColumn(rows: seq<seq<int>>, i: nat) {
    forall j :: 0 <= j < |rows| ==> i < |rows[j]|
  }

  lemma {:induction false} ColumnSumConcat(a: seq<seq<int>>, b: seq<seq<int>>, i: nat)
    requires HasColumn(a, i) && HasColumn(b, i)
    ensures HasColumn(a + b, i)
    ensures ColumnSum(a + b, i) == ColumnSum(a, i) + ColumnSum(b, i)
    decreases |b|
  {
    if |b| > 0 {
      var b' := b[..|b| - 1];
      assert (a + b)[..|a + b| - 1] == a + b';
      ColumnSumConcat(a, b', i);
    } else {
      assert a + b == a;
    }
  }

  /** Taking row `k` out of the sum. */
  lemma {:induction false} ColumnSumRemove(b: seq<seq<int>>, k: nat, i: nat)
    requires k < |b| && HasColumn(b, i)
    ensures HasColumn(b[..k] + b[k + 1..], i)
    ensures ColumnSum(b, i) == ColumnSum(b[..k] + b[k + 1..], i) + b[k][i]
  {
    var u, x, v := b[..k], b[k], b[k + 1..];
    assert b == u + [x] + v;
    assert HasColumn(u, i) && HasColumn(v, i) && HasColumn([x], i);
    ColumnSumConcat(u + [x], v, i);
    ColumnSumConcat(u, [x], i);
    ColumnSumConcat(u, v, i);
    assert ColumnSum([x], i) == x[i] by {
      var single: seq<seq<int>> := [x];
      assert single[..0] == [];
    }
  }

  /** Column sums do not depend on the order of the rows. */
  lemma {:induction false} ColumnSumPermutation(a: seq<seq<int>>, b: seq<seq<int>>, i: nat)
    requires multiset(a) == multiset(b) && HasColumn(a, i)
    ensures HasColumn(b, i)
    ensures ColumnSum(a, i) == ColumnSum(b, i)
    decreases |a|
  {
    forall j | 0 <= j < |b| ensures i < |b[j]| {
      assert b[j] in multiset(a);
    }
    if |a| == 0 {
      assert multiset(b) == multiset{};
    } else {
      var n := |a| - 1;
      var x := a[n];
      assert a == a[..n] + [x];
      assert x in multiset(b);
      var k :| 0 <= k < |b| && b[k] == x;
      var rest := b[..k] + b[k + 1..];
      assert b == b[..k] + [x] + b[k + 1..];
      MultisetCancel(multiset(a[..n]), multiset(rest), x);
      ColumnSumRemove(b, k, i);
      ColumnSumPermutation(a[..n], rest, i);
    }
  }

  /** For rows of equal width the merged list does not depend on the order
      in which the rows arrived. */
  lemma {:induction false} MergeGroupOrderIndependent(rows: seq<seq<int>>, other: seq<seq<int>>)
    requires |rows| > 0 && forall j :: 0 <= j < |rows| ==> |rows[j]| == |rows[0]|
    requires multiset(rows) == multiset(other)
    ensures MergeGroup(rows) == MergeGroup(other)
  {
    var w := |rows[0]|;
    forall j | 0 <= j < |other| ensures |other[j]| == w {
      assert other[j] in multiset(rows);
    }
    assert other[0] in multiset(rows);
    MergeGroupColumnSums(rows);
    MergeGroupColumnSums(other);
    forall i | 0 <= i < w ensures ColumnSum(rows, i) == ColumnSum(other, i) {
      ColumnSumPermutation(rows, other, i);
    }
    assert seq(w, i requires 0 <= i < w => ColumnSum(rows, i)) == seq(w, i requires 0 <= i < w => ColumnSum(other, i));
  }

  /** `merge_srum_rows` keeps the key set, and each merged list has the width
      of the last row of its timestamp. */
  lemma {:induction false} MergeAllKeys(d: map<string, seq<seq<int>>>)
    ensures MergeAll(d).Ok? <==> forall k :: k in d ==> MergeGroup(d[k]).Ok?
    ensures MergeAll(d).Ok? ==>
      && MergeAll(d).value.Keys == d.Keys
      && forall k :: k in d ==> |d[k]| > 0 && |MergeAll(d).value[k]| == |d[k][|d[k]| - 1]|
  {
    if MergeAll(d).Ok? {
      forall k | k in d ensures |d[k]| > 0 && |MergeAll(d).value[k]| == |d[k][|d[k]| - 1]| {
        MergeGroupErrIff(d[k]);
      }
    }
  }

  // ---------------------------------------------------------------------
  // convert_data_to_milliwatthours
  // ---------------------------------------------------------------------

  /** `convert_data_to_milliwatthours`: every millijoule counter becomes
      milliwatt-hours, one thousandth of a joule per 3.6 joules. */
  method ConvertDataToMilliwatthours(datadict: map<string, seq<int>>) returns (r: map<string, seq<real>>)
    ensures r.Keys == datadict.Keys
    ensures forall k :: k in r ==> Converted(datadict[k], r[k])
  {
    r := map[];
    var todo := datadict.Keys;
    while todo != {}
      invariant todo <= datadict.Keys
      invariant r.Keys == datadict.Keys - todo
      invariant forall k :: k in r ==> Converted(datadict[k], r[k])
      decreases |todo|
    {
      var t :| t in todo;
      var converted := ConvertList(datadict[t]);
      r := r[t := converted];
      todo := todo - {t};
    }
  }

  /** `out` is `data` converted from millijoules to milliwatt-hours. */
  predicate Converted(data: seq<int>, out: seq<real>) {
    |out| == |data| && forall i :: 0 <= i < |data| ==> out[i] == data[i] as real / 3600.0
  }

  /** The inner loop of `convert_data_to_milliwatthours`. */
  method ConvertList(data: seq<int>) returns (converted: seq<real>)
    ensures Converted(data, converted)
  {
    converted := [];
    for j := 0 to |data|
      invariant |converted| == j
      invariant forall i :: 0 <= i < j ==> converted[i] == data[i] as real / 3600.0
    {
      MillijoulesToMilliwatthours(data[j] as real);
      converted := converted + [JoulesToMilliwatthours(MillijoulesToJoules(data[j] as real))];
    }
  }

  // ---------------------------------------------------------------------
  // get_ordered_datalist
  // ---------------------------------------------------------------------

  /** Python's `<` on lists of integers: lexicographic, and a proper prefix
      is smaller. */
  predicate LexLt(a: seq<int>, b: seq<int>) {
    if |a| == 0 then |b| > 0
    else if |b| == 0 then false
    else a[0] < b[0] || (a[0] == b[0] && LexLt(a[1..], b[1..]))
  }

  lemma {:induction false} LexLtIrreflexive(a: seq<int>)
    ensures !LexLt(a, a)
  {
    if |a| > 0 { LexLtIrreflexive(a[1..]); }
  }

  lemma {:induction false} LexLtTransitive(a: seq<int>, b: seq<int>, c: seq<int>)
    requires LexLt(a, b) && LexLt(b, c)
    ensures LexLt(a, c)
  {
    if |a| > 0 && |b| > 0 && |c| > 0 && a[0] == b[0] == c[0] {
      LexLtTransitive(a[1..], b[1..], c[1..]);
    }
  }

  lemma {:induction false} LexLtTotal(a: seq<int>, b: seq<int>)
    ensures a == b || LexLt(a, b) || LexLt(b, a)
  {
    if |a| > 0 && |b| > 0 && a[0] == b[0] {
      LexLtTotal(a[1..], b[1..]);
      if a[1..] == b[1..] {
        assert a == [a[0]] + a[1..] && b == [b[0]] + b[1..];
      }
    }
  }

  /** `sorted(datadict, key=datadict.get)` places entry `i` before entry `j`
      when its value is smaller, or equal and `i` was inserted first (the sort
      is stable). */
  predicate Before(entries: seq<(string, seq<int>)>, i: nat, j: nat)
    requires i < |entries| && j < |entries|
  {
    LexLt(entries[i].1, entries[j].1) || (entries[i].1 == entries[j].1 && i < j)
  }

  lemma {:induction false} BeforeTransitive(entries: seq<(string, seq<int>)>, i: nat, j: nat, k: nat)
    requires i < |entries| && j < |entries| && k < |entries|
    requires Before(entries, i, j) && Before(entries, j, k)
    ensures Before(entries, i, k)
  {
    var a, b, c := entries[i].1, entries[j].1, entries[k].1;
    if LexLt(a, b) && LexLt(b, c) { LexLtTransitive(a, b, c); }
    if a == c && i >= k {
      if LexLt(a, b) && LexLt(b, c) { LexLtIrreflexive(a); }
      else if LexLt(a, b) { LexLtIrreflexive(a); }
      else if LexLt(b, c) { LexLtIrreflexive(b); }
    }
  }

  lemma {:induction false} BeforeTotal(entries: seq<(string, seq<int>)>, i: nat, j: nat)
    requires i < |entries| && j < |entries| && i != j
    ensures Before(entries, i, j) || Before(entries, j, i)
  {
    LexLtTotal(entries[i].1, entries[j].1);
  }

  predicate InRange(entries: seq<(string, seq<int>)>, idx: seq<nat>) {
    forall k :: 0 <= k < |idx| ==> idx[k] < |entries|
  }

  /** Positions of `idx` are in `sorted` order. */
  predicate Ordered(entries: seq<(string, seq<int>)>, idx: seq<nat>)
    requires InRange(entries, idx)
  {
    forall k, l :: 0 <= k < l < |idx| ==> Before(entries, idx[k], idx[l])
  }

  /** Inserting entry `x` into an ordered list of positions. */
  function Insert(entries: seq<(string, seq<int>)>, x: nat, t: seq<nat>): (r: seq<nat>)
    requires x < |entries| && InRange(entries, t)
    ensures multiset(r) == multiset(t) + multiset{x}
    ensures InRange(entries, r)
  {
    if |t| == 0 then [x]
    else if Before(entries, x, t[0]) then [x] + t
    else
      assert t == [t[0]] + t[1..];
      [t[0]] + Insert(entries, x, t[1..])
  }

  /** The positions of the first `n` entries in `sorted` order. */
  function SortIndices(entries: seq<(string, seq<int>)>, n: nat): (r: seq<nat>)
    requires n <= |entries|
    ensures InRange(entries, r) && |r| == n
    ensures forall k :: 0 <= k < |r| ==> r[k] < n
  {
    if n == 0 then []
    else
      var prev := SortIndices(entries, n - 1);
      var r := Insert(entries, n - 1, prev);
      assert forall k :: 0 <= k < |r| ==> r[k] in multiset(prev) + multiset{(n - 1) as nat};
      r
  }

  lemma {:induction false} InsertOrdered(entries: seq<(string, seq<int>)>, x: nat, t: seq<nat>)
    requires x < |entries| && InRange(entries, t) && Ordered(entries, t)
    requires x !in t
    ensures Ordered(entries, Insert(entries, x, t))
  {
    if |t| > 0 && !Before(entries, x, t[0]) {
      BeforeTotal(entries, x, t[0]);
      var rest := Insert(entries, x, t[1..]);
      assert x !in t[1..];
      InsertOrdered(entries, x, t[1..]);
      var r := [t[0]] + rest;
      forall l | 1 <= l < |r| ensures Before(entries, t[0], r[l]) {
        assert r[l] == rest[l - 1];
        assert rest[l - 1] in multiset(t[1..]) + multiset{x};
        if rest[l - 1] != x {
          var m :| 0 <= m < |t[1..]| && t[1..][m] == rest[l - 1];
          assert t[m + 1] == rest[l - 1];
        }
      }
    } else if |t| > 0 {
      var r := [x] + t;
      forall k, l | 0 <= k < l < |r| ensures Before(entries, r[k], r[l]) {
        if k == 0 && l > 1 {
          BeforeTransitive(entries, x, t[0], t[l - 1]);
        }
      }
    }
  }

  /** The positions `0, 1, ..., n - 1`. */
  function Range(n: nat): (r: seq<nat>)
    ensures |r| == n && forall i :: 0 <= i < n ==> r[i] == i
  {
    if n == 0 then [] else Range(n - 1) + [n - 1]
  }

  /** Each entry appears exactly once among the sorted positions. */
  lemma {:induction false} SortIndicesPermutation(entries: seq<(string, seq<int>)>, n: nat)
    requires n <= |entries|
    ensures multiset(SortIndices(entries, n)) == multiset(Range(n))
  {
    if n > 0 {
      SortIndicesPermutation(entries, n - 1);
      var x: nat := n - 1;
      assert multiset(SortIndices(entries, n)) == multiset(SortIndices(entries, n - 1)) + multiset{x};
      assert multiset(Range(n)) == multiset(Range(n - 1)) + multiset{x} by {
        assert Range(n) == Range(n - 1) + [x];
      }
    }
  }

  /** The positions come out in `sorted` order: by value, and by insertion
      order among equal values. */
  lemma {:induction false} SortIndicesOrdered(entries: seq<(string, seq<int>)>, n: nat)
    requires n <= |entries|
    ensures Ordered(entries, SortIndices(entries, n))
  {
    if n > 0 {
      SortIndicesOrdered(entries, n - 1);
      var prev := SortIndices(entries, n - 1);
      assert (n - 1) as nat !in prev;
      InsertOrdered(entries, n - 1, prev);
    }
  }

  /** What `get_ordered_datalist` returns: `[key] + datadict[key]` (here the
      pair) for every key in `sorted` order. The dictionary is its list of
      entries in insertion order. */
  function OrderedDatalist(entries: seq<(string, seq<int>)>): seq<(string, seq<int>)> {
    Pick(entries, SortIndices(entries, |entries|))
  }

  /** `get_ordered_datalist`. */
  method GetOrderedDatalist(entries: seq<(string, seq<int>)>) returns (sortedList: seq<(string, seq<int>)>)
    ensures sortedList == OrderedDatalist(entries)
  {
    var keys := SortIndices(entries, |entries|);
    sortedList := [];
    for k := 0 to |keys|
      invariant sortedList == seq(k, m requires 0 <= m < k => entries[keys[m]])
    {
      var key := keys[k];
      sortedList := sortedList + [(entries[key].0, entries[key].1)];
    }
  }

  /** Inserting a position into a list of positions adds that entry to the
      entries picked. */
  lemma {:induction false} PickInsert(entries: seq<(string, seq<int>)>, x: nat, t: seq<nat>)
    requires x < |entries| && InRange(entries, t)
    ensures multiset(Pick(entries, Insert(entries, x, t))) == multiset(Pick(entries, t)) + multiset{entries[x]}
    decreases |t|
  {
    assert Pick(entries, [x]) == [entries[x]];
    if |t| == 0 {
    } else if Before(entries, x, t[0]) {
      PickConcat(entries, [x], t);
    } else {
      var rest := t[1..];
      assert t == [t[0]] + rest;
      assert InRange(entries, [t[0]]) && InRange(entries, rest);
      PickInsert(entries, x, rest);
      var ins := Insert(entries, x, rest);
      PickConcat(entries, [t[0]], ins);
      PickConcat(entries, [t[0]], rest);
      assert Insert(entries, x, t) == [t[0]] + ins;
    }
  }

  /** The entries at the sorted positions of the first `n` entries are those
      entries, each once. */
  lemma {:induction false} SortIndicesPickPermutation(entries: seq<(string, seq<int>)>, n: nat)
    requires n <= |entries|
    ensures multiset(Pick(entries, SortIndices(entries, n))) == multiset(entries[..n])
  {
    if n > 0 {
      SortIndicesPickPermutation(entries, n - 1);
      PickInsert(entries, n - 1, SortIndices(entries, n - 1));
      PrefixMultiset(entries, n);
    }
  }

  lemma {:induction false} PrefixMultiset<T>(s: seq<T>, n: nat)
    requires 0 < n <= |s|
    ensures multiset(s[..n]) == multiset(s[..n - 1]) + multiset{s[n - 1]}
  {
    assert s[..n] == s[..n - 1] + [s[n - 1]];
  }

  /** The entries at the given positions. */
  function Pick(entries: seq<(string, seq<int>)>, idx: seq<nat>): seq<(string, seq<int>)>
    requires InRange(entries, idx)
  {
    seq(|idx|, k requires 0 <= k < |idx| => entries[idx[k]])
  }

  lemma {:induction false} PickConcat(entries: seq<(string, seq<int>)>, u: seq<nat>, v: seq<nat>)
    requires InRange(entries, u) && InRange(entries, v)
    ensures InRange(entries, u + v) && Pick(entries, u + v) == Pick(entries, u) + Pick(entries, v)
  {
    assert InRange(entries, u + v) by {
      forall k | 0 <= k < |u + v| ensures (u + v)[k] < |entries| {
        if k >= |u| { assert (u + v)[k] == v[k - |u|]; }
      }
    }
  }

  lemma {:induction false} MultisetCancel<T>(a: multiset<T>, b: multiset<T>, x: T)
    requires a + multiset{x} == b + multiset{x}
    ensures a == b
  {
    forall y ensures a[y] == b[y] {
      assert (a + multiset{x})[y] == (b + multiset{x})[y];
    }
  }

  /** `get_ordered_datalist` outputs every entry exactly once, ordered
      non-decreasingly by VALUE (not by key), and entries with equal values
      keep their insertion order. */
  lemma {:induction false} OrderedDatalistMeaning(entries: seq<(string, seq<int>)>)
    ensures |OrderedDatalist(entries)| == |entries|
    ensures multiset(OrderedDatalist(entries)) == multiset(entries)
    ensures forall k, l :: 0 <= k < l < |entries| ==>
      !LexLt(OrderedDatalist(entries)[l].1, OrderedDatalist(entries)[k].1)
    ensures forall k, l :: 0 <= k < l < |entries| && OrderedDatalist(entries)[k].1 == OrderedDatalist(entries)[l].1 ==>
      SortIndices(entries, |entries|)[k] < SortIndices(entries, |entries|)[l]
    ensures forall k :: 0 <= k < |entries| ==> OrderedDatalist(entries)[k] == entries[SortIndices(entries, |entries|)[k]]
  {
    var n := |entries|;
    var idx := SortIndices(entries, n);
    SortIndicesPermutation(entries, n);
    SortIndicesOrdered(entries, n);
    SortIndicesPickPermutation(entries, n);
    assert entries[..n] == entries;
    forall k, l | 0 <= k < l < n ensures !LexLt(entries[idx[l]].1, entries[idx[k]].1) {
      assert Before(entries, idx[k], idx[l]);
      if LexLt(entries[idx[l]].1, entries[idx[k]].1) {
        if LexLt(entries[idx[k]].1, entries[idx[l]].1) {
          LexLtTransitive(entries[idx[l]].1, entries[idx[k]].1, entries[idx[l]].1);
        }
        LexLtIrreflexive(entries[idx[l]].1);
      }
    }
    forall k, l | 0 <= k < l < n && entries[idx[k]].1 == entries[idx[l]].1 ensures idx[k] < idx[l] {
      assert Before(entries, idx[k], idx[l]);
      LexLtIrreflexive(entries[idx[k]].1);
    }
  }
}
