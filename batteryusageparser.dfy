/** batteryusageparser.py: reading one `powercfg /batteryreport` HTML file and
    collecting all reports of a run into a map keyed by creation time.

    A report is given as its file name and its lines (what `readlines()`
    returns). The three regular expressions of the scan are modelled exactly
    on ASCII text: `re.match` anchors at the start of the line and `.` stops
    at the first newline, so only the text before the first `\n` matters. */
module BatteryUsageParser {
  import opened Common
  import opened Text

  const ReportMarker: string := "Report generated"
  const PercentTag: string := "\"percent\">"
  const CapacityTag: string := "\"mw\">"
  const CapacityUnit: string := " mWh"

  /** The part of a line that `.` can match: everything before the first newline. */
  function Visible(line: string): string {
    Split(line, "\n")[0]
  }

  /** `re.match(r'.*Report generated.*', line)` succeeds. */
  predicate IsReportLine(line: string) {
    Contains(Visible(line), ReportMarker)
  }

  /** `"percent">` followed by a digit starts at index `k` of `v`. */
  predicate PercentAt(v: string, k: nat) {
    OccursAt(v, PercentTag, k) && k + |PercentTag| < |v| && IsDigitChar(v[k + |PercentTag|])
  }

  /** The largest `k < n` at which `PercentAt` holds. */
  function LastPercentBelow(v: string, n: nat): (r: Option<nat>)
    ensures r.Some? ==> r.value < n && PercentAt(v, r.value)
    ensures r.Some? ==> forall j :: r.value < j < n ==> !PercentAt(v, j)
    ensures r.None? ==> forall j :: 0 <= j < n ==> !PercentAt(v, j)
  {
    if n == 0 then None
    else if PercentAt(v, n - 1) then Some(n - 1)
    else LastPercentBelow(v, n - 1)
  }

  /** The largest `k < n` at which `p` occurs in `v`. */
  function LastOccurrenceBelow(v: string, p: string, n: nat): (r: Option<nat>)
    ensures r.Some? ==> r.value < n && OccursAt(v, p, r.value)
    ensures r.Some? ==> forall j :: r.value < j < n ==> !OccursAt(v, p, j)
    ensures r.None? ==> forall j :: 0 <= j < n ==> !OccursAt(v, p, j)
  {
    if n == 0 then None
    else if OccursAt(v, p, n - 1) then Some(n - 1)
    else LastOccurrenceBelow(v, p, n - 1)
  }

  /** The longest run of digits of `v` that starts at index `i`. */
  function DigitRun(v: string, i: nat): (r: string)
    requires i <= |v|
    ensures i + |r| <= |v| && r == v[i..i + |r|]
    ensures forall j :: 0 <= j < |r| ==> IsDigitChar(r[j])
    ensures i + |r| == |v| || !IsDigitChar(v[i + |r|])
    decreases |v| - i
  {
    if i < |v| && IsDigitChar(v[i]) then [v[i]] + DigitRun(v, i + 1) else ""
  }

  /** `group(1)` of `re.match(r'.*"percent">(\d+).*', line)`: the greedy
      `.*` puts the match at the LAST `"percent">` that a digit follows, and
      `\d+` takes every digit after it. */
  function PercentGroup(line: string): Option<string> {
    var v := Visible(line);
    match LastPercentBelow(v, |v| + 1)
    case None => None
    case Some(k) => Some(DigitRun(v, k + |PercentTag|))
  }

  /** The percent group is the maximal digit run after the last
      `"percent">` that a digit follows; there is none when no such tag is
      in the visible part of the line. */
  lemma {:induction false} PercentGroupMeaning(line: string)
    ensures var v := Visible(line);
      match PercentGroup(line)
      case None => forall k :: 0 <= k <= |v| ==> !PercentAt(v, k)
      case Some(g) =>
        && IsDigits(g)
        && exists k :: 0 <= k <= |v| && PercentAt(v, k) && (forall j :: k < j <= |v| ==> !PercentAt(v, j))
                       && g == v[k + |PercentTag|..k + |PercentTag| + |g|]
                       && (k + |PercentTag| + |g| == |v| || !IsDigitChar(v[k + |PercentTag| + |g|]))
  {
  }

  /** `group(1)` of `re.match(r'.*"mw">(.*) mWh.*', line)`: both `.*` are
      greedy, so the group runs from the last `"mw">` that some ` mWh` follows
      to the last ` mWh` of the line. */
  function CapacityGroup(line: string): Option<string> {
    var v := Visible(line);
    match LastOccurrenceBelow(v, CapacityUnit, |v| + 1)
    case None => None
    case Some(j) =>
      if j < |CapacityTag| then None
      else
        match LastOccurrenceBelow(v, CapacityTag, j - |CapacityTag| + 1)
        case None => None
        case Some(k) => Some(v[k + |CapacityTag|..j])
  }

  /** The capacity group lies between a `"mw">` and a later ` mWh`, with the
      unit at its last occurrence in the line and the tag at the last place
      before it; there is none when no tag is followed by the unit. */
  lemma {:induction false} CapacityGroupMeaning(line: string)
    ensures var v := Visible(line);
      match CapacityGroup(line)
      case None =>
        forall k, j :: 0 <= k && k + |CapacityTag| <= j <= |v| && OccursAt(v, CapacityTag, k)
          ==> !OccursAt(v, CapacityUnit, j)
      case Some(g) =>
        exists k, j :: 0 <= k && k + |CapacityTag| <= j <= |v|
          && OccursAt(v, CapacityTag, k) && OccursAt(v, CapacityUnit, j) && g == v[k + |CapacityTag|..j]
          && (forall j' :: j < j' <= |v| ==> !OccursAt(v, CapacityUnit, j'))
          && (forall k' :: k < k' && k' + |CapacityTag| <= j ==> !OccursAt(v, CapacityTag, k'))
  {
  }

  /** What the three regular expressions of the scan say about one line. */
  datatype LineInfo = LineInfo(report: bool, percent: Option<string>, capacity: Option<string>)

  function Classify(line: string): LineInfo {
    LineInfo(IsReportLine(line), PercentGroup(line), CapacityGroup(line))
  }

  function ClassifyAll(lines: seq<string>): (r: seq<LineInfo>)
    ensures |r| == |lines| && forall k :: 0 <= k < |lines| ==> r[k] == Classify(lines[k])
  {
    seq(|lines|, k requires 0 <= k < |lines| => Classify(lines[k]))
  }

  /** How the scan of the lines ends: at the capacity line with the last
      percentage seen, or at the end of the file. */
  datatype ScanEnd = Captured(percentage: string, capacity: string, line: nat) | Exhausted

  /** The loop of `parse_battery_report` from line `i` on, with the flags
      `reportLineFound`, `percentageFound` and the text `percentage`. */
  function Scan(infos: seq<LineInfo>, i: nat, reportFound: bool, percentFound: bool, percentage: string): ScanEnd
    requires i <= |infos|
    decreases |infos| - i
  {
    if i == |infos| then Exhausted
    else
      var info := infos[i];
      if !reportFound && info.report then
        Scan(infos, i + 1, true, percentFound, percentage)
      else if reportFound && info.percent.Some? then
        Scan(infos, i + 1, reportFound, true, info.percent.value)
      else if percentFound && info.capacity.Some? then
        Captured(percentage, info.capacity.value, i)
      else
        Scan(infos, i + 1, reportFound, percentFound, percentage)
  }

  /** The scan over the whole file, from the initial flags. */
  function ScanReport(lines: seq<string>): ScanEnd {
    Scan(ClassifyAll(lines), 0, false, false, "")
  }

  /** The dictionary `parse_battery_report` returns. */
  datatype BatteryRecord = BatteryRecord(creationtime: int, battery: int, capacity: int)

  /** `int(fname.split('.')[0].split('report')[-1])`. */
  function CreationTime(fname: string): Option<int> {
    ParseInt(Last(Split(Split(fname, ".")[0], "report")))
  }

  /** The creation time is `int()` of the text after the last `report` in
      the part of the name before its first `.`; for a digit run that is its
      decimal value. */
  lemma {:induction false} CreationTimeMeaning(fname: string)
    ensures var stem := Split(fname, ".")[0];
            var p := LastPieceStart(stem, "report");
            && |stem| <= |fname| && stem == fname[..|stem|] && !Contains(stem, ".")
            && (|stem| == |fname| || fname[|stem|] == '.')
            && !Contains(stem[p..], "report")
            && (p == 0 || OccursAt(stem, "report", p - 6))
            && CreationTime(fname) == ParseInt(stem[p..])
            && (IsDigits(stem[p..]) ==> CreationTime(fname) == Some(DigitsValue(stem[p..])))
  {
    var stem := Split(fname, ".")[0];
    SplitFirstPiece(fname, ".");
    SplitLastPiece(stem, "report");
    if |stem| < |fname| {
      assert fname[|stem|..|stem| + 1] == ".";
    }
    var digits := stem[LastPieceStart(stem, "report")..];
    if IsDigits(digits) {
      ParseIntOfDigits(digits);
    }
  }

  /** What `parse_battery_report(fname)` does for a file with these lines:
      `Ok(Some(record))`, `Ok(None)` (markers missing) or the exception that
      `int()` raises for the name or the capacity. */
  function ParseReport(fname: string, lines: seq<string>): Result<Option<BatteryRecord>> {
    match CreationTime(fname)
    case None => Err(ValueError)
    case Some(ct) =>
      match ScanReport(lines)
      case Exhausted => Ok(None)
      case Captured(pct, cap, _) =>
        match (ParseInt(pct), ParseInt(RemoveAll(cap, ',')))
        case (Some(b), Some(c)) => Ok(Some(BatteryRecord(ct, b, c)))
        case _ => Err(ValueError)
  }

  /** `parse_battery_report`: the flag-driven scan of the report lines. */
  method ParseBatteryReport(fname: string, lines: seq<string>) returns (r: Result<Option<BatteryRecord>>)
    ensures r == ParseReport(fname, lines)
  {
    var ct := CreationTime(fname);
    if ct.None? {
      return Err(ValueError);
    }
    ghost var infos := ClassifyAll(lines);
    var reportLineFound := false;
    var percentageFound := false;
    var percentage := "";
    var i := 0;
    while i < |lines|
      invariant i <= |lines|
      invariant Scan(infos, i, reportLineFound, percentageFound, percentage) == ScanReport(lines)
    {
      var line := lines[i];
      assert infos[i] == Classify(line);
      if !reportLineFound && IsReportLine(line) {
        reportLineFound := true;
        i := i + 1;
        continue;
      }
      if reportLineFound {
        var m := PercentGroup(line);
        if m.Some? {
          percentageFound := true;
          percentage := m.value;
          i := i + 1;
          continue;
        }
      }
      if percentageFound {
        var m := CapacityGroup(line);
        if m.Some? {
          var capacity := RemoveAll(m.value, ',');
          var battery := ParseInt(percentage);
          var cap := ParseInt(capacity);
          if battery.None? || cap.None? {
            return Err(ValueError);
          }
          return Ok(Some(BatteryRecord(ct.value, battery.value, cap.value)));
        }
      }
      i := i + 1;
    }
    return Ok(None);
  }

  predicate ReportAt(infos: seq<LineInfo>, a: int) { 0 <= a < |infos| && infos[a].report }

  predicate PercentLineAt(infos: seq<LineInfo>, b: int) { 0 <= b < |infos| && infos[b].percent.Some? }

  /** A capacity line that is not also a percent line (a percent line is
      always consumed as such). */
  predicate CapacityOnlyAt(infos: seq<LineInfo>, c: int) {
    0 <= c < |infos| && infos[c].capacity.Some? && infos[c].percent.None?
  }

  /** A report line, then a percent line, then a capacity-only line, all
      from index `i` on. */
  predicate InOrderFrom(infos: seq<LineInfo>, i: nat) {
    exists a, b, c :: i <= a < b < c < |infos| && ReportAt(infos, a) && PercentLineAt(infos, b) && CapacityOnlyAt(infos, c)
  }

  /** The three markers of a report occur in order in its lines. */
  predicate InOrder(lines: seq<string>) {
    InOrderFrom(ClassifyAll(lines), 0)
  }

  lemma {:induction false} CapturedAfterPercent(infos: seq<LineInfo>, i: nat, pct: string)
    requires i <= |infos|
    ensures Scan(infos, i, true, true, pct).Captured?
        <==> exists c :: i <= c && CapacityOnlyAt(infos, c)
    decreases |infos| - i
  {
    if i < |infos| {
      CapturedAfterPercent(infos, i + 1, if infos[i].percent.Some? then infos[i].percent.value else pct);
      if exists c :: i + 1 <= c && CapacityOnlyAt(infos, c) {
        var c :| i + 1 <= c && CapacityOnlyAt(infos, c);
      }
      if !CapacityOnlyAt(infos, i) && exists c :: i <= c && CapacityOnlyAt(infos, c) {
        var c :| i <= c && CapacityOnlyAt(infos, c);
        assert c != i;
      }
    }
  }

  lemma {:induction false} CapturedAfterReport(infos: seq<LineInfo>, i: nat, pct: string)
    requires i <= |infos|
    ensures Scan(infos, i, true, false, pct).Captured?
        <==> exists b, c :: i <= b < c && PercentLineAt(infos, b) && CapacityOnlyAt(infos, c)
    decreases |infos| - i
  {
    if i < |infos| {
      if infos[i].percent.Some? {
        CapturedAfterPercent(infos, i + 1, infos[i].percent.value);
        if exists c :: i + 1 <= c && CapacityOnlyAt(infos, c) {
          var c :| i + 1 <= c && CapacityOnlyAt(infos, c);
          assert PercentLineAt(infos, i);
        }
      } else {
        CapturedAfterReport(infos, i + 1, pct);
      }
    }
  }

  lemma {:induction false} CapturedFromStart(infos: seq<LineInfo>, i: nat, pct: string)
    requires i <= |infos|
    ensures Scan(infos, i, false, false, pct).Captured? <==> InOrderFrom(infos, i)
    decreases |infos| - i
  {
    if i < |infos| {
      if infos[i].report {
        CapturedAfterReport(infos, i + 1, pct);
        if exists b, c :: i + 1 <= b < c && PercentLineAt(infos, b) && CapacityOnlyAt(infos, c) {
          var b, c :| i + 1 <= b < c && PercentLineAt(infos, b) && CapacityOnlyAt(infos, c);
          assert ReportAt(infos, i);
        }
      } else {
        CapturedFromStart(infos, i + 1, pct);
        if InOrderFrom(infos, i) {
          var a, b, c :| i <= a < b < c < |infos| && ReportAt(infos, a) && PercentLineAt(infos, b) && CapacityOnlyAt(infos, c);
          assert a != i;
        }
      }
    }
  }

  /** The scan reaches a capacity line exactly when a report line, a later
      percent line and a still later capacity line (not itself a percent
      line) exist. The first marker line is used for nothing else, because
      the marker test ends with `continue`; later marker lines are scanned
      like any other line. */
  lemma {:induction false} CapturedIffInOrder(lines: seq<string>)
    ensures ScanReport(lines).Captured? <==> InOrder(lines)
  {
    CapturedFromStart(ClassifyAll(lines), 0, "");
  }

  /** The facts about a capture at line `c` that used percentage `p`: the
      line is a capacity-only line, and `p` comes from the last percent line
      `b` before it, at or after `i`. */
  predicate CaptureFrom(infos: seq<LineInfo>, i: nat, p: string, cap: string, c: nat) {
    && i <= c && CapacityOnlyAt(infos, c) && cap == infos[c].capacity.value
    && exists b :: i <= b < c && PercentLineAt(infos, b) && p == infos[b].percent.value
                   && forall j :: b < j < c ==> !PercentLineAt(infos, j)
  }

  lemma {:induction false} CapturedPercentAfterPercent(infos: seq<LineInfo>, i: nat, pct: string)
    requires i <= |infos|
    ensures match Scan(infos, i, true, true, pct)
      case Exhausted => true
      case Captured(p, cap, c) =>
        || CaptureFrom(infos, i, p, cap, c)
        || (p == pct && i <= c && CapacityOnlyAt(infos, c) && cap == infos[c].capacity.value
            && forall j :: i <= j < c ==> !PercentLineAt(infos, j))
    decreases |infos| - i
  {
    if i < |infos| {
      if infos[i].percent.Some? {
        var g := infos[i].percent.value;
        CapturedPercentAfterPercent(infos, i + 1, g);
        match Scan(infos, i + 1, true, true, g)
        case Exhausted =>
        case Captured(p, cap, c) =>
          if !CaptureFrom(infos, i + 1, p, cap, c) {
            assert PercentLineAt(infos, i);
          }
      } else if infos[i].capacity.None? {
        CapturedPercentAfterPercent(infos, i + 1, pct);
      }
    }
  }

  lemma {:induction false} CapturedPercentAfterReport(infos: seq<LineInfo>, i: nat, pct: string)
    requires i <= |infos|
    ensures match Scan(infos, i, true, false, pct)
      case Exhausted => true
      case Captured(p, cap, c) => CaptureFrom(infos, i, p, cap, c)
    decreases |infos| - i
  {
    if i < |infos| {
      if infos[i].percent.Some? {
        var g := infos[i].percent.value;
        CapturedPercentAfterPercent(infos, i + 1, g);
        match Scan(infos, i + 1, true, true, g)
        case Exhausted =>
        case Captured(p, cap, c) =>
          if !CaptureFrom(infos, i + 1, p, cap, c) {
            assert PercentLineAt(infos, i);
          }
      } else {
        CapturedPercentAfterReport(infos, i + 1, pct);
      }
    }
  }

  lemma {:induction false} CapturedPercentFromStart(infos: seq<LineInfo>, i: nat, pct: string)
    requires i <= |infos|
    ensures match Scan(infos, i, false, false, pct)
      case Exhausted => true
      case Captured(p, cap, c) => CaptureFrom(infos, i, p, cap, c)
    decreases |infos| - i
  {
    if i < |infos| {
      if infos[i].report {
        CapturedPercentAfterReport(infos, i + 1, pct);
      } else {
        CapturedPercentFromStart(infos, i + 1, pct);
      }
    }
  }

  /** The percentage of a record is the one on the LAST percent line before
      the capacity line: a later percent line overwrites an earlier one. */
  lemma {:induction false} CapturedUsesLastPercent(lines: seq<string>)
    ensures match ScanReport(lines)
      case Exhausted => true
      case Captured(p, cap, c) => CaptureFrom(ClassifyAll(lines), 0, p, cap, c)
  {
    CapturedPercentFromStart(ClassifyAll(lines), 0, "");
  }

  /** The fields of a parsed record: the creation time is read from the name,
      the battery percentage is a non-negative digit run, and the capacity is
      `int()` of the capacity text with every comma removed. A file whose
      markers are not in order gives `None`. */
  lemma {:induction false} ParseReportFields(fname: string, lines: seq<string>)
    ensures CreationTime(fname).None? ==> ParseReport(fname, lines) == Err(ValueError)
    ensures CreationTime(fname).Some? && !InOrder(lines) ==> ParseReport(fname, lines) == Ok(None)
    ensures ParseReport(fname, lines).Ok? && ParseReport(fname, lines).value.Some? ==>
      var rec := ParseReport(fname, lines).value.value;
      var s := ScanReport(lines);
      && InOrder(lines) && s.Captured?
      && Some(rec.creationtime) == CreationTime(fname)
      && rec.battery >= 0 && IsDigits(s.percentage) && rec.battery == DigitsValue(s.percentage)
      && Some(rec.capacity) == ParseInt(RemoveAll(s.capacity, ','))
  {
    CapturedIffInOrder(lines);
    match ScanReport(lines)
    case Exhausted =>
    case Captured(p, cap, c) =>
      CapturedUsesLastPercent(lines);
      var infos := ClassifyAll(lines);
      var b :| 0 <= b < c && PercentLineAt(infos, b) && p == infos[b].percent.value
                && forall j :: b < j < c ==> !PercentLineAt(infos, j);
      assert infos[b] == Classify(lines[b]);
      PercentGroupMeaning(lines[b]);
      assert IsDigits(p);
      ParseIntOfDigits(p);
      if ParseReport(fname, lines).Ok? && ParseReport(fname, lines).value.Some? {
        var ct := CreationTime(fname).value;
        var cv := ParseInt(RemoveAll(cap, ',')).value;
        assert ParseReport(fname, lines).value.value == BatteryRecord(ct, DigitsValue(p), cv);
      }
  }

  /** One battery report file: its path and its lines. */
  datatype ReportFile = ReportFile(name: string, lines: seq<string>)

  /** What parsing one report produces: an exception, `None`, or a record. */
  type Outcome = Result<Option<BatteryRecord>>

  /** The outcome of `parse_battery_report` for each file, in walk order. */
  function Outcomes(files: seq<ReportFile>): (outs: seq<Outcome>)
    ensures |outs| == |files|
    ensures forall i :: 0 <= i < |files| ==> outs[i] == ParseReport(files[i].name, files[i].lines)
  {
    seq(|files|, i requires 0 <= i < |files| => ParseReport(files[i].name, files[i].lines))
  }

  /** A parse outcome that `open_battery_reports` can store. */
  predicate Usable(o: Outcome) {
    o.Ok? && o.value.Some?
  }

  /** The dictionary entry one stored record contributes. */
  function KeyOf(rec: BatteryRecord): string {
    IntToString(rec.creationtime)
  }

  /** The loop of `open_battery_reports` over the parse outcomes: the first
      exception any file raises, TypeError for the first file that parses to
      `None` (`None['creationtime']`), or the dictionary. */
  function Collect(outs: seq<Outcome>): Result<map<string, (int, int)>> {
    if |outs| == 0 then Ok(map[])
    else
      var prev :- Collect(outs[..|outs| - 1]);
      var parsed :- outs[|outs| - 1];
      match parsed
      case None => Err(TypeError)
      case Some(rec) => Ok(prev[KeyOf(rec) := (rec.battery, rec.capacity)])
  }

  /** What `open_battery_reports` returns for the files in walk order. */
  function CollectReports(files: seq<ReportFile>): Result<map<string, (int, int)>> {
    Collect(Outcomes(files))
  }

  /** `open_battery_reports`, over the battery report files of the directory
      (`get_paths_from_dir` with the matcher `batteryreport`) and their lines. */
  method OpenBatteryReports(files: seq<ReportFile>) returns (r: Result<map<string, (int, int)>>)
    ensures r == CollectReports(files)
  {
    ghost var outs := Outcomes(files);
    var currdata: map<string, (int, int)> := map[];
    for i := 0 to |files|
      invariant Collect(outs[..i]) == Ok(currdata)
    {
      var data := ParseBatteryReport(files[i].name, files[i].lines);
      CollectStep(outs, i, currdata);
      if data.Err? {
        CollectKeepsFirstError(outs, i + 1);
        return Err(data.error);
      }
      if data.value.None? {
        CollectKeepsFirstError(outs, i + 1);
        return Err(TypeError);
      }
      var rec := data.value.value;
      currdata := currdata[KeyOf(rec) := (rec.battery, rec.capacity)];
    }
    assert outs[..|files|] == outs;
    return Ok(currdata);
  }

  /** Once a prefix of the files fails, the whole collection fails with the
      same exception. */
  lemma {:induction false} CollectKeepsFirstError(outs: seq<Outcome>, i: nat)
    requires i <= |outs| && Collect(outs[..i]).Err?
    ensures Collect(outs) == Collect(outs[..i])
    decreases |outs|
  {
    if i < |outs| {
      var init := outs[..|outs| - 1];
      assert init[..i] == outs[..i];
      CollectKeepsFirstError(init, i);
    } else {
      assert outs[..i] == outs;
    }
  }

  /** One iteration of the loop of `open_battery_reports`. */
  lemma {:induction false} CollectStep(outs: seq<Outcome>, i: nat, m: map<string, (int, int)>)
    requires i < |outs| && Collect(outs[..i]) == Ok(m)
    ensures Collect(outs[..i + 1]) == match outs[i]
      case Err(e) => Err(e)
      case Ok(None) => Err(TypeError)
      case Ok(Some(rec)) => Ok(m[KeyOf(rec) := (rec.battery, rec.capacity)])
  {
    assert outs[..i + 1][..i] == outs[..i];
  }

  /** `open_battery_reports` fails, rather than skipping the file, as soon as
      any report cannot be turned into a record. */
  lemma {:induction false} CollectFailsIffSomeUnusable(outs: seq<Outcome>)
    ensures Collect(outs).Err? <==> exists i :: 0 <= i < |outs| && !Usable(outs[i])
  {
    if |outs| > 0 {
      var init := outs[..|outs| - 1];
      CollectFailsIffSomeUnusable(init);
      if exists i :: 0 <= i < |init| && !Usable(init[i]) {
        var i :| 0 <= i < |init| && !Usable(init[i]);
        assert !Usable(outs[i]);
      }
      if exists i :: 0 <= i < |outs| && !Usable(outs[i]) {
        var i :| 0 <= i < |outs| && !Usable(outs[i]);
        if i < |init| { assert !Usable(init[i]); }
      }
    }
  }

  /** Every key of the dictionary is the key of some record. */
  lemma {:induction false} CollectKeysFromRecords(outs: seq<Outcome>)
    requires Collect(outs).Ok?
    ensures forall k :: k in Collect(outs).value ==>
      exists i :: 0 <= i < |outs| && Usable(outs[i]) && k == KeyOf(outs[i].value.value)
  {
    if |outs| > 0 {
      var n := |outs| - 1;
      var init := outs[..n];
      CollectKeysFromRecords(init);
      forall k | k in Collect(outs).value
        ensures exists i :: 0 <= i < |outs| && Usable(outs[i]) && k == KeyOf(outs[i].value.value)
      {
        if k != KeyOf(outs[n].value.value) {
          var i :| 0 <= i < |init| && Usable(init[i]) && k == KeyOf(init[i].value.value);
          assert init[i] == outs[i];
        }
      }
    }
  }

  /** The entry under a record's key holds the battery and capacity of the
      LAST record with that creation time: a later file overwrites an earlier
      entry. */
  lemma {:induction false} CollectLastRecordWins(outs: seq<Outcome>, i: nat)
    requires forall l :: 0 <= l < |outs| ==> outs[l].Ok? && outs[l].value.Some?
    requires i < |outs|
    ensures Collect(outs).Ok? && KeyOf(outs[i].value.value) in Collect(outs).value
    ensures var t := outs[i].value.value.creationtime;
      exists j ::
        && i <= j < |outs| && Usable(outs[j])
        && outs[j].value.value.creationtime == t
        && Collect(outs).value[KeyOf(outs[i].value.value)]
           == (outs[j].value.value.battery, outs[j].value.value.capacity)
        && forall l :: j < l < |outs| ==> outs[l].value.value.creationtime != t
  {
    var n := |outs| - 1;
    var init := outs[..n];
    var last := outs[n].value.value;
    var t := outs[i].value.value.creationtime;
    CollectAllUsableStep(outs);
    IntToStringInjective(t, last.creationtime);
    if t == last.creationtime {
      assert KeyOf(outs[i].value.value) == KeyOf(last);
      assert Collect(outs).value[KeyOf(last)] == (last.battery, last.capacity);
      assert Usable(outs[n]) && outs[n].value.value == last;
      assert n >= i;
    } else {
      assert init[i] == outs[i];
      CollectLastRecordWins(init, i);
      var j :| && i <= j < |init| && Usable(init[j])
        && init[j].value.value.creationtime == t
        && Collect(init).value[KeyOf(init[i].value.value)]
           == (init[j].value.value.battery, init[j].value.value.capacity)
        && forall l :: j < l < |init| ==> init[l].value.value.creationtime != t;
      assert init[j] == outs[j];
      forall l | j < l < |outs|
        ensures outs[l].value.value.creationtime != t
      {
        if l < n { assert init[l] == outs[l]; }
      }
    }
  }

  /** With every outcome a record, the dictionary exists and the last record
      writes its entry over the dictionary of the others. */
  lemma {:induction false} CollectAllUsableStep(outs: seq<Outcome>)
    requires forall l :: 0 <= l < |outs| ==> outs[l].Ok? && outs[l].value.Some?
    requires |outs| > 0
    ensures forall l :: 0 <= l < |outs| - 1 ==> outs[..|outs| - 1][l] == outs[l]
    ensures Collect(outs[..|outs| - 1]).Ok? && Collect(outs).Ok?
    ensures var last := outs[|outs| - 1].value.value;
            Collect(outs).value == Collect(outs[..|outs| - 1]).value[KeyOf(last) := (last.battery, last.capacity)]
  {
    var init := outs[..|outs| - 1];
    assert forall l :: 0 <= l < |init| ==> init[l] == outs[l];
    CollectFailsIffSomeUnusable(init);
  }

  /** The battery reports, as files: the dictionary fails exactly when some
      file is unusable, and otherwise holds one entry per distinct creation
      time, the last file's. */
  lemma {:induction false} CollectReportsMeaning(files: seq<ReportFile>)
    ensures CollectReports(files).Err? <==>
      exists i :: 0 <= i < |files| && !Usable(ParseReport(files[i].name, files[i].lines))
    ensures CollectReports(files).Ok? ==> forall k :: k in CollectReports(files).value ==>
      exists i :: 0 <= i < |files| && Usable(ParseReport(files[i].name, files[i].lines))
                  && k == KeyOf(ParseReport(files[i].name, files[i].lines).value.value)
  {
    var outs := Outcomes(files);
    CollectFailsIffSomeUnusable(outs);
    if CollectReports(files).Ok? {
      CollectKeysFromRecords(outs);
    }
  }
}
