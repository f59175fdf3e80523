/** wpaparser.py: the header/data split of a WPA export, the start and stop
    markers of a recording, and the trim of a series to that window. */
module WpaParser {
  import opened Common
  import opened Text

  /** The rows of a CSV file: row 0 is the header, the rest is data. */
  method OpenWpaCsv(rows: seq<seq<string>>) returns (header: seq<string>, data: seq<seq<string>>)
    ensures |rows| == 0 ==> header == [] && data == []
    ensures |rows| > 0 ==> header == rows[0] && data == rows[1..]
  {
    header := [];
    data := [];
    for i := 0 to |rows|
      invariant i > 0 ==> header == rows[0] && data == rows[1..i]
      invariant i == 0 ==> header == [] && data == []
    {
      var row := rows[i];
      if i == 0 {
        header := row;
        continue;
      }
      data := data + [row];
    }
  }

  // ---------------------------------------------------------------------
  // get_borders

  /** A row is the start marker when its command (column 5) runs `wpr.exe -start`. */
  predicate IsStart(row: seq<string>)
    requires |row| >= 8
  {
    Contains(row[5], "wpr.exe -start")
  }

  /** A row is the stop marker when, not being the start marker, its command
      names `wpr.exe` and a `stop-` profile. */
  predicate IsStop(row: seq<string>)
    requires |row| >= 8
  {
    !IsStart(row) && Contains(row[5], "wpr.exe") && Contains(row[5], "stop-")
  }

  /** `np.asmatrix(data)[:, 5..7]` needs data and at least eight columns. */
  predicate HasColumns(data: seq<seq<string>>) {
    |data| > 0 && forall i :: 0 <= i < |data| ==> |data[i]| >= 8
  }

  /** The markers the scan has seen; `None` is a marker not found. */
  datatype Markers = Markers(start: Option<real>, end: Option<real>)

  /** The scan: a start marker sets the start to its end time (column 7), a
      stop marker sets the end to its start time (column 6); the last marker
      of each kind wins, and an unreadable time raises ValueError. */
  function ScanMarkers(data: seq<seq<string>>, toFloat: string -> Option<real>): Result<Markers>
    requires forall i :: 0 <= i < |data| ==> |data[i]| >= 8
  {
    if |data| == 0 then Ok(Markers(None, None))
    else
      var prev :- ScanMarkers(data[..|data| - 1], toFloat);
      MarkerStep(prev, data[|data| - 1], toFloat)
  }

  /** One row of the scan. */
  function MarkerStep(prev: Markers, row: seq<string>, toFloat: string -> Option<real>): Result<Markers>
    requires |row| >= 8
  {
    if IsStart(row) then
      match toFloat(row[7])
      case None => Err(ValueError)
      case Some(v) => Ok(prev.(start := Some(v)))
    else if IsStop(row) then
      match toFloat(row[6])
      case None => Err(ValueError)
      case Some(v) => Ok(prev.(end := Some(v)))
    else Ok(prev)
  }

  lemma {:induction false} ScanPrefixStep(data: seq<seq<string>>, i: nat, toFloat: string -> Option<real>)
    requires forall i :: 0 <= i < |data| ==> |data[i]| >= 8
    requires i < |data| && ScanMarkers(data[..i], toFloat).Ok?
    ensures ScanMarkers(data[..i + 1], toFloat) == MarkerStep(ScanMarkers(data[..i], toFloat).value, data[i], toFloat)
  {
    assert data[..i + 1][..i] == data[..i];
  }

  /** Python truthiness of an optional time: `None` and `0.0` are falsy. */
  predicate Truthy(t: Option<real>) {
    t.Some? && t.value != 0.0
  }

  /** The fallbacks: a missing end is the start plus the test time, a missing
      start is the end minus the test time; presence is truthiness. With no
      start at all (`None`) the addition raises TypeError. */
  function Borders(m: Markers, testtime: real): (r: Result<(real, real)>)
    ensures Truthy(m.start) && Truthy(m.end) ==> r == Ok((m.start.value, m.end.value))
    ensures Truthy(m.start) && !Truthy(m.end) ==> r == Ok((m.start.value, m.start.value + testtime))
    ensures !Truthy(m.start) && Truthy(m.end) ==> r == Ok((m.end.value - testtime, m.end.value))
    ensures m.start.None? && !Truthy(m.end) ==> r == Err(TypeError)
    ensures m.start == Some(0.0) && !Truthy(m.end) ==> r == Ok((0.0, testtime))
  {
    if !Truthy(m.end) then
      if m.start.None? then Err(TypeError) else Ok((m.start.value, m.start.value + testtime))
    else if !Truthy(m.start) then Ok((m.end.value - testtime, m.end.value))
    else Ok((m.start.value, m.end.value))
  }

  /** What `get_borders` returns for the rows of the command table. */
  function BordersOf(rows: seq<seq<string>>, testtime: real, toFloat: string -> Option<real>): Result<(real, real)>
  {
    var data := if |rows| == 0 then [] else rows[1..];
    if !HasColumns(data) then Err(IndexError)
    else
      var m :- ScanMarkers(data, toFloat);
      Borders(m, testtime)
  }

  method GetBorders(commandRows: seq<seq<string>>, testtime: real, toFloat: string -> Option<real>)
    returns (r: Result<(real, real)>)
    ensures r == BordersOf(commandRows, testtime, toFloat)
  {
    var header, data := OpenWpaCsv(commandRows);
    if !HasColumns(data) {
      return Err(IndexError);
    }
    var starttime: Option<real> := None;
    var endtime: Option<real> := None;
    for i := 0 to |data|
      invariant ScanMarkers(data[..i], toFloat) == Ok(Markers(starttime, endtime))
    {
      var row := data[i];
      ScanPrefixStep(data, i, toFloat);
      var command := row[5];
      if Contains(command, "wpr.exe -start") {
        var v := toFloat(row[7]);
        if v.None? {
          ScanKeepsFirstError(data, i + 1, toFloat);
          return Err(ValueError);
        }
        starttime := Some(v.value);
      } else if Contains(command, "wpr.exe") && Contains(command, "stop-") {
        var v := toFloat(row[6]);
        if v.None? {
          ScanKeepsFirstError(data, i + 1, toFloat);
          return Err(ValueError);
        }
        endtime := Some(v.value);
      }
    }
    assert data[..|data|] == data;
    if !Truthy(endtime) {
      if starttime.None? {
        return Err(TypeError);
      }
      endtime := Some(starttime.value + testtime);
    } else if !Truthy(starttime) {
      starttime := Some(endtime.value - testtime);
    }
    r := Ok((starttime.value, endtime.value));
  }

  lemma {:induction false} ScanKeepsFirstError(data: seq<seq<string>>, k: nat, toFloat: string -> Option<real>)
    requires forall i :: 0 <= i < |data| ==> |data[i]| >= 8
    requires k <= |data| && ScanMarkers(data[..k], toFloat).Err?
    ensures ScanMarkers(data, toFloat) == ScanMarkers(data[..k], toFloat)
    decreases |data| - k
  {
    if k < |data| {
      assert data[..k + 1][..k] == data[..k];
      ScanKeepsFirstError(data, k + 1, toFloat);
    } else {
      assert data[..k] == data;
    }
  }

  /** The scan fails exactly when some marker row's time is unreadable. */
  lemma {:induction false} ScanErrIff(data: seq<seq<string>>, toFloat: string -> Option<real>)
    requires forall i :: 0 <= i < |data| ==> |data[i]| >= 8
    ensures ScanMarkers(data, toFloat).Err? <==>
              exists i :: 0 <= i < |data| && ((IsStart(data[i]) && toFloat(data[i][7]).None?)
                                            || (IsStop(data[i]) && toFloat(data[i][6]).None?))
    ensures ScanMarkers(data, toFloat).Err? ==> ScanMarkers(data, toFloat).error == ValueError
  {
    if |data| > 0 {
      var init := data[..|data| - 1];
      ScanErrIff(init, toFloat);
      assert forall i :: 0 <= i < |init| ==> init[i] == data[i];
    }
  }

  /** The start is the end time of the last start-marker row, and None when
      there is none; the end is the start time of the last stop-marker row. */
  lemma {:induction false} ScanLastMarkerWins(data: seq<seq<string>>, toFloat: string -> Option<real>)
    requires forall i :: 0 <= i < |data| ==> |data[i]| >= 8
    requires ScanMarkers(data, toFloat).Ok?
    ensures var m := ScanMarkers(data, toFloat).value;
            && (m.start.None? <==> forall i :: 0 <= i < |data| ==> !IsStart(data[i]))
            && (m.start.Some? ==> exists i :: && 0 <= i < |data| && IsStart(data[i])
                                                && toFloat(data[i][7]) == Some(m.start.value)
                                                && forall j :: i < j < |data| ==> !IsStart(data[j]))
            && (m.end.None? <==> forall i :: 0 <= i < |data| ==> !IsStop(data[i]))
            && (m.end.Some? ==> exists i :: && 0 <= i < |data| && IsStop(data[i])
                                              && toFloat(data[i][6]) == Some(m.end.value)
                                              && forall j :: i < j < |data| ==> !IsStop(data[j]))
  {
    ScanLastStartWins(data, toFloat);
    ScanLastStopWins(data, toFloat);
  }

  lemma {:induction false} ScanLastStartWins(data: seq<seq<string>>, toFloat: string -> Option<real>)
    requires forall i :: 0 <= i < |data| ==> |data[i]| >= 8
    requires ScanMarkers(data, toFloat).Ok?
    ensures var m := ScanMarkers(data, toFloat).value;
            && (m.start.None? <==> forall i :: 0 <= i < |data| ==> !IsStart(data[i]))
            && (m.start.Some? ==> exists i :: && 0 <= i < |data| && IsStart(data[i])
                                                && toFloat(data[i][7]) == Some(m.start.value)
                                                && forall j :: i < j < |data| ==> !IsStart(data[j]))
  {
    if |data| > 0 {
      var n := |data|;
      var init := data[..n - 1];
      assert forall i :: 0 <= i < |init| ==> init[i] == data[i];
      ScanLastStartWins(init, toFloat);
      var prev := ScanMarkers(init, toFloat).value;
      var m := ScanMarkers(data, toFloat).value;
      if IsStart(data[n - 1]) {
        assert m.start == toFloat(data[n - 1][7]);
      } else {
        assert m.start == prev.start;
      }
    }
  }

  lemma {:induction false} ScanLastStopWins(data: seq<seq<string>>, toFloat: string -> Option<real>)
    requires forall i :: 0 <= i < |data| ==> |data[i]| >= 8
    requires ScanMarkers(data, toFloat).Ok?
    ensures var m := ScanMarkers(data, toFloat).value;
            && (m.end.None? <==> forall i :: 0 <= i < |data| ==> !IsStop(data[i]))
            && (m.end.Some? ==> exists i :: && 0 <= i < |data| && IsStop(data[i])
                                              && toFloat(data[i][6]) == Some(m.end.value)
                                              && forall j :: i < j < |data| ==> !IsStop(data[j]))
  {
    if |data| > 0 {
      var n := |data|;
      var init := data[..n - 1];
      assert forall i :: 0 <= i < |init| ==> init[i] == data[i];
      ScanLastStopWins(init, toFloat);
      var prev := ScanMarkers(init, toFloat).value;
      var m := ScanMarkers(data, toFloat).value;
      if IsStop(data[n - 1]) {
        assert m.end == toFloat(data[n - 1][6]);
      } else {
        assert m.end == prev.end;
      }
    }
  }

  /** When exactly one marker is present the window is `testtime` long. */
  lemma {:induction false} BordersFallbackWindow(m: Markers, testtime: real)
    requires Truthy(m.start) != Truthy(m.end)
    ensures Borders(m, testtime).Ok?
    ensures Borders(m, testtime).value.1 - Borders(m, testtime).value.0 == testtime
  {
  }

  // ---------------------------------------------------------------------
  // The time-window trim of get_wpa_data

  /** The first index whose time is at least `bound`. */
  function FirstAtLeast(ts: seq<real>, bound: real): (r: Option<nat>)
    ensures r.Some? ==> r.value < |ts|
  {
    if |ts| == 0 then None
    else if ts[0] >= bound then Some(0)
    else match FirstAtLeast(ts[1..], bound)
         case None => None
         case Some(k) => Some(k + 1)
  }

  /** `first_ind`: where the trimmed series starts (0 when the series does
      not start before `starttime`, or never reaches it). */
  function DropIndex(ts: seq<real>, starttime: real): (lo: nat)
    requires |ts| > 0
    ensures lo < |ts|
  {
    if ts[0] < starttime then
      match FirstAtLeast(ts, starttime)
      case Some(i) => i
      case None => 0
    else 0
  }

  /** The start cut is at the first time reaching `starttime` when the series
      starts before it and some time reaches it, and at 0 otherwise. */
  lemma {:induction false} DropIndexMeaning(ts: seq<real>, starttime: real)
    requires |ts| > 0
    ensures var lo := DropIndex(ts, starttime);
            (ts[0] < starttime && exists j :: 0 <= j < |ts| && ts[j] >= starttime) ==>
              ts[lo] >= starttime && forall j :: 0 <= j < lo ==> ts[j] < starttime
    ensures !(ts[0] < starttime && exists j :: 0 <= j < |ts| && ts[j] >= starttime) ==> DropIndex(ts, starttime) == 0
  {
    FirstAtLeastMeaning(ts, starttime);
  }

  /** `last_ind + 1`: how many times the end trim keeps, all of them when the
      series does not end after `endtime`. */
  function KeepCount(ts: seq<real>, endtime: real): (h: nat)
    requires |ts| > 0
    ensures 1 <= h <= |ts|
  {
    if ts[|ts| - 1] > endtime then KeepThrough(ts, endtime) else |ts|
  }

  /** When the series ends after `endtime` the end cut keeps everything up to
      and including the first time reaching it; otherwise everything. */
  lemma {:induction false} KeepCountMeaning(ts: seq<real>, endtime: real)
    requires |ts| > 0
    ensures var h := KeepCount(ts, endtime);
            ts[|ts| - 1] > endtime ==> ts[h - 1] >= endtime && forall j :: 0 <= j < h - 1 ==> ts[j] < endtime
    ensures ts[|ts| - 1] <= endtime ==> KeepCount(ts, endtime) == |ts|
  {
    FirstAtLeastMeaning(ts, endtime);
  }

  /** The end search of the trim: through the first time reaching `endtime`,
      the whole series when none does. */
  function KeepThrough(ts: seq<real>, endtime: real): nat {
    match FirstAtLeast(ts, endtime)
    case Some(i) => i + 1
    case None => |ts|
  }

  datatype Window = Window(times: seq<real>, data: seq<real>)

  /** The trim: `times[0]` raises IndexError on an empty series; both steps
      reslice `times` and `data` with the same bounds, Python-clamped. (The
      source slices only when a step applies; slicing from 0, or up to the
      length, changes nothing.) */
  function TrimWindow(times: seq<real>, data: seq<real>, starttime: real, endtime: real): Result<Window>
  {
    if |times| == 0 then Err(IndexError)
    else
      var lo := DropIndex(times, starttime);
      var t1 := times[lo..];
      var d1 := Slice(data, lo, |data|);
      var h := KeepCount(t1, endtime);
      var d2 := if t1[|t1| - 1] > endtime then Slice(d1, 0, h) else d1;
      Ok(Window(t1[..h], d2))
  }

  /** One of the two search loops: the first index whose time reaches
      `bound`, `otherwise` when none does. */
  method FindFirstAtLeast(ts: seq<real>, bound: real, otherwise: nat) returns (ind: nat)
    ensures ind == match FirstAtLeast(ts, bound) case Some(i) => i case None => otherwise
  {
    ind := otherwise;
    for i := 0 to |ts|
      invariant forall j :: 0 <= j < i ==> ts[j] < bound
    {
      if ts[i] < bound {
        continue;
      }
      FirstAtLeastIs(ts, bound, i);
      ind := i;
      return;
    }
    FirstAtLeastMeaning(ts, bound);
  }

  /** The trim of `get_wpa_data`. */
  method TrimToWindow(times: seq<real>, data: seq<real>, starttime: real, endtime: real) returns (r: Result<Window>)
    ensures r == TrimWindow(times, data, starttime, endtime)
  {
    if |times| == 0 {
      return Err(IndexError);
    }
    var ts, ds := TrimStart(times, data, starttime);
    ts, ds := TrimEnd(ts, ds, endtime);
    r := Ok(Window(ts, ds));
  }

  /** The start step of the trim: when the series starts before `starttime`,
      both lists lose the times before the first one reaching it. */
  method TrimStart(times: seq<real>, data: seq<real>, starttime: real) returns (ts: seq<real>, ds: seq<real>)
    requires |times| > 0
    ensures ts == times[DropIndex(times, starttime)..]
    ensures ds == Slice(data, DropIndex(times, starttime), |data|)
  {
    ts, ds := times, data;
    if ts[0] < starttime {
      var firstInd := FindFirstAtLeast(ts, starttime, 0);
      ts := ts[firstInd..];
      ds := Slice(ds, firstInd, |ds|);
    } else {
      assert data[0..|data|] == data;
    }
  }

  /** The end step of the trim: when the series ends after `endtime`, both
      lists keep the times up to and including the first one reaching it. */
  method TrimEnd(times: seq<real>, data: seq<real>, endtime: real) returns (ts: seq<real>, ds: seq<real>)
    requires |times| > 0
    ensures ts == times[..KeepCount(times, endtime)]
    ensures ds == if times[|times| - 1] > endtime then Slice(data, 0, KeepCount(times, endtime)) else data
  {
    ts, ds := times, data;
    if ts[|ts| - 1] > endtime {
      var lastInd := FindFirstAtLeast(ts, endtime, |ts| - 1);
      ts := ts[..lastInd + 1];
      ds := Slice(ds, 0, lastInd + 1);
    } else {
      assert times[..|times|] == times;
    }
  }

  /** The search finds a time reaching `bound` with none before it, and
      finds nothing only when no time reaches it. */
  lemma {:induction false} FirstAtLeastMeaning(ts: seq<real>, bound: real)
    ensures FirstAtLeast(ts, bound).Some? ==>
      var i := FirstAtLeast(ts, bound).value;
      ts[i] >= bound && forall j :: 0 <= j < i ==> ts[j] < bound
    ensures FirstAtLeast(ts, bound).None? ==> forall j :: 0 <= j < |ts| ==> ts[j] < bound
    decreases |ts|
  {
    if |ts| > 0 && ts[0] < bound {
      FirstAtLeastMeaning(ts[1..], bound);
      assert forall j :: 1 <= j < |ts| ==> ts[j] == ts[1..][j - 1];
    }
  }

  /** The first index at or above the bound is the one the search finds. */
  lemma {:induction false} FirstAtLeastIs(ts: seq<real>, bound: real, i: nat)
    requires i < |ts| && ts[i] >= bound
    requires forall j :: 0 <= j < i ==> ts[j] < bound
    ensures FirstAtLeast(ts, bound) == Some(i)
    decreases i
  {
    if i > 0 {
      assert ts[0] < bound;
      var rest := ts[1..];
      assert forall j :: 0 <= j < i - 1 ==> rest[j] == ts[j + 1];
      FirstAtLeastIs(rest, bound, i - 1);
    }
  }

  /** The trim fails only on an empty series and keeps the non-empty run
      `times[lo..lo + h]`: it starts at the first time reaching `starttime`
      (when the series starts before it and some time reaches it) and ends
      at the first time reaching `endtime` (when the series ends after it).
      `data` is cut with the same bounds, so equal lengths stay equal. */
  lemma {:induction false} TrimWindowMeaning(times: seq<real>, data: seq<real>, starttime: real, endtime: real)
    ensures TrimWindow(times, data, starttime, endtime).Err? <==> |times| == 0
    ensures TrimWindow(times, data, starttime, endtime).Ok? ==>
              var w := TrimWindow(times, data, starttime, endtime).value;
              var lo := DropIndex(times, starttime);
              var h := KeepCount(times[lo..], endtime);
              && |w.times| > 0
              && lo + h <= |times|
              && w.times == times[lo..lo + h]
              && (|data| == |times| ==> w.data == data[lo..lo + h] && |w.data| == |w.times|)
              && ((exists j :: 0 <= j < |times| && times[j] >= starttime) ==> w.times[0] >= starttime)
              && (times[|times| - 1] > endtime ==>
                    && w.times[|w.times| - 1] >= endtime
                    && forall k :: 0 <= k < |w.times| - 1 ==> w.times[k] < endtime)
  {
    if |times| > 0 {
      TrimWindowTimes(times, data, starttime, endtime);
      TrimWindowData(times, data, starttime, endtime);
      TrimWindowStart(times, data, starttime, endtime);
      TrimWindowEnd(times, data, starttime, endtime);
    }
  }

  lemma {:induction false} TrimWindowTimes(times: seq<real>, data: seq<real>, starttime: real, endtime: real)
    requires |times| > 0
    ensures var lo := DropIndex(times, starttime);
            var h := KeepCount(times[lo..], endtime);
            && TrimWindow(times, data, starttime, endtime).Ok?
            && lo + h <= |times| && h >= 1
            && TrimWindow(times, data, starttime, endtime).value.times == times[lo..lo + h]
  {
    var lo := DropIndex(times, starttime);
    var t1 := times[lo..];
    var h := KeepCount(t1, endtime);
    assert t1[..h] == times[lo..lo + h];
  }

  lemma {:induction false} TrimWindowData(times: seq<real>, data: seq<real>, starttime: real, endtime: real)
    requires |times| > 0
    ensures var lo := DropIndex(times, starttime);
            var h := KeepCount(times[lo..], endtime);
            |data| == |times| ==> TrimWindow(times, data, starttime, endtime).value.data == data[lo..lo + h]
  {
    var lo := DropIndex(times, starttime);
    var t1 := times[lo..];
    var h := KeepCount(t1, endtime);
    if |data| == |times| {
      var d1 := Slice(data, lo, |data|);
      assert d1 == data[lo..];
      if t1[|t1| - 1] > endtime {
        assert d1[..h] == data[lo..lo + h];
      } else {
        KeepCountMeaning(t1, endtime);
        assert d1 == data[lo..lo + h];
      }
    }
  }

  lemma {:induction false} TrimWindowStart(times: seq<real>, data: seq<real>, starttime: real, endtime: real)
    requires |times| > 0
    ensures (exists j :: 0 <= j < |times| && times[j] >= starttime) ==>
              TrimWindow(times, data, starttime, endtime).value.times[0] >= starttime
  {
    DropIndexMeaning(times, starttime);
    var lo := DropIndex(times, starttime);
    assert TrimWindow(times, data, starttime, endtime).value.times[0] == times[lo];
  }

  lemma {:induction false} TrimWindowEnd(times: seq<real>, data: seq<real>, starttime: real, endtime: real)
    requires |times| > 0
    ensures var w := TrimWindow(times, data, starttime, endtime).value;
            times[|times| - 1] > endtime ==>
              && w.times[|w.times| - 1] >= endtime
              && forall k :: 0 <= k < |w.times| - 1 ==> w.times[k] < endtime
  {
    var lo := DropIndex(times, starttime);
    var t1 := times[lo..];
    assert t1[|t1| - 1] == times[|times| - 1];
    var h := KeepCount(t1, endtime);
    KeepCountMeaning(t1, endtime);
    var w := TrimWindow(times, data, starttime, endtime).value;
    assert w.times == t1[..h];
  }
}
