/** comparisons.py: consumption averages, battery deltas, the time cut and the
    index-finding blocks of `compare_data`, each block as its own member. */
module Comparisons {
  import opened Common

  /** Seconds between two battery samples (`DIST_BETWEEN_SAMPLES`). */
  const DistBetweenSamples: int := 60

  /** Moving-average windows for the capacity series and for its deltas. */
  const CapacityWindow: nat := 20
  const DeltaWindow: nat := 15

  /** `milliwatthours_to_millijoules` and `millijoules_to_milliwatts`, which
      the module imports but which are not defined in utils.py. */
  datatype Converters = Converters(mwhToMj: real -> real, mjToMw: (real, real) -> real)

  /** Converters that pass a capacity difference through unchanged. */
  const PassThrough: Converters := Converters(x => x, (e, t) => e)

  /** Python's `sum` over reals. */
  function Sum(s: seq<real>): real {
    if |s| == 0 then 0.0 else Sum(s[..|s| - 1]) + s[|s| - 1]
  }

  lemma {:induction false} SumConcat(a: seq<real>, b: seq<real>)
    ensures Sum(a + b) == Sum(a) + Sum(b)
    decreases |b|
  {
    if |b| == 0 {
      assert a + b == a;
    } else {
      var init := b[..|b| - 1];
      SumConcat(a, init);
      assert (a + b)[..|a + b| - 1] == a + init;
    }
  }

  /** The sum of `s[lo..hi]` is a difference of two prefix sums. */
  lemma {:induction false} SumSlice(s: seq<real>, lo: nat, hi: nat)
    requires lo <= hi <= |s|
    ensures Sum(s[lo..hi]) == Sum(s[..hi]) - Sum(s[..lo])
  {
    SumConcat(s[..lo], s[lo..hi]);
    assert s[..lo] + s[lo..hi] == s[..hi];
  }

  lemma {:induction false} SumConstant(s: seq<real>, c: real)
    requires forall i :: 0 <= i < |s| ==> s[i] == c
    ensures Sum(s) == |s| as real * c
  {
    if |s| > 0 {
      SumConstant(s[..|s| - 1], c);
    }
  }

  function Abs(x: real): real { if x < 0.0 then -x else x }

  // ---------------------------------------------------------------------
  // get_avg_consumption_rate

  /** Python truthiness of the optional `consumption_from` list. */
  predicate Selecting(from: Option<seq<string>>) {
    from.Some? && |from.value| > 0
  }

  /** The entries of `row` whose column name is listed in `from`, in order. */
  function SelectColumns(row: seq<real>, header: seq<string>, from: seq<string>): seq<real>
    requires |row| <= |header|
  {
    if |row| == 0 then []
    else SelectColumns(row[..|row| - 1], header, from)
         + (if header[|row| - 1] in from then [row[|row| - 1]] else [])
  }

  /** The list comprehension over one row: all of it when nothing is selected;
      otherwise `header[i]` is read for every entry, which fails on a missing
      header (TypeError) or one shorter than the row (IndexError). */
  function KeptValues(row: seq<real>, header: Option<seq<string>>, from: Option<seq<string>>): (r: Result<seq<real>>)
    ensures !Selecting(from) ==> r == Ok(row)
    ensures r.Err? <==> Selecting(from) && |row| > 0 && (header.None? || |row| > |header.value|)
    ensures r.Err? ==> (r.error == TypeError <==> header.None?)
  {
    if !Selecting(from) || |row| == 0 then Ok(row)
    else if header.None? then Err(TypeError)
    else if |row| > |header.value| then Err(IndexError)
    else Ok(SelectColumns(row, header.value, from.value))
  }

  /** The `consumption` list: the kept values of every row, first error wins. */
  function Consumption(rows: seq<seq<real>>, header: Option<seq<string>>, from: Option<seq<string>>): Result<seq<seq<real>>>
  {
    if |rows| == 0 then Ok([])
    else
      var init :- Consumption(rows[..|rows| - 1], header, from);
      var kept :- KeptValues(rows[|rows| - 1], header, from);
      Ok(init + [kept])
  }

  /** How many tuples `zip(*cols)` yields: the shortest row's length. */
  function Width(cols: seq<seq<real>>): (w: nat)
    ensures forall j :: 0 <= j < |cols| ==> w <= |cols[j]|
    ensures |cols| > 0 ==> exists j :: 0 <= j < |cols| && w == |cols[j]|
  {
    if |cols| == 0 then 0
    else if |cols| == 1 then |cols[0]|
    else Min(Width(cols[..|cols| - 1]), |cols[|cols| - 1]|)
  }

  /** Tuple `c` of `zip(*cols)`. */
  function Column(cols: seq<seq<real>>, c: nat): (r: seq<real>)
    requires forall j :: 0 <= j < |cols| ==> c < |cols[j]|
    ensures |r| == |cols| && forall j :: 0 <= j < |cols| ==> r[j] == cols[j][c]
  {
    seq(|cols|, j requires 0 <= j < |cols| => cols[j][c])
  }

  /** What `get_avg_consumption_rate` returns. */
  function ConsumptionRate(rows: seq<seq<real>>, totalTime: real, milliwatthour: bool,
                           header: Option<seq<string>>, from: Option<seq<string>>): Result<seq<real>>
  {
    var cons :- Consumption(rows, header, from);
    Averages(cons, Divisor(milliwatthour, totalTime))
  }

  /** 3600 in milliwatt-hour mode, `total_time` otherwise. */
  function Divisor(milliwatthour: bool, totalTime: real): real {
    if milliwatthour then 3600.0 else totalTime
  }

  /** `[sum(x)/divisor for x in zip(*cons)]`. */
  function Averages(cons: seq<seq<real>>, divisor: real): Result<seq<real>> {
    var w := Width(cons);
    if w > 0 && divisor == 0.0 then Err(ZeroDivisionError)
    else Ok(seq(w, c requires 0 <= c < w => Sum(Column(cons, c)) / divisor))
  }

  method GetAvgConsumptionRate(orderedDatalist: seq<seq<real>>, totalTime: real, milliwatthour: bool,
                               header: Option<seq<string>>, consumptionFrom: Option<seq<string>>)
    returns (r: Result<seq<real>>)
    ensures r == ConsumptionRate(orderedDatalist, totalTime, milliwatthour, header, consumptionFrom)
  {
    var consumption: seq<seq<real>> := [];
    for k := 0 to |orderedDatalist|
      invariant Consumption(orderedDatalist[..k], header, consumptionFrom) == Ok(consumption)
    {
      var row := orderedDatalist[k];
      assert orderedDatalist[..k + 1][..k] == orderedDatalist[..k];
      var kept := KeptValues(row, header, consumptionFrom);
      if kept.Err? {
        ConsumptionKeepsFirstError(orderedDatalist, k + 1, header, consumptionFrom);
        return Err(kept.error);
      }
      consumption := consumption + [kept.value];
    }
    assert orderedDatalist[..|orderedDatalist|] == orderedDatalist;
    var w := Width(consumption);
    var divisor := Divisor(milliwatthour, totalTime);
    if w > 0 && divisor == 0.0 {
      return Err(ZeroDivisionError);
    }
    r := Ok(seq(w, c requires 0 <= c < w => Sum(Column(consumption, c)) / divisor));
  }

  lemma {:induction false} ConsumptionKeepsFirstError(rows: seq<seq<real>>, k: nat, header: Option<seq<string>>, from: Option<seq<string>>)
    requires k <= |rows| && Consumption(rows[..k], header, from).Err?
    ensures Consumption(rows, header, from) == Consumption(rows[..k], header, from)
    decreases |rows| - k
  {
    if k < |rows| {
      assert rows[..k + 1][..k] == rows[..k];
      ConsumptionKeepsFirstError(rows, k + 1, header, from);
    } else {
      assert rows[..k] == rows;
    }
  }

  /** The consumption list succeeds iff every row's comprehension does, and
      then holds exactly the kept values of each row. */
  lemma {:induction false} ConsumptionRows(rows: seq<seq<real>>, header: Option<seq<string>>, from: Option<seq<string>>)
    ensures Consumption(rows, header, from).Ok?
            <==> forall j :: 0 <= j < |rows| ==> KeptValues(rows[j], header, from).Ok?
    ensures Consumption(rows, header, from).Ok? ==>
              var cons := Consumption(rows, header, from).value;
              |cons| == |rows| && forall j :: 0 <= j < |rows| ==> cons[j] == KeptValues(rows[j], header, from).value
  {
    if |rows| > 0 {
      var init := rows[..|rows| - 1];
      ConsumptionRows(init, header, from);
      assert forall j :: 0 <= j < |init| ==> init[j] == rows[j];
    }
  }

  /** Every selected value is the entry of a column named in `from`. */
  lemma {:induction false} SelectColumnsFrom(row: seq<real>, header: seq<string>, from: seq<string>, x: real)
    requires |row| <= |header|
    ensures x in SelectColumns(row, header, from)
            <==> exists i :: 0 <= i < |row| && header[i] in from && row[i] == x
  {
    if |row| > 0 {
      SelectColumnsFrom(row[..|row| - 1], header, from, x);
    }
  }

  /** The positions `i < n` whose header is named in `from`, in increasing
      order. */
  function SelectedPositions(n: nat, header: seq<string>, from: seq<string>): seq<nat>
    requires n <= |header|
  {
    if n == 0 then []
    else SelectedPositions(n - 1, header, from) + (if header[n - 1] in from then [n - 1] else [])
  }

  /** The selected positions are exactly the positions below `n` whose
      header is in `from`, strictly increasing. */
  lemma {:induction false} SelectedPositionsMeaning(n: nat, header: seq<string>, from: seq<string>)
    requires n <= |header|
    ensures forall k :: 0 <= k < |SelectedPositions(n, header, from)| ==>
              SelectedPositions(n, header, from)[k] < n && header[SelectedPositions(n, header, from)[k]] in from
    ensures forall k, l :: 0 <= k < l < |SelectedPositions(n, header, from)| ==>
              SelectedPositions(n, header, from)[k] < SelectedPositions(n, header, from)[l]
    ensures forall i :: 0 <= i < n && header[i] in from ==> i in SelectedPositions(n, header, from)
  {
    if n > 0 {
      var m: nat := n - 1;
      SelectedPositionsMeaning(m, header, from);
      var prev := SelectedPositions(m, header, from);
      if header[m] in from {
        assert SelectedPositions(n, header, from) == prev + [m];
        SelectedPositionsAppend(prev, m, header, from);
      } else {
        assert SelectedPositions(n, header, from) == prev + [];
        assert prev + [] == prev;
      }
    }
  }

  /** Appending a selected position above all earlier ones keeps the list
      increasing and adds it to the positions. */
  lemma {:induction false} SelectedPositionsAppend(prev: seq<nat>, m: nat, header: seq<string>, from: seq<string>)
    requires m < |header| && header[m] in from
    requires forall k :: 0 <= k < |prev| ==> prev[k] < m && header[prev[k]] in from
    requires forall k, l :: 0 <= k < l < |prev| ==> prev[k] < prev[l]
    requires forall i :: 0 <= i < m && header[i] in from ==> i in prev
    ensures forall k :: 0 <= k < |prev + [m]| ==> (prev + [m])[k] < m + 1 && header[(prev + [m])[k]] in from
    ensures forall k, l :: 0 <= k < l < |prev + [m]| ==> (prev + [m])[k] < (prev + [m])[l]
    ensures forall i :: 0 <= i < m + 1 && header[i] in from ==> i in prev + [m]
  {
    var idx := prev + [m];
    assert forall k :: 0 <= k < |prev| ==> idx[k] == prev[k];
    assert idx[|prev|] == m;
  }

  /** Entry `k` of the selection is the row's value at the `k`-th selected
      position: the comprehension keeps every named column once, in column
      order. */
  lemma {:induction false} SelectColumnsPositions(row: seq<real>, header: seq<string>, from: seq<string>)
    requires |row| <= |header|
    ensures var idx := SelectedPositions(|row|, header, from);
            var r := SelectColumns(row, header, from);
            && |r| == |idx|
            && forall k :: 0 <= k < |idx| ==> idx[k] < |row| && r[k] == row[idx[k]]
  {
    SelectedPositionsMeaning(|row|, header, from);
    if |row| > 0 {
      var n := |row|;
      var init := row[..n - 1];
      SelectColumnsPositions(init, header, from);
      SelectedPositionsMeaning(n - 1, header, from);
      var prev := SelectedPositions(n - 1, header, from);
      var idx := SelectedPositions(n, header, from);
      var r := SelectColumns(row, header, from);
      var rp := SelectColumns(init, header, from);
      assert idx == prev + (if header[n - 1] in from then [n - 1] else []);
      assert r == rp + (if header[n - 1] in from then [row[n - 1]] else []);
      forall k | 0 <= k < |idx|
        ensures idx[k] < n && r[k] == row[idx[k]]
      {
        if k < |prev| {
          assert idx[k] == prev[k] && r[k] == rp[k] && init[prev[k]] == row[prev[k]];
        }
      }
    }
  }

  /** When every column of the row is named in `from`, the row is kept whole. */
  lemma {:induction false} SelectColumnsAll(row: seq<real>, header: seq<string>, from: seq<string>)
    requires |row| <= |header|
    requires forall i :: 0 <= i < |row| ==> header[i] in from
    ensures SelectColumns(row, header, from) == row
  {
    if |row| > 0 {
      SelectColumnsAll(row[..|row| - 1], header, from);
    }
  }

  /** An error in building `consumption` is what `get_avg_consumption_rate` raises. */
  lemma {:induction false} ConsumptionRateError(rows: seq<seq<real>>, totalTime: real, milliwatthour: bool,
                             header: Option<seq<string>>, from: Option<seq<string>>)
    requires Consumption(rows, header, from).Err?
    ensures ConsumptionRate(rows, totalTime, milliwatthour, header, from) == Err(Consumption(rows, header, from).error)
  {
  }

  /** One value per tuple of `zip(*consumption)`: the tuple's sum divided by
      3600 in milliwatt-hour mode and by `total_time` otherwise; a zero
      `total_time` fails only when there is at least one tuple. */
  lemma {:induction false} ConsumptionRateMeaning(rows: seq<seq<real>>, totalTime: real, milliwatthour: bool,
                               header: Option<seq<string>>, from: Option<seq<string>>)
    requires Consumption(rows, header, from).Ok?
    ensures var r := ConsumptionRate(rows, totalTime, milliwatthour, header, from);
            var cons := Consumption(rows, header, from).value;
            && (r.Err? <==> Width(cons) > 0 && !milliwatthour && totalTime == 0.0)
            && (r.Ok? ==>
                  && |r.value| == Width(cons)
                  && forall c :: 0 <= c < |r.value| ==> r.value[c] * Divisor(milliwatthour, totalTime) == Sum(Column(cons, c)))
  {
    AveragesMeaning(Consumption(rows, header, from).value, Divisor(milliwatthour, totalTime));
  }

  lemma {:induction false} AveragesMeaning(cons: seq<seq<real>>, divisor: real)
    ensures Averages(cons, divisor).Err? <==> Width(cons) > 0 && divisor == 0.0
    ensures Averages(cons, divisor).Ok? ==>
              && |Averages(cons, divisor).value| == Width(cons)
              && forall c :: 0 <= c < Width(cons) ==> Averages(cons, divisor).value[c] * divisor == Sum(Column(cons, c))
  {
    var r := Averages(cons, divisor);
    if r.Ok? {
      forall c | 0 <= c < Width(cons)
        ensures r.value[c] * divisor == Sum(Column(cons, c))
      {
        assert divisor != 0.0;
        DivTimes(Sum(Column(cons, c)), divisor);
      }
    }
  }

  lemma {:induction false} DivTimes(x: real, d: real)
    requires d != 0.0
    ensures (x / d) * d == x
  {
  }

  // ---------------------------------------------------------------------
  // get_battery_deltas

  /** A capacity difference turned into a power over `timewindow` seconds. */
  function Delta(conv: Converters, a: real, b: real, timewindow: real): real {
    conv.mjToMw(conv.mwhToMj(a - b), timewindow)
  }

  function BatteryDeltas(s: seq<real>, timewindow: real, conv: Converters): seq<real> {
    seq(Max(0, |s| - 1), i requires 0 <= i < Max(0, |s| - 1) => Delta(conv, s[i], s[i + 1], timewindow))
  }

  method GetBatteryDeltas(orderedDatalist: seq<real>, timewindow: real, conv: Converters) returns (deltas: seq<real>)
    ensures |deltas| == Max(0, |orderedDatalist| - 1)
    ensures forall i :: 0 <= i < |deltas| ==>
              deltas[i] == conv.mjToMw(conv.mwhToMj(orderedDatalist[i] - orderedDatalist[i + 1]), timewindow)
    ensures deltas == BatteryDeltas(orderedDatalist, timewindow, conv)
  {
    deltas := [];
    for i := 0 to |orderedDatalist|
      invariant |deltas| == Min(i, Max(0, |orderedDatalist| - 1))
      invariant forall j :: 0 <= j < |deltas| ==>
                  deltas[j] == Delta(conv, orderedDatalist[j], orderedDatalist[j + 1], timewindow)
    {
      if i >= |orderedDatalist| - 1 {
        continue;
      }
      deltas := deltas + [Delta(conv, orderedDatalist[i], orderedDatalist[i + 1], timewindow)];
    }
  }

  /** Dropping the last sample drops the last delta. */
  lemma {:induction false} DeltasPrefix(s: seq<real>, timewindow: real, conv: Converters, n: nat)
    requires 1 <= n <= |s|
    ensures BatteryDeltas(s, timewindow, conv)[..n - 1] == BatteryDeltas(s[..n], timewindow, conv)
  {
  }

  /** With pass-through converters the deltas telescope: their sum is the
      drop from the first sample to the last. */
  lemma {:induction false} DeltasTelescope(s: seq<real>, timewindow: real)
    requires |s| > 0
    ensures Sum(BatteryDeltas(s, timewindow, PassThrough)) == s[0] - s[|s| - 1]
  {
    if |s| > 1 {
      var n := |s|;
      var d := BatteryDeltas(s, timewindow, PassThrough);
      DeltasTelescope(s[..n - 1], timewindow);
      DeltasPrefix(s, timewindow, PassThrough, n - 1);
      assert d[..|d| - 1] == BatteryDeltas(s[..n - 1], timewindow, PassThrough);
      assert d[|d| - 1] == s[n - 2] - s[n - 1];
    }
  }

  // ---------------------------------------------------------------------
  // cut_time_out

  /** `ceil(t / interval)` for positive operands: the fewest steps of
      `interval` that reach `t`. */
  function CeilDiv(t: int, interval: int): (k: nat)
    requires t > 0 && interval > 0
    ensures k * interval >= t && (k - 1) * interval < t
  {
    var q := (t + interval - 1) / interval;
    assert q * interval + (t + interval - 1) % interval == t + interval - 1;
    q
  }

  /** How many elements from `start_ind` on `cut_time_out` keeps, out of
      `avail`: none for a non-positive time, all of them for a non-positive
      interval, otherwise at most `ceil(T / interval)`. */
  function CutCount(t: int, interval: int, avail: nat): (k: nat)
    ensures k <= avail
  {
    if t <= 0 then 0
    else if interval <= 0 then avail
    else Min(avail, CeilDiv(t, interval))
  }

  /** What `cut_time_out(data, start_ind, time_to_analyze, interval)` returns. */
  function CutKept<T>(data: seq<T>, startInd: nat, timeToAnalyze: Option<int>, interval: int): seq<T>
  {
    if timeToAnalyze.None? || timeToAnalyze.value == 0 then data
    else
      var s: nat := Min(startInd, |data|);
      data[..s + CutCount(timeToAnalyze.value, interval, |data| - s)]
  }

  method CutTimeOut<T>(data: seq<T>, startInd: nat, timeToAnalyze: Option<int>, interval: int)
    returns (newdata: seq<T>)
    ensures newdata == CutKept(data, startInd, timeToAnalyze, interval)
  {
    if timeToAnalyze.None? || timeToAnalyze.value == 0 {
      return data;
    }
    var t := timeToAnalyze.value;
    var s: nat := Min(startInd, |data|);
    newdata := data[..s];
    var rest := data[s..];
    var currtime := 0;
    var k := 0;
    while k < |rest|
      invariant 0 <= k <= |rest|
      invariant newdata == data[..s + k]
      invariant currtime == k * interval
      invariant forall j :: 0 <= j < k ==> j * interval < t
    {
      if currtime >= t {
        break;
      }
      newdata := newdata + [rest[k]];
      currtime := currtime + interval;
      k := k + 1;
    }
    CutCountIsLeast(t, interval, |rest|, k);
  }

  /** The loop's exit condition pins down `CutCount`: `k` is the first count
      whose elapsed time reaches `t`, or every available element. */
  lemma {:induction false} CutCountIsLeast(t: int, interval: int, avail: nat, k: nat)
    requires k <= avail
    requires k == avail || k * interval >= t
    requires forall j :: 0 <= j < k ==> j * interval < t
    ensures k == CutCount(t, interval, avail)
  {
    if t <= 0 {
      assert k > 0 ==> 0 * interval < t;
    } else if interval <= 0 {
      if k < avail {
        MulNonPositive(k, interval);
      }
    } else {
      var c := CeilDiv(t, interval);
      if k < c && k < avail {
        MulMonotone(k, c - 1, interval);
      }
      assert k > c ==> c * interval < t;
    }
  }

  lemma {:induction false} MulNonPositive(k: nat, interval: int)
    requires interval <= 0
    ensures k * interval <= 0
  {
  }

  lemma {:induction false} MulMonotone(a: int, b: int, m: int)
    requires a <= b && m >= 0
    ensures a * m <= b * m
  {
  }

  /** `cut_time_out` returns `data` for a falsy time; otherwise a prefix of
      `data` that holds all of `data[:start_ind]` and, for a positive time
      and interval, at most `ceil(T / interval)` further elements. */
  lemma {:induction false} CutTimeOutMeaning<T>(data: seq<T>, startInd: nat, timeToAnalyze: Option<int>, interval: int)
    ensures var r := CutKept(data, startInd, timeToAnalyze, interval);
            var s := Min(startInd, |data|);
            && (timeToAnalyze.None? || timeToAnalyze.value == 0 ==> r == data)
            && |r| <= |data| && r == data[..|r|]
            && s <= |r| && r[..s] == data[..s]
            && (timeToAnalyze.Some? && timeToAnalyze.value > 0 && interval > 0 ==>
                  |r| <= s + CeilDiv(timeToAnalyze.value, interval))
            && (timeToAnalyze.Some? && timeToAnalyze.value < 0 ==> r == data[..s])
  {
  }

  // ---------------------------------------------------------------------
  // The moving average (compare_data, smoothing of capacities and deltas)

  /** The mean of every window of `n` consecutive inputs. */
  function MovingAverages(xs: seq<real>, n: nat): (r: seq<real>)
    requires n >= 1
  {
    seq(Max(0, |xs| - n + 1), j requires 0 <= j < Max(0, |xs| - n + 1) => Mean(Sum(xs[j..j + n]), n))
  }

  /** The mean of `n` values whose sum is `total`. */
  function Mean(total: real, n: nat): real
    requires n >= 1
  {
    total / n as real
  }

  /** The cumulative-sum moving average with window `n`. */
  method MovingAverage(xs: seq<real>, n: nat) returns (movingAves: seq<real>)
    requires n >= 1
    ensures movingAves == MovingAverages(xs, n)
  {
    var cumsum: seq<real> := [0.0];
    movingAves := [];
    for i := 1 to |xs| + 1
      invariant |cumsum| == i
      invariant forall k :: 0 <= k < i ==> cumsum[k] == Sum(xs[..k])
      invariant movingAves == MovingAverages(xs[..i - 1], n)
    {
      var x := xs[i - 1];
      assert xs[..i][..i - 1] == xs[..i - 1];
      var total := cumsum[i - 1] + x;
      assert total == Sum(xs[..i]);
      cumsum := cumsum + [total];
      MovingAveragesStep(xs, i, n);
      if i >= n {
        SumSlice(xs, i - n, i);
        var window := total - cumsum[i - n];
        assert window == Sum(xs[i - n..i]);
        movingAves := movingAves + [Mean(window, n)];
      }
    }
    assert xs[..|xs|] == xs;
  }

  /** Reading one more input adds the window that ends at it, once there
      are `n` inputs. */
  lemma {:induction false} MovingAveragesStep(xs: seq<real>, i: nat, n: nat)
    requires n >= 1 && 1 <= i <= |xs|
    ensures MovingAverages(xs[..i], n)
            == if i < n then [] else MovingAverages(xs[..i - 1], n) + [Mean(Sum(xs[i - n..i]), n)]
  {
    var a := MovingAverages(xs[..i], n);
    var b := MovingAverages(xs[..i - 1], n);
    if i >= n {
      assert |a| == |b| + 1;
      forall j | 0 <= j < |b|
        ensures a[j] == b[j]
      {
        assert j + n <= i - 1;
        assert xs[..i][j..j + n] == xs[j..j + n];
        assert xs[..i - 1][j..j + n] == xs[j..j + n];
      }
      assert xs[..i][i - n..i] == xs[i - n..i];
      assert a == b + [Mean(Sum(xs[i - n..i]), n)];
    }
  }

  /** A constant series smooths to the same constant. */
  lemma {:induction false} MovingAverageOfConstant(xs: seq<real>, n: nat, c: real)
    requires n >= 1
    requires forall i :: 0 <= i < |xs| ==> xs[i] == c
    ensures forall j :: 0 <= j < |MovingAverages(xs, n)| ==> MovingAverages(xs, n)[j] == c
  {
    forall j | 0 <= j < |MovingAverages(xs, n)|
      ensures MovingAverages(xs, n)[j] == c
    {
      SumConstant(xs[j..j + n], c);
    }
  }

  /** A window of one leaves the series unchanged. */
  lemma {:induction false} MovingAverageWindowOne(xs: seq<real>)
    ensures MovingAverages(xs, 1) == xs
  {
    forall j | 0 <= j < |xs|
      ensures MovingAverages(xs, 1)[j] == xs[j]
    {
      assert xs[j..j + 1] == [xs[j]];
      assert Sum([xs[j]]) == Sum([]) + xs[j];
    }
  }

  // ---------------------------------------------------------------------
  // First-good indices

  /** The first index with a positive delta. */
  function FirstPositive(d: seq<real>): (r: Option<nat>)
    ensures r.Some? ==> r.value < |d| && d[r.value] > 0.0 && forall j :: 0 <= j < r.value ==> d[j] <= 0.0
    ensures r.None? ==> forall j :: 0 <= j < |d| ==> d[j] <= 0.0
  {
    if |d| == 0 then None
    else if d[0] > 0.0 then Some(0)
    else match FirstPositive(d[1..])
         case None => None
         case Some(k) => Some(k + 1)
  }

  /** `first_good_base`: the first positive delta's index, else 0. */
  method FirstGoodBase(deltas: seq<real>) returns (firstGood: nat)
    ensures firstGood == match FirstPositive(deltas) case Some(k) => k case None => 0
  {
    firstGood := 0;
    for i := 0 to |deltas|
      invariant forall j :: 0 <= j < i ==> deltas[j] <= 0.0
    {
      if deltas[i] <= 0.0 {
        continue;
      }
      // the source's clamp to 0 cannot fire for an index
      firstGood := i;
      return;
    }
  }

  /** `first_good_test`: one before the first positive delta, clamped to 0. */
  method FirstGoodTest(deltas: seq<real>) returns (firstGood: nat)
    ensures firstGood == match FirstPositive(deltas) case Some(k) => Max(0, k - 1) case None => 0
  {
    firstGood := 0;
    for i := 0 to |deltas|
      invariant forall j :: 0 <= j < i ==> deltas[j] <= 0.0
    {
      if deltas[i] <= 0.0 {
        continue;
      }
      var candidate := i - 1;
      if candidate < 0 || candidate >= |deltas| {
        candidate := 0;
      }
      firstGood := candidate;
      return;
    }
  }

  // ---------------------------------------------------------------------
  // The boundary list

  /** Python's `max` of a non-empty list. */
  function SeqMax(s: seq<real>): (m: real)
    requires |s| > 0
    ensures (exists i :: 0 <= i < |s| && s[i] == m) && forall i :: 0 <= i < |s| ==> s[i] <= m
  {
    if |s| == 1 then s[0]
    else
      var m := SeqMax(s[..|s| - 1]);
      if s[|s| - 1] > m then s[|s| - 1] else m
  }

  /** What index `j` is compared against: `top` for the first index, and the
      previous element after that (the scan's `curr_max` always ends up equal
      to the element it has just passed). */
  function Reference(s: seq<real>, top: real, j: nat): real
    requires j <= |s|
  {
    if j == 0 then top else s[j - 1]
  }

  /** The indices the boundary scan appends among the first `k`. */
  function Changes(s: seq<real>, top: real, k: nat): seq<nat>
    requires k <= |s|
  {
    if k == 0 then []
    else Changes(s, top, k - 1) + (if s[k - 1] != Reference(s, top, k - 1) then [k - 1] else [])
  }

  /** `all_decreases`; `max([])` raises ValueError. */
  function Boundaries(s: seq<real>): Result<seq<nat>> {
    if |s| == 0 then Err(ValueError) else Ok([0] + Changes(s, SeqMax(s), |s|))
  }

  method DecreaseBoundaries(ordBaseline: seq<real>) returns (allDecreases: Result<seq<nat>>)
    ensures allDecreases == Boundaries(ordBaseline)
  {
    if |ordBaseline| == 0 {
      return Err(ValueError);
    }
    var top := SeqMax(ordBaseline);
    var currMax := top;
    var found: seq<nat> := [0];
    for i := 0 to |ordBaseline|
      invariant found == [0] + Changes(ordBaseline, top, i)
      invariant currMax == Reference(ordBaseline, top, i)
    {
      if ordBaseline[i] == currMax {
        continue;
      }
      currMax := ordBaseline[i];
      found := found + [i];
    }
    allDecreases := Ok(found);
  }

  lemma {:induction false} ChangesMembership(s: seq<real>, top: real, k: nat, j: int)
    requires k <= |s|
    ensures j in Changes(s, top, k) <==> 0 <= j < k && s[j] != Reference(s, top, j)
  {
    if k > 0 {
      ChangesMembership(s, top, k - 1, j);
    }
  }

  lemma {:induction false} ChangesIncreasing(s: seq<real>, top: real, k: nat)
    requires k <= |s|
    ensures forall a, b :: 0 <= a < b < |Changes(s, top, k)| ==> Changes(s, top, k)[a] < Changes(s, top, k)[b]
    ensures forall a :: 0 <= a < |Changes(s, top, k)| ==> Changes(s, top, k)[a] < k
  {
    if k > 0 {
      ChangesIncreasing(s, top, k - 1);
    }
  }

  /** The boundary list starts with 0; after it come, in strictly increasing
      order, exactly the indices whose value differs from the one before
      (from `max(series)` for index 0). Between two consecutive appended
      indices the series stays at the value of the earlier one. */
  lemma {:induction false} BoundariesMeaning(s: seq<real>)
    ensures Boundaries(s).Err? <==> |s| == 0
    ensures Boundaries(s).Err? ==> Boundaries(s).error == ValueError
    ensures Boundaries(s).Ok? ==>
              var b := Boundaries(s).value;
              && |b| >= 1 && b[0] == 0
              && (forall j :: j in b[1..] <==> 0 <= j < |s| && s[j] != Reference(s, SeqMax(s), j))
              && (forall a, c :: 1 <= a < c < |b| ==> b[a] < b[c])
  {
    if |s| > 0 {
      var top := SeqMax(s);
      var b := Boundaries(s).value;
      assert b[1..] == Changes(s, top, |s|);
      ChangesIncreasing(s, top, |s|);
      forall j
        ensures j in b[1..] <==> 0 <= j < |s| && s[j] != Reference(s, top, j)
      {
        ChangesMembership(s, top, |s|, j);
      }
    }
  }

  /** Between an appended index and the next one, and after the last one,
      every element equals the element at the appended index: each appended
      index is one whose value differs from the last appended value. */
  lemma {:induction false} ChangesRuns(s: seq<real>, top: real, k: nat)
    requires k <= |s|
    ensures var c := Changes(s, top, k);
            && (forall a, j :: 0 <= a < |c| - 1 && c[a] <= j < c[a + 1] <= k ==> s[j] == s[c[a]])
            && (|c| > 0 ==> forall j :: c[|c| - 1] <= j < k ==> s[j] == s[c[|c| - 1]])
  {
    if k > 0 {
      ChangesRuns(s, top, k - 1);
      ChangesIncreasing(s, top, k - 1);
      var c := Changes(s, top, k - 1);
      if s[k - 1] != Reference(s, top, k - 1) {
        assert Changes(s, top, k) == c + [k - 1];
      } else {
        assert Changes(s, top, k) == c;
        if |c| > 0 && k - 1 > c[|c| - 1] {
          assert s[k - 1] == s[k - 2];
        }
      }
    }
  }

  // ---------------------------------------------------------------------
  // The final plateau

  /** Start of the run of elements equal to `last` that ends `s[..k]`. */
  function RunStart(s: seq<real>, last: real, k: nat): (p: nat)
    requires k <= |s|
    ensures p <= k
    ensures forall j :: p <= j < k ==> s[j] == last
    ensures p > 0 ==> s[p - 1] != last
  {
    if k == 0 then 0
    else if s[k - 1] == last then RunStart(s, last, k - 1)
    else k
  }

  /** The first index of the trailing run equal to the last element; None
      for a constant series. */
  function TrailStart(s: seq<real>): (r: Option<nat>)
    requires |s| > 0
    ensures r.Some? ==> && 1 <= r.value < |s|
                        && s[r.value - 1] != s[|s| - 1]
                        && forall j :: r.value <= j < |s| ==> s[j] == s[|s| - 1]
    ensures r.None? <==> forall j :: 0 <= j < |s| ==> s[j] == s[|s| - 1]
  {
    var p := RunStart(s, s[|s| - 1], |s|);
    if p == 0 then None else Some(p)
  }

  lemma {:induction false} RunStartIs(s: seq<real>, last: real, k: nat, p: nat)
    requires p <= k <= |s|
    requires forall j :: p <= j < k ==> s[j] == last
    requires p > 0 ==> s[p - 1] != last
    ensures RunStart(s, last, k) == p
    decreases k
  {
    if k > p {
      RunStartIs(s, last, k - 1, p);
    }
  }

  /** The value of `final_decrease_baseline` after its block: the start of the
      trailing run, or `prior` (the value it held before) for a constant
      series; an empty series raises IndexError at `ord_baseline[-1]`. */
  function Plateau(s: seq<real>, prior: nat): Result<nat> {
    if |s| == 0 then Err(IndexError)
    else match TrailStart(s)
         case None => Ok(prior)
         case Some(p) => Ok(p)
  }

  method FinalPlateauBaseline(ordBaseline: seq<real>, prior: nat) returns (r: Result<nat>)
    ensures r == Plateau(ordBaseline, prior)
  {
    if |ordBaseline| == 0 {
      return Err(IndexError);
    }
    var n := |ordBaseline|;
    var currmin := ordBaseline[n - 1];
    var finalDecreaseBaseline := prior;
    var i := 0;
    while i < n
      invariant 0 <= i <= n
      invariant forall j :: n - i <= j < n ==> ordBaseline[j] == currmin
    {
      if ordBaseline[n - 1 - i] == currmin {
        i := i + 1;
        continue;
      }
      var finalDecrease := i;
      if finalDecrease > n {
        finalDecrease := n;
      } else {
        finalDecreaseBaseline := n - finalDecrease;
      }
      RunStartIs(ordBaseline, currmin, n, n - i);
      return Ok(finalDecreaseBaseline);
    }
    RunStartIs(ordBaseline, currmin, n, 0);
    r := Ok(finalDecreaseBaseline);
  }

  /** `final_decrease_test` as line 231 computes it: the length of the series
      whenever it is not constant. */
  function PlateauTestAsWritten(s: seq<real>): Result<nat> {
    if |s| == 0 then Err(IndexError)
    else if TrailStart(s).None? then Ok(0)
    else Ok(|s|)
  }

  method FinalPlateauTestAsWritten(ordTest: seq<real>) returns (r: Result<nat>)
    ensures r == PlateauTestAsWritten(ordTest)
  {
    if |ordTest| == 0 {
      return Err(IndexError);
    }
    var n := |ordTest|;
    var currmin := ordTest[n - 1];
    var finalDecreaseTest := 0;
    var i := 0;
    while i < n
      invariant 0 <= i <= n
      invariant forall j :: n - i <= j < n ==> ordTest[j] == currmin
    {
      if ordTest[n - 1 - i] == currmin {
        i := i + 1;
        continue;
      }
      var finalDecrease := i;
      if finalDecrease > n {
        finalDecrease := n;
      } else {
        finalDecreaseTest := n - finalDecreaseTest;
      }
      RunStartIs(ordTest, currmin, n, n - i);
      return Ok(finalDecreaseTest);
    }
    RunStartIs(ordTest, currmin, n, 0);
    r := Ok(finalDecreaseTest);
  }

  /** The test block with `len - final_decrease`, as in the baseline block. */
  method FinalPlateauTest(ordTest: seq<real>) returns (r: Result<nat>)
    ensures r == Plateau(ordTest, 0)
  {
    r := FinalPlateauBaseline(ordTest, 0);
  }

  /** For a non-constant series the block as written yields `len(ord_test)`,
      never a valid index of the series, while the intended block yields the
      start of the trailing run. */
  lemma {:induction false} PlateauTestAsWrittenIsLength(s: seq<real>)
    requires |s| > 0 && exists j :: 0 <= j < |s| && s[j] != s[|s| - 1]
    ensures PlateauTestAsWritten(s) == Ok(|s|)
    ensures Plateau(s, 0).Ok? && Plateau(s, 0).value < |s|
  {
    var j :| 0 <= j < |s| && s[j] != s[|s| - 1];
    assert TrailStart(s).Some?;
  }

  /** The smallest series that shows it: `[2.0, 1.0]`. */
  lemma {:induction false} PlateauTestCounterexample()
    ensures PlateauTestAsWritten([2.0, 1.0]) == Ok(2)
    ensures Plateau([2.0, 1.0], 0) == Ok(1)
  {
    assert [2.0, 1.0][1] != [2.0, 1.0][0];
    PlateauTestAsWrittenIsLength([2.0, 1.0]);
  }

  // ---------------------------------------------------------------------
  // The guarded average rate, milliwatt-hours lost and percent lost

  /** `x_range`: one time stamp per sample, `DIST_BETWEEN_SAMPLES` apart. */
  method BuildXRange(ordBaseline: seq<real>) returns (xRange: seq<int>)
    ensures |xRange| == |ordBaseline|
    ensures forall i :: 0 <= i < |xRange| ==> xRange[i] == DistBetweenSamples * i
  {
    xRange := [];
    for i := 0 to |ordBaseline|
      invariant |xRange| == i
      invariant forall j :: 0 <= j < i ==> xRange[j] == DistBetweenSamples * j
    {
      xRange := xRange + [DistBetweenSamples * i];
    }
  }

  /** The average battery power between samples `start` and `end`
      (`avg_baseline_battery_mw` with `start = first_good_base + 1`,
      `avg_test_battery_mw` with `start = first_good_test`). */
  function AverageBatteryMw(s: seq<real>, start: nat, end: nat, xRange: seq<int>, conv: Converters): (r: Result<real>)
    ensures r.Ok? ==> r.value >= 0.0
    ensures end >= |xRange| || start >= |xRange| ==> r == Err(IndexError)
    ensures end < |xRange| && start < |xRange| && xRange[end] - xRange[start] <= 0 ==> r == Ok(0.0)
    ensures end < |xRange| && start < |xRange| && xRange[end] - xRange[start] > 0 ==>
              (r.Ok? <==> start < |s| && end < |s|)
  {
    if end >= |xRange| || start >= |xRange| then Err(IndexError)
    else
      var elapsed := xRange[end] - xRange[start];
      if elapsed <= 0 then Ok(0.0)
      else if start >= |s| || end >= |s| then Err(IndexError)
      else Ok(Abs(conv.mjToMw(conv.mwhToMj(s[start] - s[end]), Abs(elapsed as real))))
  }

  /** On `x_range` the elapsed time is `60 * (end - start)`: the average is 0
      unless `end` is after `start`, and then it is the converted capacity
      drop over that many seconds. */
  lemma {:induction false} AverageBatteryMwOnSamples(s: seq<real>, start: nat, end: nat, xRange: seq<int>, conv: Converters)
    requires forall i :: 0 <= i < |xRange| ==> xRange[i] == DistBetweenSamples * i
    requires start < |xRange| && end < |xRange|
    ensures end <= start ==> AverageBatteryMw(s, start, end, xRange, conv) == Ok(0.0)
    ensures start < end < |s| ==>
              AverageBatteryMw(s, start, end, xRange, conv)
              == Ok(Abs(conv.mjToMw(conv.mwhToMj(s[start] - s[end]), (DistBetweenSamples * (end - start)) as real)))
  {
    assert xRange[end] - xRange[start] == DistBetweenSamples * (end - start);
  }

  /** With the test plateau index as written, the test average fails for every
      non-constant series whose start index is inside it: either `x_range` or
      `ord_test` is indexed at `len(ord_test)`. With the intended index it
      succeeds whenever `x_range` covers the series. */
  lemma {:induction false} PlateauTestAsWrittenBreaksAverage(s: seq<real>, start: nat, xRange: seq<int>, conv: Converters)
    requires |s| > 0 && exists j :: 0 <= j < |s| && s[j] != s[|s| - 1]
    requires start < |s|
    requires forall i :: 0 <= i < |xRange| ==> xRange[i] == DistBetweenSamples * i
    ensures AverageBatteryMw(s, start, PlateauTestAsWritten(s).value, xRange, conv) == Err(IndexError)
    ensures |s| <= |xRange| ==> AverageBatteryMw(s, start, Plateau(s, 0).value, xRange, conv).Ok?
  {
    PlateauTestAsWrittenIsLength(s);
    var n := |s|;
    if n < |xRange| {
      assert xRange[n] - xRange[start] == DistBetweenSamples * (n - start);
    }
  }

  /** `series[first] - series[-1]`: the milliwatt-hours lost from the first
      good sample, and the percent lost on the percentage series. */
  function DropSince(s: seq<real>, first: nat): (r: Result<real>)
    ensures r.Err? <==> first >= |s|
    ensures r.Err? ==> r.error == IndexError
  {
    if first >= |s| then Err(IndexError) else Ok(s[first] - s[|s| - 1])
  }

  /** The drop from sample `first` is the sum of the raw deltas from `first`
      on: the amount lost and the deltas agree. */
  lemma {:induction false} DropSinceIsSumOfDeltas(s: seq<real>, first: nat, timewindow: real)
    requires first < |s|
    ensures DropSince(s, first) == Ok(Sum(BatteryDeltas(s, timewindow, PassThrough)[first..]))
  {
    var d := BatteryDeltas(s, timewindow, PassThrough);
    DeltasTelescope(s, timewindow);
    DeltasTelescope(s[..first + 1], timewindow);
    DeltasPrefix(s, timewindow, PassThrough, first + 1);
    SumConcat(d[..first], d[first..]);
    assert d[..first] + d[first..] == d;
    Difference(Sum(d), Sum(d[..first]), Sum(d[first..]), s[0], s[first], s[|s| - 1]);
  }

  lemma {:induction false} Difference(total: real, a: real, b: real, x0: real, xf: real, xl: real)
    requires total == a + b && total == x0 - xl && a == x0 - xf
    ensures b == xf - xl
  {
  }

  /** Percent lost: the percentage series cut from `cutStart`, then its drop
      from sample `first`. IndexError exactly when `first` is not a sample
      of the cut series; otherwise `pc[first]` minus the last kept value. */
  function PercentLost(pc: seq<real>, cutStart: nat, first: nat, timeToAnalyze: Option<int>): (r: Result<real>)
    ensures var cut := CutKept(pc, cutStart, timeToAnalyze, DistBetweenSamples);
            && |cut| <= |pc|
            && (r.Err? <==> first >= |cut|)
            && (r.Err? ==> r.error == IndexError)
            && (r.Ok? ==> r.value == pc[first] - pc[|cut| - 1])
  {
    CutTimeOutMeaning(pc, cutStart, timeToAnalyze, DistBetweenSamples);
    DropSince(CutKept(pc, cutStart, timeToAnalyze, DistBetweenSamples), first)
  }

  /** Cut and measured from the same sample `f`, the sample is in the cut
      series exactly when it is in `pc` and the time is not negative. */
  lemma {:induction false} SameStartKeepsSample(pc: seq<real>, f: nat, timeToAnalyze: Option<int>)
    ensures f < |CutKept(pc, f, timeToAnalyze, DistBetweenSamples)|
            <==> f < |pc| && !(timeToAnalyze.Some? && timeToAnalyze.value < 0)
  {
    CutTimeOutMeaning(pc, f, timeToAnalyze, DistBetweenSamples);
    if timeToAnalyze.Some? && timeToAnalyze.value > 0 {
      assert CeilDiv(timeToAnalyze.value, DistBetweenSamples) >= 1;
    }
  }

  /** Percent lost cut and measured from the same sample `first`: this is
      `pc_lost_base` at `first_good_base`, and the corrected `pc_lost_test`
      at `first_good_test`, as the other test series are cut. It fails only
      when that sample is missing or the time is negative. */
  function PercentLostFrom(pc: seq<real>, first: nat, timeToAnalyze: Option<int>): (r: Result<real>)
    ensures r.Err? <==> first >= |pc| || (timeToAnalyze.Some? && timeToAnalyze.value < 0)
    ensures r.Ok? ==> r.value == pc[first] - pc[|CutKept(pc, first, timeToAnalyze, DistBetweenSamples)| - 1]
  {
    SameStartKeepsSample(pc, first, timeToAnalyze);
    PercentLost(pc, first, first, timeToAnalyze)
  }

  /** `pc_lost_test` as written: the test series is cut from
      `first_good_base` (line 256) but measured from `first_good_test`, so it
      fails whenever `first_good_test` falls outside that cut; it agrees with
      the corrected version only when the two indices coincide. */
  function PercentLostTestAsWritten(pc: seq<real>, firstGoodBase: nat, firstGoodTest: nat, timeToAnalyze: Option<int>): (r: Result<real>)
    ensures r.Err? <==> firstGoodTest >= |CutKept(pc, firstGoodBase, timeToAnalyze, DistBetweenSamples)|
    ensures r.Ok? ==> r.value == pc[firstGoodTest] - pc[|CutKept(pc, firstGoodBase, timeToAnalyze, DistBetweenSamples)| - 1]
    ensures firstGoodBase == firstGoodTest ==> r == PercentLostFrom(pc, firstGoodTest, timeToAnalyze)
  {
    PercentLost(pc, firstGoodBase, firstGoodTest, timeToAnalyze)
  }

  /** Cut and measured from the same sample, percent lost is defined whenever
      that sample exists and the time is not negative: it is the sample's
      value minus the last kept value, and minus the last value when no time
      is given. */
  lemma {:induction false} PercentLostFromFirstGood(pc: seq<real>, first: nat, timeToAnalyze: Option<int>)
    requires first < |pc|
    requires timeToAnalyze.None? || timeToAnalyze.value >= 0
    ensures PercentLost(pc, first, first, timeToAnalyze).Ok?
    ensures var cut := CutKept(pc, first, timeToAnalyze, DistBetweenSamples);
            first < |cut| && PercentLost(pc, first, first, timeToAnalyze).value == pc[first] - pc[|cut| - 1]
    ensures timeToAnalyze.None? || timeToAnalyze.value == 0 ==>
              PercentLost(pc, first, first, timeToAnalyze) == Ok(pc[first] - pc[|pc| - 1])
  {
    var cut := CutKept(pc, first, timeToAnalyze, DistBetweenSamples);
    if timeToAnalyze.Some? && timeToAnalyze.value > 0 {
      assert CeilDiv(timeToAnalyze.value, DistBetweenSamples) >= 1;
    }
  }

  /** Line 256 in action: a test series cut from `first_good_base = 0` is too
      short to be read at `first_good_test = 2`. */
  lemma {:induction false} PercentLostTestCounterexample()
    ensures PercentLostTestAsWritten([5.0, 4.0, 3.0, 2.0, 1.0], 0, 2, Some(120)) == Err(IndexError)
    ensures PercentLostFrom([5.0, 4.0, 3.0, 2.0, 1.0], 2, Some(120)) == Ok(1.0)
  {
    assert CeilDiv(120, DistBetweenSamples) == 2;
    var pc := [5.0, 4.0, 3.0, 2.0, 1.0];
    assert CutKept(pc, 0, Some(120), DistBetweenSamples) == pc[..2];
    assert CutKept(pc, 2, Some(120), DistBetweenSamples) == pc[..4];
  }
}
