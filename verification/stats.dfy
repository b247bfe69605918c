/** The weekly report of StatsView.swift: bucketing recorded intervals into
    the seven days of one week, the chart rows built from the buckets, the
    placeholder rows, the chart's vertical limit and week navigation.
    The Monday that starts the week is an input (`lastMonday`, in seconds). */
module Stats {
  import opened Model

  /** 24 * 60 * 60 seconds. */
  const DaySeconds: real := 86400.0
  /** 7 * 24 * 60 * 60 seconds. */
  const WeekSeconds: real := 604800.0
  /** Day letters, Monday first. */
  const Days: seq<string> := ["M", "T", "W", "R", "F", "S", "U"]

  /** Swift's `Int(_:)` on a floating-point value: truncation toward zero. */
  function Trunc(x: real): (n: int)
    ensures 0.0 <= x ==> 0 <= n && n as real <= x < n as real + 1.0
    ensures x < 0.0 ==> n <= 0 && n as real - 1.0 < x <= n as real
  {
    if x >= 0.0 then x.Floor else -((-x).Floor)
  }

  // ---------------------------------------------------------------------
  // The week window and the day bins

  /** The source's window test: the start lies strictly between the Monday
      and the Monday a week later. */
  predicate InWindow(t: Time, lastMonday: real)
    ensures InWindow(t, lastMonday) <==> 0.0 < (t.start - lastMonday) / DaySeconds < 7.0
  {
    lastMonday < t.start < lastMonday + WeekSeconds
  }

  /** The bin the source adds an interval to, `Int((start - lastMonday) / 86400)`.
      For every interval the window admits it is a valid index into the seven
      bins, and it is the day on which the interval starts. */
  function BinIndex(t: Time, lastMonday: real): (i: int)
    requires InWindow(t, lastMonday)
    ensures 0 <= i < 7
    ensures lastMonday + i as real * DaySeconds <= t.start < lastMonday + (i + 1) as real * DaySeconds
  {
    Trunc((t.start - lastMonday) / DaySeconds)
  }

  /** Reference notion of "starts on day d" (0 = Monday), stated with the
      day boundaries rather than with a division; the first instant of the
      week is excluded as in the source. */
  predicate StartsOnDay(t: Time, lastMonday: real, d: int)
  {
    && 0 <= d < 7
    && lastMonday < t.start
    && lastMonday + d as real * DaySeconds <= t.start
    && t.start < lastMonday + (d + 1) as real * DaySeconds
  }

  /** Seconds recorded on day `d`: the whole length of every interval that
      starts on that day, however long it runs. */
  function DayTotal(times: seq<Time>, lastMonday: real, d: int): real
  {
    if times == [] then 0.0
    else
      var t := times[|times| - 1];
      DayTotal(times[..|times| - 1], lastMonday, d)
      + (if StartsOnDay(t, lastMonday, d) then t.length else 0.0)
  }

  /** Seconds recorded in the week: the total length of the intervals the
      window admits. */
  function WindowTotal(times: seq<Time>, lastMonday: real): real
  {
    if times == [] then 0.0
    else
      var t := times[|times| - 1];
      WindowTotal(times[..|times| - 1], lastMonday)
      + (if InWindow(t, lastMonday) then t.length else 0.0)
  }

  /** The source's bin index picks out exactly the reference day. */
  lemma StartsOnDayIffBin(t: Time, lastMonday: real, d: int)
    ensures StartsOnDay(t, lastMonday, d) <==> InWindow(t, lastMonday) && BinIndex(t, lastMonday) == d
  {
    if StartsOnDay(t, lastMonday, d) {
      assert t.start < lastMonday + WeekSeconds;
    }
  }

  /** The seven day totals of a focus, as the source's inner loop
      accumulates them. */
  method WeekBins(times: seq<Time>, lastMonday: real) returns (bins: seq<real>)
    ensures |bins| == 7
    ensures forall d :: 0 <= d < 7 ==> bins[d] == DayTotal(times, lastMonday, d)
  {
    bins := [0.0, 0.0, 0.0, 0.0, 0.0, 0.0, 0.0];
    for k := 0 to |times|
      invariant |bins| == 7
      invariant forall d :: 0 <= d < 7 ==> bins[d] == DayTotal(times[..k], lastMonday, d)
    {
      var t := times[k];
      assert times[..k + 1][..k] == times[..k];
      if t.start > lastMonday && t.start < lastMonday + WeekSeconds {
        var i := BinIndex(t, lastMonday);
        bins := bins[i := bins[i] + t.length];
        forall d | 0 <= d < 7
          ensures bins[d] == DayTotal(times[..k + 1], lastMonday, d)
        {
          StartsOnDayIffBin(t, lastMonday, d);
        }
      } else {
        forall d | 0 <= d < 7
          ensures bins[d] == DayTotal(times[..k + 1], lastMonday, d)
        {
          StartsOnDayIffBin(t, lastMonday, d);
        }
      }
    }
    assert times[..|times|] == times;
  }

  // ---------------------------------------------------------------------
  // Chart rows

  /** The focuses whose report toggle is on, in store order. */
  function Selected(focuses: seq<Focus>): seq<Focus>
  {
    if focuses == [] then []
    else
      var f := focuses[|focuses| - 1];
      Selected(focuses[..|focuses| - 1]) + (if f.isSelected then [f] else [])
  }

  /** The seven rows of one focus, Monday first, minutes = seconds / 60. */
  function FocusRows(f: Focus, lastMonday: real): seq<FocusChartData>
  {
    seq(7, d requires 0 <= d < 7 => FocusChartData(Days[d], DayTotal(f.times, lastMonday, d) / 60.0, f.name))
  }

  /** Reference definition of the chart: the rows of each focus, in store
      order, for the focuses whose toggle is on. */
  function ChartRows(focuses: seq<Focus>, lastMonday: real): seq<FocusChartData>
  {
    if focuses == [] then []
    else
      var f := focuses[|focuses| - 1];
      ChartRows(focuses[..|focuses| - 1], lastMonday)
      + (if f.isSelected then FocusRows(f, lastMonday) else [])
  }

  /** `getFocusChartData`, with the Monday passed in: the two nested loops of
      the source compute the reference chart, seven rows per selected focus. */
  method GetFocusChartData(focuses: seq<Focus>, lastMonday: real) returns (ret: seq<FocusChartData>)
    ensures ret == ChartRows(focuses, lastMonday)
    ensures |ret| == 7 * |Selected(focuses)|
  {
    ret := [];
    for k := 0 to |focuses|
      invariant ret == ChartRows(focuses[..k], lastMonday)
    {
      var focus := focuses[k];
      assert focuses[..k + 1][..k] == focuses[..k];
      if focus.isSelected {
        var bins := WeekBins(focus.times, lastMonday);
        ghost var before := ret;
        for i := 0 to 7
          invariant ret == before + FocusRows(focus, lastMonday)[..i]
        {
          ret := ret + [FocusChartData(Days[i], bins[i] / 60.0, focus.name)];
          assert FocusRows(focus, lastMonday)[..i + 1]
              == FocusRows(focus, lastMonday)[..i] + [FocusRows(focus, lastMonday)[i]];
        }
        assert FocusRows(focus, lastMonday)[..7] == FocusRows(focus, lastMonday);
      }
    }
    assert focuses[..|focuses|] == focuses;
    ChartRowsLength(focuses, lastMonday);
  }

  /** Seven rows for every selected focus and none for the others. */
  lemma {:induction false} ChartRowsLength(focuses: seq<Focus>, lastMonday: real)
    ensures |ChartRows(focuses, lastMonday)| == 7 * |Selected(focuses)|
  {
    if focuses != [] {
      ChartRowsLength(focuses[..|focuses| - 1], lastMonday);
    }
  }

  /** Row 7j+d is day d of the j-th selected focus: rows are grouped by
      focus in store order, the days run M,T,W,R,F,S,U within a group, and
      every row of a group, zero or not, carries that focus's name. */
  lemma {:induction false} ChartRowsLayout(focuses: seq<Focus>, lastMonday: real, j: int, d: int)
    requires 0 <= j < |Selected(focuses)| && 0 <= d < 7
    ensures 7 * j + d < |ChartRows(focuses, lastMonday)|
    ensures ChartRows(focuses, lastMonday)[7 * j + d]
         == FocusChartData(Days[d], DayTotal(Selected(focuses)[j].times, lastMonday, d) / 60.0, Selected(focuses)[j].name)
  {
    var init := focuses[..|focuses| - 1];
    var f := focuses[|focuses| - 1];
    ChartRowsLength(init, lastMonday);
    if j < |Selected(init)| {
      ChartRowsLayout(init, lastMonday, j, d);
    } else {
      assert f.isSelected && j == |Selected(init)|;
      assert Selected(focuses)[j] == f;
    }
  }

  /** Selected(...) is empty exactly when no toggle is on. */
  lemma {:induction false} SelectedEmptyIff(focuses: seq<Focus>)
    ensures Selected(focuses) == [] <==> forall i :: 0 <= i < |focuses| ==> !focuses[i].isSelected
  {
    if focuses != [] {
      var init := focuses[..|focuses| - 1];
      SelectedEmptyIff(init);
      if Selected(focuses) == [] {
        forall i | 0 <= i < |focuses|
          ensures !focuses[i].isSelected
        {
          if i < |init| {
            assert focuses[i] == init[i];
          }
        }
      }
    }
  }

  /** The chart is empty, and the placeholder is drawn, exactly when no
      focus is selected. */
  lemma ChartEmptyIffNoneSelected(focuses: seq<Focus>, lastMonday: real)
    ensures ChartRows(focuses, lastMonday) == [] <==> forall i :: 0 <= i < |focuses| ==> !focuses[i].isSelected
  {
    ChartRowsLength(focuses, lastMonday);
    SelectedEmptyIff(focuses);
  }

  /** The chart of a concatenated list is the concatenation of the charts. */
  lemma {:induction false} ChartRowsAppend(a: seq<Focus>, b: seq<Focus>, lastMonday: real)
    ensures ChartRows(a + b, lastMonday) == ChartRows(a, lastMonday) + ChartRows(b, lastMonday)
  {
    if b == [] {
      assert a + b == a;
    } else {
      var binit := b[..|b| - 1];
      assert (a + b)[..|a + b| - 1] == a + binit;
      ChartRowsAppend(a, binit, lastMonday);
    }
  }

  /** The chart splits around any one focus: that focus contributes its
      seven rows when selected and nothing otherwise, and the rows of the
      others do not depend on it. */
  lemma ChartRowsSplit(focuses: seq<Focus>, k: int, lastMonday: real)
    requires 0 <= k < |focuses|
    ensures ChartRows(focuses, lastMonday)
         == ChartRows(focuses[..k], lastMonday)
          + (if focuses[k].isSelected then FocusRows(focuses[k], lastMonday) else [])
          + ChartRows(focuses[k + 1..], lastMonday)
  {
    assert focuses == focuses[..k] + [focuses[k]] + focuses[k + 1..];
    ChartRowsAppend(focuses[..k] + [focuses[k]], focuses[k + 1..], lastMonday);
    ChartRowsAppend(focuses[..k], [focuses[k]], lastMonday);
    assert [focuses[k]][..0] == [];
  }

  // ---------------------------------------------------------------------
  // Sums

  /** Total minutes over a list of rows. */
  function SumMinutes(rows: seq<FocusChartData>): real
  {
    if rows == [] then 0.0 else SumMinutes(rows[..|rows| - 1]) + rows[|rows| - 1].minutes
  }

  /** The seven day totals add up to the week's total: every admitted
      interval lands in exactly one day and nothing else lands anywhere. */
  lemma {:induction false} DaysPartitionWindow(times: seq<Time>, lastMonday: real)
    ensures DayTotal(times, lastMonday, 0) + DayTotal(times, lastMonday, 1) + DayTotal(times, lastMonday, 2)
          + DayTotal(times, lastMonday, 3) + DayTotal(times, lastMonday, 4) + DayTotal(times, lastMonday, 5)
          + DayTotal(times, lastMonday, 6)
         == WindowTotal(times, lastMonday)
  {
    if times != [] {
      var t := times[|times| - 1];
      DaysPartitionWindow(times[..|times| - 1], lastMonday);
      forall d | 0 <= d < 7
        ensures StartsOnDay(t, lastMonday, d) <==> InWindow(t, lastMonday) && BinIndex(t, lastMonday) == d
      {
        StartsOnDayIffBin(t, lastMonday, d);
      }
    }
  }

  /** A focus's seven minute values add up to its in-window seconds / 60. */
  lemma FocusMinutesSum(f: Focus, lastMonday: real)
    ensures SumMinutes(FocusRows(f, lastMonday)) == WindowTotal(f.times, lastMonday) / 60.0
  {
    var rows := FocusRows(f, lastMonday);
    DaysPartitionWindow(f.times, lastMonday);
    SumSeven(rows);
  }

  /** Unfolds the sum of exactly seven rows. */
  lemma SumSeven(rows: seq<FocusChartData>)
    requires |rows| == 7
    ensures SumMinutes(rows) == rows[0].minutes + rows[1].minutes + rows[2].minutes + rows[3].minutes
                              + rows[4].minutes + rows[5].minutes + rows[6].minutes
  {
    assert rows[..7] == rows;
    forall k | 1 <= k <= 7
      ensures SumMinutes(rows[..k]) == SumMinutes(rows[..k - 1]) + rows[k - 1].minutes
    {
      assert rows[..k][..k - 1] == rows[..k - 1];
    }
    assert rows[..0] == [];
  }

  /** An interval's whole length goes to the day it starts on and to no
      other day, even when it runs past midnight. */
  lemma SingleIntervalRows(t: Time, name: string, sel: bool, lastMonday: real, d: int)
    requires InWindow(t, lastMonday) && 0 <= d < 7
    ensures FocusRows(Focus(name, [t], sel), lastMonday)[d].minutes
         == (if d == BinIndex(t, lastMonday) then t.length / 60.0 else 0.0)
  {
    StartsOnDayIffBin(t, lastMonday, d);
    assert [t][..0] == [];
    assert DayTotal([t], lastMonday, d) == if StartsOnDay(t, lastMonday, d) then t.length else 0.0;
  }

  /** Both window bounds are strict: an interval starting exactly at the
      Monday, or exactly a week later, adds nothing to any day. */
  lemma WindowBoundsExcluded(times: seq<Time>, t: Time, lastMonday: real, d: int)
    requires t.start == lastMonday || t.start == lastMonday + WeekSeconds
    ensures !InWindow(t, lastMonday)
    ensures DayTotal(times + [t], lastMonday, d) == DayTotal(times, lastMonday, d)
    ensures WindowTotal(times + [t], lastMonday) == WindowTotal(times, lastMonday)
  {
    assert (times + [t])[..|times|] == times;
  }

  // ---------------------------------------------------------------------
  // Placeholder chart

  /** `getEmptyFocusChartData`: seven unnamed zero rows, Monday first. */
  method GetEmptyFocusChartData() returns (ret: seq<FocusChartData>)
    ensures |ret| == 7
    ensures forall i :: 0 <= i < 7 ==> ret[i] == FocusChartData(Days[i], 0.0, "")
  {
    ret := [];
    for i := 0 to 7
      invariant |ret| == i
      invariant forall j :: 0 <= j < i ==> ret[j] == FocusChartData(Days[j], 0.0, "")
    {
      ret := ret + [FocusChartData(Days[i], 0.0, "")];
    }
  }

  /** The placeholder is the chart of one unnamed focus with no intervals,
      whatever the week. */
  lemma PlaceholderIsEmptyFocus(lastMonday: real)
    ensures forall i :: 0 <= i < 7 ==>
      FocusRows(NewFocus(""), lastMonday)[i] == FocusChartData(Days[i], 0.0, "")
  {
  }

  // ---------------------------------------------------------------------
  // Vertical limit of the chart

  /** `x.truncatingRemainder(dividingBy: 15)`: the remainder of the quotient
      truncated toward zero, so it takes the sign of `x`. */
  function Remainder15(x: real): (r: real)
    ensures 0.0 <= x ==> 0.0 <= r < 15.0
    ensures x < 0.0 ==> -15.0 < r <= 0.0
    ensures Trunc((x - r) / 15.0) as real * 15.0 == x - r
  {
    var q := Trunc(x / 15.0);
    assert Trunc(q as real) == q;
    x - q as real * 15.0
  }

  /** The largest minute value among the rows (`counts.max()`). */
  function MaxMinutes(rows: seq<FocusChartData>): (mx: real)
    requires |rows| > 0
    ensures forall i :: 0 <= i < |rows| ==> rows[i].minutes <= mx
    ensures exists i :: 0 <= i < |rows| && rows[i].minutes == mx
  {
    if |rows| == 1 then rows[0].minutes
    else
      var rest := MaxMinutes(rows[..|rows| - 1]);
      var last := rows[|rows| - 1].minutes;
      if last > rest then last else rest
  }

  /** The y-limit as written: `(max mod 15 + 1) * 15` with a truncating
      remainder. It is at least 15 for a non-negative maximum, but it can be
      negative when every bar is negative. */
  function YLimit(max: real): (y: real)
    ensures 0.0 <= max ==> 15.0 <= y < 240.0
    ensures max < 0.0 ==> -210.0 < y <= 15.0
  {
    (Remainder15(max) + 1.0) * 15.0
  }

  /** The y-domain `0...top` of the chart, or a crash when the top is below
      0 and the closed range cannot be formed. */
  datatype YScale = Domain(top: real) | RangeTrap

  /** The chart's y-domain: `0...15` for the placeholder chart, otherwise
      `0...yLimit` of the largest bar. The range traps exactly when the limit
      is negative, which needs every bar to be negative. */
  function ChartYTop(rows: seq<FocusChartData>): (scale: YScale)
    ensures rows == [] ==> scale == Domain(15.0)
    ensures scale.Domain? ==> 0.0 <= scale.top < 240.0
    ensures scale.RangeTrap? ==> rows != [] && forall i :: 0 <= i < |rows| ==> rows[i].minutes < 0.0
  {
    if rows == [] then Domain(15.0)
    else
      var y := YLimit(MaxMinutes(rows));
      if y < 0.0 then RangeTrap else Domain(y)
  }

  /** The chart's top is between 15 and 240 whenever no bar is negative. */
  lemma ChartYTopRange(rows: seq<FocusChartData>)
    requires forall i :: 0 <= i < |rows| ==> 0.0 <= rows[i].minutes
    ensures ChartYTop(rows).Domain?
    ensures 15.0 <= ChartYTop(rows).top < 240.0
  {
    if rows != [] {
      assert 0.0 <= rows[0].minutes <= MaxMinutes(rows);
    }
  }

  /** A chart whose only bar is -3 minutes (a session with a negative
      length) gets the limit -30, and the range `0...-30` traps. */
  lemma NegativeBarsTrap()
    ensures YLimit(-3.0) == -30.0
    ensures ChartYTop([FocusChartData("M", -3.0, "a")]).RangeTrap?
  {
    assert Trunc(-3.0 / 15.0) == 0;
  }

  /** The limit as written is not an upper bound of the data: a 300-minute
      bar gets a 15-minute axis. */
  lemma YLimitBelowMax()
    ensures YLimit(300.0) == 15.0
    ensures YLimit(300.0) < 300.0
  {
    assert Trunc(300.0 / 15.0) == 20;
  }

  /** The evidently intended limit: the next multiple of 15 above the
      largest bar. */
  function CeilYLimit(max: real): (y: real)
    requires 0.0 <= max
    ensures max < y <= max + 15.0
    ensures 15.0 <= y
    ensures (Trunc(y / 15.0) as real) * 15.0 == y
  {
    var n := Trunc(max / 15.0) + 1;
    assert (n as real * 15.0) / 15.0 == n as real;
    assert Trunc(n as real) == n;
    n as real * 15.0
  }

  // ---------------------------------------------------------------------
  // Week navigation

  /** "Next Week": move the reference date seven days forward. */
  function NextWeek(today: real): (r: real)
    ensures today < r && r - today == 7.0 * DaySeconds
  {
    today + WeekSeconds
  }

  /** "Last Week": move the reference date seven days back; "Next Week"
      undoes it. */
  function LastWeek(today: real): (r: real)
    ensures r < today && today - r == 7.0 * DaySeconds
    ensures NextWeek(r) == today
  {
    today - WeekSeconds
  }

  /** Forward then back, or back then forward, restores the reference date. */
  lemma NavigationRoundTrip(today: real)
    ensures LastWeek(NextWeek(today)) == today
    ensures NextWeek(LastWeek(today)) == today
  {
  }
}
