/** How the list edits of the tracker show up in the weekly report. */
module Report {
  import opened Model
  import opened Stats
  import opened Tracker

  /** Removing a focus removes exactly its rows from every week's chart;
      the rows of the other focuses, before and after it, are unaffected. */
  lemma RemoveDropsOnlyItsRows(s: TrackerState, lastMonday: real)
    requires RemoveFocus(s).Next?
    ensures
      var k := s.removeFocus;
      var before := ChartRows(s.focuses[..k], lastMonday);
      var after := ChartRows(s.focuses[k + 1..], lastMonday);
      var own := if s.focuses[k].isSelected then FocusRows(s.focuses[k], lastMonday) else [];
      && ChartRows(s.focuses, lastMonday) == before + own + after
      && ChartRows(RemoveFocus(s).state.focuses, lastMonday) == before + after
  {
    var k := s.removeFocus;
    var fs' := RemoveFocus(s).state.focuses;
    ChartRowsSplit(s.focuses, k, lastMonday);
    assert fs' == s.focuses[..k] + s.focuses[k + 1..];
    ChartRowsAppend(s.focuses[..k], s.focuses[k + 1..], lastMonday);
  }

  /** A session whose start lies outside the displayed week leaves that
      week's chart exactly as it was. */
  lemma StopOutsideWeekKeepsChart(s: TrackerState, now: real, lastMonday: real)
    requires s.running && Stop(s, now).Next?
    requires !InWindow(Time(s.start, now - s.start), lastMonday)
    ensures ChartRows(Stop(s, now).state.focuses, lastMonday) == ChartRows(s.focuses, lastMonday)
  {
    var k := s.selectedFocus;
    var fs := s.focuses;
    var fs' := Stop(s, now).state.focuses;
    var t := Time(s.start, now - s.start);
    assert fs'[k].times[..|fs'[k].times| - 1] == fs[k].times;
    forall d | 0 <= d < 7
      ensures DayTotal(fs'[k].times, lastMonday, d) == DayTotal(fs[k].times, lastMonday, d)
    {
      StartsOnDayIffBin(t, lastMonday, d);
    }
    assert FocusRows(fs'[k], lastMonday) == FocusRows(fs[k], lastMonday);
    ChartRowsSplit(fs, k, lastMonday);
    ChartRowsSplit(fs', k, lastMonday);
    assert fs'[..k] == fs[..k];
    assert fs'[k + 1..] == fs[k + 1..];
  }

  /** A session inside the displayed week raises the selected focus's
      total for its start day by the session's length, and no other day. */
  lemma StopInsideWeekAddsToStartDay(s: TrackerState, now: real, lastMonday: real, d: int)
    requires s.running && Stop(s, now).Next?
    requires InWindow(Time(s.start, now - s.start), lastMonday)
    requires 0 <= d < 7
    ensures
      var k := s.selectedFocus;
      var t := Time(s.start, now - s.start);
      DayTotal(Stop(s, now).state.focuses[k].times, lastMonday, d)
        == DayTotal(s.focuses[k].times, lastMonday, d) + (if d == BinIndex(t, lastMonday) then now - s.start else 0.0)
  {
    var k := s.selectedFocus;
    var t := Time(s.start, now - s.start);
    var ts' := Stop(s, now).state.focuses[k].times;
    assert ts'[..|ts'| - 1] == s.focuses[k].times;
    StartsOnDayIffBin(t, lastMonday, d);
  }

  /** Adding a focus leaves every week's chart unchanged: the new focus is
      not selected for the report. */
  lemma AddFocusKeepsChart(s: TrackerState, lastMonday: real)
    ensures ChartRows(AddFocus(s).focuses, lastMonday) == ChartRows(s.focuses, lastMonday)
  {
    ChartRowsAppend(s.focuses, [NewFocus(s.newFocus)], lastMonday);
    assert [NewFocus(s.newFocus)][..0] == [];
  }

  /** Switching a report toggle off removes exactly that focus's rows from
      every week's chart; switching it on inserts them between the rows of
      the focuses before and after it. */
  lemma ToggleChangesOnlyItsRows(s: TrackerState, i: int, on: bool, lastMonday: real)
    requires 0 <= i < |s.focuses|
    ensures
      var fs' := SetReportToggle(s, i, on).focuses;
      ChartRows(fs', lastMonday)
        == ChartRows(s.focuses[..i], lastMonday)
         + (if on then FocusRows(fs'[i], lastMonday) else [])
         + ChartRows(s.focuses[i + 1..], lastMonday)
  {
    var fs' := SetReportToggle(s, i, on).focuses;
    ChartRowsSplit(fs', i, lastMonday);
    assert fs'[..i] == s.focuses[..i];
    assert fs'[i + 1..] == s.focuses[i + 1..];
  }
}
