/** The timer and the focus-list edits of ContentView.swift, as transitions
    over the view's state. The clock is an input (`now`). Swift traps on an
    array index out of range; such a step is modelled as the outcome `Trap`. */
module Tracker {
  import opened Model

  /** The state the buttons act on: the stored focuses, the timer, the two
      pickers' indices and the new-focus text field. */
  datatype TrackerState = TrackerState(
    focuses: seq<Focus>,
    running: bool,
    start: real,
    selectedFocus: int,
    removeFocus: int,
    newFocus: string)

  /** The result of a button press: the next state, or a crash on an index
      out of range. */
  datatype Outcome = Next(state: TrackerState) | Trap

  /** The view when it appears: stored focuses and stored selection, timer
      idle with `start = 0`, remove picker at 0, empty text field. */
  function Launch(focuses: seq<Focus>, selectedFocus: int): (s: TrackerState)
    ensures s.focuses == focuses && s.selectedFocus == selectedFocus
    ensures !s.running && s.start == 0.0
    ensures s.removeFocus == 0 && s.newFocus == ""
  {
    TrackerState(focuses, false, 0.0, selectedFocus, 0, "")
  }

  /** The play button, shown only while idle: remember the time, start running.
      The focuses are not touched. */
  function Start(s: TrackerState, now: real): (s': TrackerState)
    requires !s.running
    ensures s'.running && s'.start == now
    ensures s'.focuses == s.focuses
    ensures s'.selectedFocus == s.selectedFocus && s'.removeFocus == s.removeFocus && s'.newFocus == s.newFocus
  {
    s.(start := now, running := true)
  }

  /** The pause button, shown only while running: append one interval from
      the remembered start to `now` (not clamped at zero) to the focus the
      picker selects at this moment, and stop. Traps when the selection is
      not an index of the list. */
  function Stop(s: TrackerState, now: real): (o: Outcome)
    requires s.running
    ensures o.Trap? <==> !(0 <= s.selectedFocus < |s.focuses|)
    ensures o.Next? ==>
      var k := s.selectedFocus;
      var fs' := o.state.focuses;
      && |fs'| == |s.focuses|
      && fs'[k].times == s.focuses[k].times + [Time(s.start, now - s.start)]
      && fs'[k].name == s.focuses[k].name
      && fs'[k].isSelected == s.focuses[k].isSelected
      && (forall i :: 0 <= i < |fs'| && i != k ==> fs'[i] == s.focuses[i])
      && !o.state.running
      && o.state.start == s.start
      && o.state.selectedFocus == s.selectedFocus
      && o.state.removeFocus == s.removeFocus
      && o.state.newFocus == s.newFocus
  {
    if 0 <= s.selectedFocus < |s.focuses| then
      var f := s.focuses[s.selectedFocus];
      var f' := f.(times := f.times + [Time(s.start, now - s.start)]);
      Next(s.(focuses := s.focuses[s.selectedFocus := f'], running := false))
    else
      Trap
  }

  /** "Add Focus" and submitting the text field (both do the same): append
      a fresh focus named by the field, even an empty name, and clear the
      field. */
  function AddFocus(s: TrackerState): (s': TrackerState)
    ensures |s'.focuses| == |s.focuses| + 1
    ensures s'.focuses[..|s.focuses|] == s.focuses
    ensures s'.focuses[|s.focuses|] == Focus(s.newFocus, [], false)
    ensures s'.newFocus == ""
    ensures s'.running == s.running && s'.start == s.start
    ensures s'.selectedFocus == s.selectedFocus && s'.removeFocus == s.removeFocus
  {
    s.(focuses := s.focuses + [NewFocus(s.newFocus)], newFocus := "")
  }

  /** "Remove Focus": delete the focus at the remove picker's index, keep
      the others in order, and reset that picker to 0. The current-focus
      selection is left as it was, even when it now points past the end.
      Traps when the index is not an index of the list. */
  function RemoveFocus(s: TrackerState): (o: Outcome)
    ensures o.Trap? <==> !(0 <= s.removeFocus < |s.focuses|)
    ensures o.Next? ==>
      var k := s.removeFocus;
      var fs' := o.state.focuses;
      && |fs'| == |s.focuses| - 1
      && (forall i :: 0 <= i < k ==> fs'[i] == s.focuses[i])
      && (forall i :: k <= i < |fs'| ==> fs'[i] == s.focuses[i + 1])
      && o.state.removeFocus == 0
      && o.state.selectedFocus == s.selectedFocus
      && o.state.running == s.running && o.state.start == s.start
      && o.state.newFocus == s.newFocus
  {
    if 0 <= s.removeFocus < |s.focuses| then
      Next(s.(focuses := s.focuses[..s.removeFocus] + s.focuses[s.removeFocus + 1..], removeFocus := 0))
    else
      Trap
  }

  /** The "Current Focus" picker: it only offers indices of the list. */
  function PickCurrent(s: TrackerState, i: int): (s': TrackerState)
    requires 0 <= i < |s.focuses|
    ensures s'.selectedFocus == i
    ensures s'.focuses == s.focuses && s'.running == s.running && s'.start == s.start
    ensures s'.removeFocus == s.removeFocus && s'.newFocus == s.newFocus
  {
    s.(selectedFocus := i)
  }

  /** The "Remove Focus" picker: it only offers indices of the list. */
  function PickRemove(s: TrackerState, i: int): (s': TrackerState)
    requires 0 <= i < |s.focuses|
    ensures s'.removeFocus == i
    ensures s'.focuses == s.focuses && s'.running == s.running && s'.start == s.start
    ensures s'.selectedFocus == s.selectedFocus && s'.newFocus == s.newFocus
  {
    s.(removeFocus := i)
  }

  /** The report toggle of StatsView: set one focus's `isSelected`; its
      name and intervals, and every other focus, stay as they were. */
  function SetReportToggle(s: TrackerState, i: int, on: bool): (s': TrackerState)
    requires 0 <= i < |s.focuses|
    ensures |s'.focuses| == |s.focuses|
    ensures s'.focuses[i].isSelected == on
    ensures s'.focuses[i].name == s.focuses[i].name && s'.focuses[i].times == s.focuses[i].times
    ensures forall j :: 0 <= j < |s.focuses| && j != i ==> s'.focuses[j] == s.focuses[j]
    ensures s'.running == s.running && s'.start == s.start
    ensures s'.selectedFocus == s.selectedFocus && s'.removeFocus == s.removeFocus && s'.newFocus == s.newFocus
  {
    s.(focuses := s.focuses[i := s.focuses[i].(isSelected := on)])
  }

  // ---------------------------------------------------------------------
  // Properties of runs

  /** Every focus's name is the same in both lists, position by position. */
  predicate SameNames(a: seq<Focus>, b: seq<Focus>)
  {
    |a| == |b| && forall i :: 0 <= i < |a| ==> a[i].name == b[i].name
  }

  /** A play followed by a pause, with nothing in between, records exactly
      one interval, from the play time to the pause time, on the selected
      focus, and leaves the timer idle. */
  lemma StartThenStop(s: TrackerState, t0: real, t1: real)
    requires !s.running && 0 <= s.selectedFocus < |s.focuses|
    ensures Stop(Start(s, t0), t1).Next?
    ensures
      var s' := Stop(Start(s, t0), t1).state;
      var k := s.selectedFocus;
      && !s'.running
      && SameNames(s'.focuses, s.focuses)
      && |s'.focuses[k].times| == |s.focuses[k].times| + 1
      && s'.focuses[k].times[|s.focuses[k].times|] == Time(t0, t1 - t0)
  {
  }

  /** The interval goes to the focus selected when the pause button is
      pressed: changing the picker while running moves the whole session to
      the newly picked focus and leaves the one selected at play untouched. */
  lemma StopChargesSelectionAtStop(s: TrackerState, t0: real, t1: real, j: int)
    requires !s.running && 0 <= s.selectedFocus < |s.focuses|
    requires 0 <= j < |s.focuses| && j != s.selectedFocus
    ensures Stop(PickCurrent(Start(s, t0), j), t1).Next?
    ensures
      var fs' := Stop(PickCurrent(Start(s, t0), j), t1).state.focuses;
      && fs'[s.selectedFocus] == s.focuses[s.selectedFocus]
      && fs'[j].times == s.focuses[j].times + [Time(t0, t1 - t0)]
  {
  }

  /** Removing the last focus while it is the current one leaves the
      selection dangling, and the next pause then traps: no button brings
      the selection back in range, only using the current-focus picker
      again does. */
  lemma StaleSelectionAfterRemove(s: TrackerState, now: real)
    requires |s.focuses| > 0 && !s.running
    requires s.selectedFocus == |s.focuses| - 1 && s.removeFocus == |s.focuses| - 1
    ensures RemoveFocus(s).Next?
    ensures
      var s' := RemoveFocus(s).state;
      s'.selectedFocus == |s'.focuses| && Stop(Start(s', now), now).Trap?
  {
  }

  /** After the list has been emptied, "Remove Focus" traps: the picker was
      reset to 0 and there is no element 0. */
  lemma RemoveOnEmptyTraps(s: TrackerState)
    requires s.focuses == []
    ensures RemoveFocus(s).Trap?
  {
  }

  /** One play/pause session: the play time and the pause time. */
  datatype Session = Session(from: real, to: real)

  /** A run of sessions, each a play at `from` followed by a pause at `to`. */
  function RunSessions(s: TrackerState, sessions: seq<Session>): Outcome
    requires !s.running
    decreases |sessions|
  {
    if sessions == [] then Next(s)
    else
      match Stop(Start(s, sessions[0].from), sessions[0].to)
      case Trap => Trap
      case Next(s') => RunSessions(s', sessions[1..])
  }

  /** The intervals recorded for a list of sessions, in order. */
  function SessionTimes(sessions: seq<Session>): seq<Time>
  {
    if sessions == [] then []
    else [Time(sessions[0].from, sessions[0].to - sessions[0].from)] + SessionTimes(sessions[1..])
  }

  /** One session records one interval on the selected focus and keeps
      the timer idle, the selection and the list length. */
  lemma OneSession(s: TrackerState, se: Session)
    requires !s.running && 0 <= s.selectedFocus < |s.focuses|
    ensures Stop(Start(s, se.from), se.to).Next?
    ensures
      var s' := Stop(Start(s, se.from), se.to).state;
      var k := s.selectedFocus;
      && !s'.running
      && s'.selectedFocus == k
      && |s'.focuses| == |s.focuses|
      && s'.focuses[k].times == s.focuses[k].times + [Time(se.from, se.to - se.from)]
      && s'.focuses[k].name == s.focuses[k].name
      && (forall i :: 0 <= i < |s.focuses| && i != k ==> s'.focuses[i] == s.focuses[i])
  {
  }

  /** With a valid selection, n sessions append exactly n intervals, each
      as long as its session, to the selected focus, in order, keep its
      name and leave the timer idle. */
  lemma {:induction false} SessionsAppendIntervals(s: TrackerState, sessions: seq<Session>)
    requires !s.running && 0 <= s.selectedFocus < |s.focuses|
    ensures RunSessions(s, sessions).Next?
    ensures
      var s' := RunSessions(s, sessions).state;
      var k := s.selectedFocus;
      && !s'.running
      && s'.selectedFocus == k
      && |s'.focuses| == |s.focuses|
      && s'.focuses[k].times == s.focuses[k].times + SessionTimes(sessions)
      && s'.focuses[k].name == s.focuses[k].name
    decreases |sessions|
  {
    var k := s.selectedFocus;
    if sessions != [] {
      var se := sessions[0];
      OneSession(s, se);
      var s1 := Stop(Start(s, se.from), se.to).state;
      assert RunSessions(s, sessions) == RunSessions(s1, sessions[1..]);
      SessionsAppendIntervals(s1, sessions[1..]);
      assert SessionTimes(sessions) == [Time(se.from, se.to - se.from)] + SessionTimes(sessions[1..]);
      assert s.focuses[k].times + SessionTimes(sessions)
          == s1.focuses[k].times + SessionTimes(sessions[1..]);
    } else {
      assert s.focuses[k].times + [] == s.focuses[k].times;
    }
  }

  /** Sessions on the selected focus leave every other focus unchanged. */
  lemma {:induction false} SessionsKeepOtherFocuses(s: TrackerState, sessions: seq<Session>, i: int)
    requires !s.running && 0 <= s.selectedFocus < |s.focuses|
    requires 0 <= i < |s.focuses| && i != s.selectedFocus
    ensures RunSessions(s, sessions).Next?
    ensures i < |RunSessions(s, sessions).state.focuses|
    ensures RunSessions(s, sessions).state.focuses[i] == s.focuses[i]
    decreases |sessions|
  {
    SessionsAppendIntervals(s, sessions);
    if sessions != [] {
      var se := sessions[0];
      OneSession(s, se);
      var s1 := Stop(Start(s, se.from), se.to).state;
      assert RunSessions(s, sessions) == RunSessions(s1, sessions[1..]);
      SessionsKeepOtherFocuses(s1, sessions[1..], i);
    }
  }
}
