/** The value types of the tracker and the store's initial contents
    (SimpleTimeTrackerApp.swift). Timestamps and lengths are exact reals
    counting seconds since the Unix epoch; the generated `id` fields are not
    modelled. */
module Model {

  /** Conventional optional value, used for "nothing stored / could not be decoded". */
  datatype Option<+T> = None | Some(value: T)

  /** One completed work session: when it started and how long it lasted.
      Both fields are immutable (`let`) in the source. */
  datatype Time = Time(start: real, length: real)

  /** A named activity. `name` is immutable; `times` grows when the timer
      stops and `isSelected` is the report toggle. */
  datatype Focus = Focus(name: string, times: seq<Time>, isSelected: bool)

  /** One bar of the weekly chart: day letter, minutes, focus name. */
  datatype FocusChartData = FocusChartData(day: string, minutes: real, name: string)

  /** `Focus(name:)`: the memberwise initialiser with the declared defaults. */
  function NewFocus(name: string): (f: Focus)
    ensures f.name == name
    ensures f.times == []
    ensures !f.isSelected
  {
    Focus(name, [], false)
  }

  /** The store's focus list at launch: the decoded payload when there is
      one, otherwise the declared default, the empty list. `None` stands for
      both "nothing stored under the key" and "the payload did not decode". */
  function InitialFocuses(stored: Option<seq<Focus>>): (fs: seq<Focus>)
    ensures stored.None? ==> fs == []
    ensures stored.Some? ==> fs == stored.value
  {
    match stored
    case None => []
    case Some(decoded) => decoded
  }

  /** The raw string written to storage. `encoded` is the JSON text when the
      encoder succeeds and `None` when it fails; a failure is stored as the
      text of an empty JSON array. */
  function StoredForm(encoded: Option<string>): (raw: string)
    ensures encoded.None? ==> raw == "[]"
    ensures encoded.Some? ==> raw == encoded.value
  {
    match encoded
    case None => "[]"
    case Some(text) => text
  }
}
