// The local telemetry buffer (frontend/src/app/telemetry.js): `trackEvent`
// appends to the stored list and keeps its last 200 entries; `getTrackedEvents`
// reads the list back. The stored text and its JSON parse are modelled by
// what the parse yields; the clock is an input; the upload to the backend is
// recorded only as whether it is started.
module Telemetry {
  import opened Seqs
  import opened Js

  const MaxEvents: nat := 200

  /** One tracked event: its name, its payload and when it happened. */
  datatype Event = Event(name: string, payload: JsValue, at: string)

  /**
   * What the storage key holds, seen through `JSON.parse`: nothing, text
   * that does not parse, a list of events, or some other JSON value that is
   * not a list (spreading it throws).
   */
  datatype Stored = Absent | Garbled | Events(events: seq<Event>) | NotAList(value: JsValue)

  /** `[...current, event].slice(-MAX_EVENTS)`. */
  function Appended(current: seq<Event>, event: Event): (next: seq<Event>)
    ensures |next| <= MaxEvents
    ensures next != [] && next[|next| - 1] == event
    ensures |current| < MaxEvents ==> next == current + [event]
    ensures exists k :: 0 <= k <= |current| && next == (current + [event])[k..]
    ensures |current| >= MaxEvents ==> next == (current + [event])[|current| + 1 - MaxEvents..]
  {
    var all := current + [event];
    var next := TakeLast(all, MaxEvents);
    assert next == all[|all| - |next|..];
    next
  }

  /** The stored list after `trackEvent`, and whether the upload was started. */
  datatype Tracked = Tracked(stored: Stored, uploaded: bool)

  /**
   * `trackEvent`: a readable buffer (or none) gets the event appended and
   * the upload starts; an unreadable buffer makes the body throw, and the
   * error is swallowed, so nothing is stored or sent.
   */
  function TrackEvent(stored: Stored, event: Event): (r: Tracked)
    ensures stored.Absent? ==> r == Tracked(Events([event]), true)
    ensures stored.Events? ==> r == Tracked(Events(Appended(stored.events, event)), true)
    ensures stored.Garbled? || stored.NotAList? ==> r == Tracked(stored, false)
  {
    match stored
    case Absent => Tracked(Events(Appended([], event)), true)
    case Events(current) => Tracked(Events(Appended(current, event)), true)
    case _ => Tracked(stored, false)
  }

  /** What `getTrackedEvents` returns: a list of events, or whatever other value was stored. */
  datatype Read = List(events: seq<Event>) | Other(value: JsValue)

  /** `getTrackedEvents`: `[]` for an absent or unparsable buffer. */
  function GetTrackedEvents(stored: Stored): (r: Read)
    ensures stored.Absent? || stored.Garbled? ==> r == List([])
    ensures stored.Events? ==> r == List(stored.events)
  {
    match stored
    case Absent => List([])
    case Garbled => List([])
    case Events(es) => List(es)
    case NotAList(v) => Other(v)
  }

  /**
   * After tracking into a readable buffer, the events read back are at most
   * 200, end with the new event, and keep every earlier event when there was
   * room.
   */
  lemma TrackThenRead(stored: Stored, event: Event)
    requires stored.Absent? || stored.Events?
    ensures var read := GetTrackedEvents(TrackEvent(stored, event).stored);
      && read.List?
      && |read.events| <= MaxEvents
      && read.events[|read.events| - 1] == event
      && (stored.Events? && |stored.events| < MaxEvents ==> read.events == stored.events + [event])
  {
  }

  /** A full buffer stays full: the oldest event is dropped to make room. */
  lemma {:induction false} FullBufferDropsOldest(current: seq<Event>, event: Event)
    requires |current| == MaxEvents
    ensures Appended(current, event) == current[1..] + [event]
  {
    var all := current + [event];
    assert TakeLast(all, MaxEvents) == all[1..];
    assert all[1..] == current[1..] + [event];
  }
}
