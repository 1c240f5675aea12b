/** Values shared by the front end and the back end of the room-booking system. */
module Common {

  /** A value that may be absent: JavaScript's `null`/`undefined`, Python's `None`. */
  datatype Option<+T> = None | Some(value: T)

  /** A calendar day (date only, no time component). The model compares days
      only for equality; how a day is written or which time zone produced it
      is not modelled. */
  datatype Day = Day(year: int, month: int, day: int)

  /** The outcome of an awaited request: its JSON value, or a thrown error. */
  datatype Fetch<T> = Fetched(value: T) | Failed(message: string)

  /** JavaScript truthiness of an optional string: `null` and `""` are falsy. */
  predicate Truthy(s: Option<string>): (r: bool)
    ensures r <==> s.Some? && |s.value| > 0
  {
    s.Some? && s.value != ""
  }
}

/** The front end's record shapes (frontend/src/interfaces.tsx). */
module Interfaces {
  import opened Common

  /** A booking as the front end receives it: its identifier, its calendar day
      and its time of day as the server writes it ("HH:MM:SS"). */
  datatype Booking = Booking(id: int, date: Day, time: string)

  /** A room as the front end receives it. */
  datatype Room = Room(id: int, name: string)

  /** Whatever a schedule request returned: a JSON array of bookings, or some
      other JSON value (the server answers an object when a room has no
      bookings). */
  datatype Payload = List(items: seq<Booking>) | NotAList
}
