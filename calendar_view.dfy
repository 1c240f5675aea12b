/** The main view's selection state (frontend/src/CalendarView.tsx): the shown
    date, the room list, the selected room, its schedule, and the choice of
    either a free time or an existing booking. Network answers are parameters
    of the handlers that consume them. */
module CalendarView {
  import opened Common
  import opened Interfaces
  import TimeIntervals

  /** What the calendar widget hands over: one day, a range, or nothing. */
  datatype DateValue = Single(day: Day) | Range(from: Day, to: Day) | NoDate

  /** The booking request `bookRoom(normalizedDate, selectedTime, selectedRoom.id)`. */
  datatype BookRequest = BookRequest(date: Day, time: string, roomId: int)

  /** The cancel request `cancelBooking(selectedRoom.id, selectedBooking.id)`. */
  datatype CancelRequest = CancelRequest(roomId: int, bookingId: int)

  /** `Array.isArray(data) ? data : []`. */
  function AsSchedule(p: Payload): (r: seq<Booking>)
    ensures p.NotAList? ==> r == []
  {
    if p.List? then p.items else []
  }

  /** The day the slot panel shows: the chosen date, or today when the
      calendar holds a range or nothing (`date instanceof Date ? date : new Date()`). */
  function ShownDay(date: DateValue, today: Day): (r: Day)
    ensures date.Single? ==> r == date.day
    ensures !date.Single? ==> r == today
  {
    if date.Single? then date.day else today
  }

  /** `rooms.some(room => room.id === id)`. */
  predicate HasRoom(rooms: seq<Room>, id: int): (r: bool)
    ensures r <==> exists room :: room in rooms && room.id == id
  {
    exists i :: 0 <= i < |rooms| && rooms[i].id == id
  }

  class View {
    var date: DateValue
    var rooms: seq<Room>
    var selectedRoom: Option<Room>
    var schedule: seq<Booking>
    var error: Option<string>
    var selectedTime: Option<string>
    var selectedBooking: Option<Booking>
    var feedback: Option<string>

    /** A free time and an existing booking are never chosen together, so
        the Book and Cancel buttons are never both enabled. */
    ghost function Valid(): (r: bool)
      reads this
      ensures r ==> !Truthy(selectedTime) || selectedBooking.None?
    {
      !(selectedTime.Some? && selectedBooking.Some?)
    }

    /** The Book button is disabled while no time is chosen (`!selectedTime`).
        Whenever it is enabled, no booking is chosen, so Cancel is disabled. */
    function BookDisabled(): (r: bool)
      requires Valid()
      reads this
      ensures !r ==> selectedBooking.None?
    {
      !Truthy(selectedTime)
    }

    /** The Cancel button is disabled while no booking is chosen. Whenever it
        is enabled, no time is chosen, so Book is disabled. */
    function CancelDisabled(): (r: bool)
      requires Valid()
      reads this
      ensures !r ==> selectedTime.None?
    {
      selectedBooking.None?
    }

    /** The slot panel, rendered only while a room is selected. The stored
        schedule is always an array, so the panel then always shows the full
        grid for the shown day. */
    method ShownIntervals(today: Day) returns (r: Option<seq<TimeIntervals.Interval>>)
      ensures selectedRoom.None? ==> r.None?
      ensures selectedRoom.Some? ==>
        r == Some(TimeIntervals.Grid(schedule, ShownDay(date, today), selectedTime, selectedBooking))
    {
      if selectedRoom.None? {
        return None;
      }
      r := TimeIntervals.RenderTimeIntervals(List(schedule), ShownDay(date, today), selectedTime, selectedBooking);
    }

    /** A click on a rendered slot: `onSelectTime(timeString, booking || null)`.
        A free slot becomes the chosen time; an occupied one hands its booking
        over instead. */
    method ClickSlot(iv: TimeIntervals.Interval)
      requires Valid()
      requires iv.available <==> iv.booking.None?
      modifies this
      ensures Valid()
      ensures iv.available ==> selectedTime == Some(iv.timeString) && selectedBooking == None
      ensures !iv.available ==> selectedBooking == iv.booking && selectedTime == None
      ensures date == old(date) && rooms == old(rooms) && selectedRoom == old(selectedRoom)
      ensures schedule == old(schedule) && error == old(error) && feedback == old(feedback)
    {
      SelectTime(iv.timeString, iv.booking);
    }

    /** The initial state: today's date, nothing loaded, nothing selected. */
    constructor (today: Day)
      ensures Valid()
      ensures date == Single(today) && rooms == [] && selectedRoom == None && schedule == []
      ensures error == None && selectedTime == None && selectedBooking == None && feedback == None
    {
      date := Single(today);
      rooms := [];
      selectedRoom := None;
      schedule := [];
      error := None;
      selectedTime := None;
      selectedBooking := None;
      feedback := None;
    }

    /** The mount effect's answer to `fetchRooms()`. */
    method RoomsLoaded(result: Fetch<seq<Room>>)
      requires Valid()
      modifies this
      ensures Valid()
      ensures result.Fetched? ==> rooms == result.value && error == old(error)
      ensures result.Failed? ==> rooms == old(rooms) && error == Some(result.message)
      ensures date == old(date) && selectedRoom == old(selectedRoom) && schedule == old(schedule)
      ensures selectedTime == old(selectedTime) && selectedBooking == old(selectedBooking)
      ensures feedback == old(feedback)
    {
      match result
      case Fetched(roomsData) => rooms := roomsData;
      case Failed(message) => error := Some(message);
    }

    /** The effect that runs after a date or room change: with a room selected,
        the fetched schedule is stored (as [] when it is not an array); a failed
        fetch sets the error. Without a selected room nothing is fetched. */
    method ScheduleLoaded(result: Fetch<Payload>)
      requires Valid()
      modifies this
      ensures Valid()
      ensures selectedRoom.Some? && result.Fetched? ==> schedule == AsSchedule(result.value) && error == old(error)
      ensures selectedRoom.Some? && result.Failed? ==> schedule == old(schedule) && error == Some(result.message)
      ensures selectedRoom.None? ==> schedule == old(schedule) && error == old(error)
      ensures date == old(date) && rooms == old(rooms) && selectedRoom == old(selectedRoom)
      ensures selectedTime == old(selectedTime) && selectedBooking == old(selectedBooking)
      ensures feedback == old(feedback)
    {
      if selectedRoom.Some? {
        match result
        case Fetched(scheduleData) => schedule := AsSchedule(scheduleData);
        case Failed(message) => error := Some(message);
      }
    }

    /** `handleDateChange`: the new date; room, time and booking choices cleared.
        The schedule is left as it was. */
    method DateChange(value: DateValue)
      requires Valid()
      modifies this
      ensures Valid()
      ensures date == value && selectedRoom == None && selectedTime == None && selectedBooking == None
      ensures rooms == old(rooms) && schedule == old(schedule) && error == old(error) && feedback == old(feedback)
    {
      date := value;
      selectedRoom := None;
      selectedTime := None;
      selectedBooking := None;
    }

    /** `handleRoomClick`: the clicked room; time and booking choices cleared;
        the date untouched. */
    method RoomClick(room: Room)
      requires Valid()
      modifies this
      ensures Valid()
      ensures selectedRoom == Some(room) && selectedTime == None && selectedBooking == None
      ensures date == old(date) && rooms == old(rooms) && schedule == old(schedule)
      ensures error == old(error) && feedback == old(feedback)
    {
      selectedRoom := Some(room);
      selectedTime := None;
      selectedBooking := None;
    }

    /** `handleSelectTime`: a click on an occupied slot chooses its booking and
        drops the chosen time; a click on a free slot chooses its time and
        drops the chosen booking. */
    method SelectTime(timeString: string, booking: Option<Booking>)
      requires Valid()
      modifies this
      ensures Valid()
      ensures booking.Some? ==> selectedBooking == booking && selectedTime == None
      ensures booking.None? ==> selectedTime == Some(timeString) && selectedBooking == None
      ensures date == old(date) && rooms == old(rooms) && selectedRoom == old(selectedRoom)
      ensures schedule == old(schedule) && error == old(error) && feedback == old(feedback)
    {
      if booking.Some? {
        selectedBooking := booking;
        selectedTime := None;
      } else {
        selectedTime := Some(timeString);
        selectedBooking := None;
      }
    }

    /** `handleRoomChange`, once `fetchRooms()` has answered: the fetched list
        replaces `rooms`; when the selected room's id is no longer in it, the
        selected room is dropped and the schedule emptied. A failed fetch is an
        unhandled rejection and changes nothing. */
    method RoomChange(result: Fetch<seq<Room>>)
      requires Valid()
      modifies this
      ensures Valid()
      ensures result.Failed? ==>
        rooms == old(rooms) && selectedRoom == old(selectedRoom) && schedule == old(schedule)
      ensures result.Fetched? ==> rooms == result.value
      ensures result.Fetched? && old(selectedRoom).Some? && !HasRoom(result.value, old(selectedRoom).value.id) ==>
        selectedRoom == None && schedule == []
      ensures result.Fetched? && (old(selectedRoom).None? || HasRoom(result.value, old(selectedRoom).value.id)) ==>
        selectedRoom == old(selectedRoom) && schedule == old(schedule)
      ensures date == old(date) && selectedTime == old(selectedTime) && selectedBooking == old(selectedBooking)
      ensures error == old(error) && feedback == old(feedback)
    {
      if result.Fetched? {
        var roomsData := result.value;
        rooms := roomsData;
        if selectedRoom.Some? && !HasRoom(roomsData, selectedRoom.value.id) {
          selectedRoom := None;
          schedule := [];
        }
      }
    }

    /** `handleBookClick`. The request goes out only for a single date with a
        room and a time chosen; `booked` says whether it succeeded and
        `refreshed` is the answer to the schedule fetch that follows. Success
        sets the feedback and stores the refreshed schedule, but keeps the
        chosen time. A failed request is an unhandled rejection: nothing changes. */
    method BookClick(booked: bool, refreshed: Fetch<Payload>) returns (request: Option<BookRequest>)
      requires Valid()
      modifies this
      ensures Valid()
      ensures request.Some? <==> old(date).Single? && old(selectedRoom).Some? && Truthy(old(selectedTime))
      ensures request.Some? ==>
        request.value == BookRequest(old(date).day, old(selectedTime).value, old(selectedRoom).value.id)
      ensures request.Some? && booked ==> feedback == Some("Room booked successfully")
      ensures request.Some? && booked && refreshed.Fetched? ==> schedule == AsSchedule(refreshed.value)
      ensures request.None? || !booked ==> feedback == old(feedback) && schedule == old(schedule)
      ensures refreshed.Failed? ==> schedule == old(schedule)
      ensures date == old(date) && rooms == old(rooms) && selectedRoom == old(selectedRoom)
      ensures selectedTime == old(selectedTime) && selectedBooking == old(selectedBooking)
      ensures error == old(error)
    {
      request := None;
      if date.Single? {
        if selectedRoom.Some? && Truthy(selectedTime) {
          request := Some(BookRequest(date.day, selectedTime.value, selectedRoom.value.id));
          if booked {
            feedback := Some("Room booked successfully");
            if refreshed.Fetched? {
              schedule := AsSchedule(refreshed.value);
            }
          }
        }
      }
    }

    /** `handleCancelClick`. The request goes out only with a room and a
        booking chosen; on success the feedback is set, the chosen booking is
        dropped and the refreshed schedule stored. A failed request changes
        nothing. */
    method CancelClick(cancelled: bool, refreshed: Fetch<Payload>) returns (request: Option<CancelRequest>)
      requires Valid()
      modifies this
      ensures Valid()
      ensures request.Some? <==> old(selectedRoom).Some? && old(selectedBooking).Some?
      ensures request.Some? ==>
        request.value == CancelRequest(old(selectedRoom).value.id, old(selectedBooking).value.id)
      ensures request.Some? && cancelled ==>
        feedback == Some("Booking canceled successfully") && selectedBooking == None
      ensures request.Some? && cancelled && refreshed.Fetched? ==> schedule == AsSchedule(refreshed.value)
      ensures request.None? || !cancelled ==>
        feedback == old(feedback) && selectedBooking == old(selectedBooking) && schedule == old(schedule)
      ensures refreshed.Failed? ==> schedule == old(schedule)
      ensures date == old(date) && rooms == old(rooms) && selectedRoom == old(selectedRoom)
      ensures selectedTime == old(selectedTime) && error == old(error)
    {
      request := None;
      if selectedRoom.Some? && selectedBooking.Some? {
        request := Some(CancelRequest(selectedRoom.value.id, selectedBooking.value.id));
        if cancelled {
          feedback := Some("Booking canceled successfully");
          selectedBooking := None;
          if refreshed.Fetched? {
            schedule := AsSchedule(refreshed.value);
          }
        }
      }
    }

    /** The booking form's `onBookingSuccess`: with a room selected, the
        refreshed schedule is stored; nothing else changes. */
    method BookingFormSucceeded(refreshed: Fetch<Payload>)
      requires Valid()
      modifies this
      ensures Valid()
      ensures selectedRoom.Some? && refreshed.Fetched? ==> schedule == AsSchedule(refreshed.value)
      ensures selectedRoom.None? || refreshed.Failed? ==> schedule == old(schedule)
      ensures date == old(date) && rooms == old(rooms) && selectedRoom == old(selectedRoom)
      ensures selectedTime == old(selectedTime) && selectedBooking == old(selectedBooking)
      ensures error == old(error) && feedback == old(feedback)
    {
      if selectedRoom.Some? && refreshed.Fetched? {
        schedule := AsSchedule(refreshed.value);
      }
    }
  }

  /** Choosing a free time and then a booking leaves only the booking chosen;
      the Book and Cancel buttons follow. */
  method SelectionScenario(today: Day, room: Room, b: Booking) returns (v: View)
    ensures v.Valid()
    ensures v.selectedBooking == Some(b) && v.selectedTime == None && !v.CancelDisabled() && v.BookDisabled()
  {
    v := new View(today);
    v.RoomClick(room);
    v.SelectTime("10:00", None);
    assert v.selectedTime == Some("10:00") && !v.BookDisabled() && v.CancelDisabled();
    v.SelectTime("10:30", Some(b));
  }

  /** Choosing a booking and then a free time leaves only the time chosen;
      the Book and Cancel buttons follow. */
  method ReverseSelectionScenario(today: Day, room: Room, b: Booking) returns (v: View)
    ensures v.Valid()
    ensures v.selectedTime == Some("10:00") && v.selectedBooking == None && !v.BookDisabled() && v.CancelDisabled()
  {
    v := new View(today);
    v.RoomClick(room);
    v.SelectTime("10:30", Some(b));
    assert v.selectedBooking == Some(b) && v.BookDisabled() && !v.CancelDisabled();
    v.SelectTime("10:00", None);
  }
}
