# Room booking: a Dafny model of its decision logic

The system books meeting rooms in half-hour slots. A React front end shows a
calendar, a list of rooms and a grid of time slots. A Django back end keeps a
table of rooms and a table of bookings. This project models the parts of the
system that make decisions, and proves what they promise:

- **The slot grid** (`TimeIntervals`, time_intervals.dfy). The rendering loop
  walks from 06:00 to 22:00, both included, in 30-minute steps. Each slot gets
  a zero-padded "HH:MM" label, and the slot is occupied by the first booking of
  the shown day whose time, cut to five characters, equals that label.
  Times of day are minutes since midnight. `Label` has an inverse,
  `ParseLabel`; the two round-trip lemmas make `Label` a bijection, and the
  grid lemmas follow from that.
- **The selection state** (`CalendarView`, calendar_view.dfy). This is a class
  whose methods are the view's handlers. Every handler keeps the invariant that
  a chosen free time and a chosen booking are never both set. Network answers
  (a fetched schedule, a refreshed room list, whether a book or cancel request
  succeeded) are method parameters.
- **The booking store** (`RoomStore`, room_store.dfy). This is a class over
  the room table (id to name) and the booking table (id to room, day, time).
  Its methods are the request handlers. They return a status (200, 400 or 404)
  with a body. Taking each request as one atomic step, they keep the tables
  consistent: ids are fresh, every booking's room exists, and room names are
  unique. The "any free room" booking picks a
  room by an unconstrained choice.
- **Seeding** (`SeedRooms`, seed_rooms.dfy). The management command
  get-or-creates the rooms "1" to "5". It is proved to create exactly the
  missing names, to keep existing rooms, and to be idempotent.
- **The room-management panel** (`RoomManagement`, room_management.dfy). Its
  local list is appended to on a successful add and filtered on a successful
  delete, and the feedback it shows is modelled.

`Common` (common.dfy) holds `Option`, the calendar `Day` (compared only for
equality), `Fetch` (an awaited request's value or its thrown error) and
`Truthy`. The module `Interfaces` in the same file holds the front end's record
shapes `Booking`, `Room` and `Payload`.

Behaviour of the code a reader may not expect, which the model keeps:

- After a successful booking the chosen time stays chosen; the view does not
  go back to "nothing selected" (frontend/src/CalendarView.tsx:80-90).
- A failed book or cancel request has no error handler. It stops the handler,
  so nothing changes and no error or feedback is shown
  (frontend/src/CalendarView.tsx:80-101).
- A room-list refresh that drops the selected room clears the room and the
  schedule but not the chosen time or booking
  (frontend/src/CalendarView.tsx:115-124).
- A date change does not clear the schedule
  (frontend/src/CalendarView.tsx:58-63).

## Model

| member | source | states |
|---|---|---|
| `Common.Truthy` | frontend/src/CalendarView.tsx:161 | JavaScript and Python truthiness of an optional string (`!selectedTime`, `if name:`): present and non-empty |
| `TimeIntervals.ParseLabel` | frontend/src/TimeIntervals.tsx:28 | reads a well-formed "HH:MM" back to a minute of the day below 24:00; the reference inverse of the slot label |
| `TimeIntervals.LabelRoundTrip` | frontend/src/TimeIntervals.tsx:28 | parsing the zero-padded label of a minute gives that minute back |
| `TimeIntervals.ParseLabelRoundTrip` | frontend/src/TimeIntervals.tsx:28 | every well-formed "HH:MM" is the label of the minute it denotes, so labels are a bijection |
| `TimeIntervals.LabelInjective` | frontend/src/TimeIntervals.tsx:44 | two minutes have the same label iff they are equal, so slot keys never repeat |
| `TimeIntervals.Label` | frontend/src/TimeIntervals.tsx:28 | the label of a minute is five characters, two digits, a colon and two digits, spelling its hour and its minute in zero-padded decimal |
| `TimeIntervals.Slice` | frontend/src/TimeIntervals.tsx:34 | `slice(0, n)` keeps a prefix of length min(n, length) |
| `TimeIntervals.Matches` | frontend/src/TimeIntervals.tsx:31-36 | the `find` callback holds iff the booking is on the shown day and the label is the prefix of its time of length min(5, length) |
| `TimeIntervals.FirstMatch` | frontend/src/TimeIntervals.tsx:30-37 | `find` stops at the first booking with the shown day and the slot label; no earlier booking matches |
| `TimeIntervals.Find` | frontend/src/TimeIntervals.tsx:30-37 | `find` gives nothing iff no booking matches the shown day and the slot label; otherwise a matching booking at a position before which none matches |
| `TimeIntervals.IntervalAt` | frontend/src/TimeIntervals.tsx:28-50 | one pass of the loop: the slot carries the minute's label; it is available iff it carries no booking iff no booking matches; a carried booking is in the schedule and matches; 'selected' iff the selected time is the label |
| `TimeIntervals.Grid` | frontend/src/TimeIntervals.tsx:18-55 | the value the loop builds: 33 slots, slot k labelled with minute 360 + 30k |
| `TimeIntervals.RenderTimeIntervals` | frontend/src/TimeIntervals.tsx:11-56 | a non-array schedule renders nothing and does not fail; otherwise the while-loop yields exactly the grid of slots 06:00..22:00 |
| `TimeIntervals.GridPrefix` | frontend/src/TimeIntervals.tsx:26-55 | the slots the loop has pushed after n steps, n of them; `Grid` is the prefix of all 33 |
| `TimeIntervals.GridPrefixStep` | frontend/src/TimeIntervals.tsx:26-55 | one more step of the loop appends exactly the next slot of the grid |
| `TimeIntervals.FirstAndLastLabel` | frontend/src/TimeIntervals.tsx:18-28 | the first slot is labelled "06:00" and the last "22:00" |
| `TimeIntervals.GridSlots` | frontend/src/TimeIntervals.tsx:19-53 | 33 slots from "06:00" to "22:00", strictly ascending by 30 minutes, each label parsing to its minute, no label twice |
| `TimeIntervals.GridOccupancy` | frontend/src/TimeIntervals.tsx:30-46 | a slot is available iff no booking of the shown day has its label; an occupied slot carries the first such booking, which is what a click reports |
| `TimeIntervals.GridSelection` | frontend/src/TimeIntervals.tsx:45 | 'selected' iff the selected time is the label; 'selected-booking' compares only the booking's time prefix, and changing the booking's date does not change it |
| `TimeIntervals.OffGridBookingMatchesNoSlot` | frontend/src/TimeIntervals.tsx:34-35 | a booking of another day, or with a time that is not a grid label (malformed, off the half hour, outside 06:00-22:00), matches no slot |
| `TimeIntervals.NineOhFiveOccupiesNoSlot` | frontend/src/TimeIntervals.tsx:34-35 | bookings at "09:05" leave every slot available: matching is exact, not by interval |
| `TimeIntervals.OtherDaysOccupyNoSlot` | frontend/src/TimeIntervals.tsx:32-35 | bookings of other days leave every slot available |
| `TimeIntervals.SingleBookingOccupiesOneSlot` | frontend/src/TimeIntervals.tsx:30-40 | one booking of the shown day at "14:00" occupies slot 16 (14:00) and no other |
| `CalendarView.AsSchedule` | frontend/src/CalendarView.tsx:47 | definition of `Array.isArray(data) ? data : []`: a fetched value that is not an array is stored as the empty schedule |
| `CalendarView.ShownDay` | frontend/src/CalendarView.tsx:152 | definition of `date instanceof Date ? date : new Date()`: the chosen day for a single date, today for a range or no date |
| `CalendarView.HasRoom` | frontend/src/CalendarView.tsx:119 | definition of `roomsData.some(room => room.id === id)`: some room of the list has the id |
| `CalendarView.View.Valid` | frontend/src/CalendarView.tsx:104-112 | the view's invariant that a time and a booking are never both chosen, so Book and Cancel are never both enabled |
| `CalendarView.View.BookDisabled` | frontend/src/CalendarView.tsx:161 | Book is disabled while no time is chosen; whenever it is enabled no booking is chosen |
| `CalendarView.View.CancelDisabled` | frontend/src/CalendarView.tsx:164 | Cancel is disabled while no booking is chosen; whenever it is enabled no time is chosen |
| `CalendarView.View.constructor` | frontend/src/CalendarView.tsx:19-26 | today's date, empty lists, nothing selected |
| `CalendarView.View.RoomsLoaded` | frontend/src/CalendarView.tsx:29-39 | the fetched room list replaces `rooms`; a failed fetch sets the error |
| `CalendarView.View.ScheduleLoaded` | frontend/src/CalendarView.tsx:42-55 | with a room selected, the fetched schedule is stored coerced to an array; a failure sets the error; without a room nothing changes |
| `CalendarView.View.DateChange` | frontend/src/CalendarView.tsx:58-63 | sets the date and clears room, time and booking; keeps the invariant |
| `CalendarView.View.RoomClick` | frontend/src/CalendarView.tsx:66-70 | sets the room and clears time and booking; the date is untouched |
| `CalendarView.View.SelectTime` | frontend/src/CalendarView.tsx:104-112 | with a booking: booking set, time cleared; without: time set, booking cleared; never both set |
| `CalendarView.View.RoomChange` | frontend/src/CalendarView.tsx:115-124 | `rooms` becomes the fetched list; if the selected room's id is absent, room becomes null and schedule empty, otherwise both unchanged |
| `CalendarView.View.BookClick` | frontend/src/CalendarView.tsx:80-90 | a request is sent iff the date is a single day and a room and a non-empty time are chosen; success sets the feedback and the refreshed schedule and keeps the chosen time; failure changes nothing |
| `CalendarView.View.CancelClick` | frontend/src/CalendarView.tsx:93-101 | a request is sent iff a room and a booking are chosen; success clears the booking, sets the feedback and the refreshed schedule; failure changes nothing |
| `CalendarView.View.BookingFormSucceeded` | frontend/src/CalendarView.tsx:131-137 | with a room selected, the refreshed schedule is stored; nothing else changes |
| `CalendarView.View.ShownIntervals` | frontend/src/CalendarView.tsx:147-158 | with a room selected the slot grid of the stored schedule is always shown, for the chosen day or today; without one, nothing |
| `CalendarView.View.ClickSlot` | frontend/src/TimeIntervals.tsx:46 | clicking a free slot chooses its time, clicking an occupied one chooses its booking |
| `CalendarView.SelectionScenario` | frontend/src/CalendarView.tsx:104-112 | choosing a time and then a booking leaves only the booking chosen, with Book disabled and Cancel enabled |
| `RoomStore.BookingsOf` | backend/rooms/models.py:11 | definition of `room.bookings`: exactly the rows whose foreign key is the room, unchanged |
| `RoomStore.IsFree` | backend/rooms/views.py:79 | definition of `not room.bookings.filter(date=date, time=time).exists()`: none of the room's own bookings is at that date and time |
| `RoomStore.WithoutRoom` | backend/rooms/models.py:11 | the cascade keeps exactly the rows that are not the room's bookings, unchanged, and none of them points at the room |
| `CalendarView.ReverseSelectionScenario` | frontend/src/CalendarView.tsx:104-112 | choosing a booking and then a time leaves only the time chosen, with Book enabled and Cancel disabled |
| `RoomStore.HasName` | backend/rooms/views.py:122 | definition of `Room.objects.filter(name=name).exists()`; never true of an empty table |
| `RoomStore.FreeRooms` | backend/rooms/views.py:77-80 | the rooms `available_rooms` collects: a subset of the room table that contains every room with no bookings at all |
| `RoomStore.Consistent` | backend/rooms/models.py:5-13 | the store invariant (ids below the auto-increment counters, a booking's room exists, names unique); it makes the next ids fresh |
| `RoomStore.Store.Valid` | backend/rooms/models.py:5-13 | the tables are `Consistent`, so the next room id and the next booking id are not yet in use |
| `RoomStore.CancelKeepsConsistent` | backend/rooms/views.py:110 | deleting one booking row keeps the tables consistent |
| `RoomStore.GetOrCreate` | backend/rooms/management/commands/seed_rooms.py:13 | after get-or-create the name exists; the table is unchanged iff it already did |
| `RoomStore.CascadeKeepsConsistent` | backend/rooms/models.py:11 | deleting a room with its bookings leaves no booking pointing at it and keeps the tables consistent |
| `RoomStore.Pick` | backend/rooms/views.py:87 | `random.choice` returns some member of the non-empty candidate set |
| `RoomStore.Store.constructor` | backend/rooms/models.py:5-13 | empty, consistent tables |
| `RoomStore.Store.GetRoomSchedule` | backend/rooms/views.py:21-41 | missing id: 400; unknown room: 404; no bookings: 200 with a message object; otherwise 200 with exactly that room's bookings |
| `RoomStore.Store.AvailableRooms` | backend/rooms/views.py:77-80 | the loop collects exactly the rooms with no booking at (date, time) |
| `RoomStore.Store.BookRoom` | backend/rooms/views.py:46-92 | specific room: unknown id 404, invalid request 400, otherwise exactly one new booking, with no free-slot check; any room: 200 iff some room is free, then one booking added to a free room; else 400 "No available room…" and no change; rooms never change |
| `RoomStore.Store.CancelBooking` | backend/rooms/views.py:97-111 | either id missing: 400; no booking with that id in that room: 404; otherwise only that booking is removed |
| `RoomStore.Store.AddRoom` | backend/rooms/views.py:116-127 | empty or missing name: 400; a taken name: 400 "Room <name> already exists."; otherwise one room with a fresh id is added |
| `RoomStore.Store.DeleteRoom` | backend/rooms/views.py:132-144 | missing id: 400; unknown id: 404; otherwise the room and all its bookings are removed; failures change nothing |
| `RoomStore.Store.GetOrCreateRoom` | backend/rooms/management/commands/seed_rooms.py:13 | returns the room with the name, creating it iff the name was absent |
| `RoomStore.ThirdAnyRoomBookingFails` | backend/rooms/tests.py:50-55 | with two rooms, two "any room" bookings at 09:00 take both, and the third gets 400 "No available room…" |
| `SeedRooms.SeedName` | backend/rooms/management/commands/seed_rooms.py:12 | `str(i)` for i in 1..5: the one decimal digit of i |
| `SeedRooms.SeedFrom` | backend/rooms/management/commands/seed_rooms.py:11-13 | the table left by get-or-create of str(i)..str(5) in order; at most one id handed out per remaining name |
| `SeedRooms.Seeded` | backend/rooms/management/commands/seed_rooms.py:11-13 | the table the whole loop leaves; at most five ids handed out |
| `SeedRooms.SeedNamesDistinct` | backend/rooms/management/commands/seed_rooms.py:12 | the five names str(1)..str(5) are pairwise distinct |
| `SeedRooms.SeedFromKeeps` | backend/rooms/management/commands/seed_rooms.py:11-13 | seeding keeps every existing room's id and name |
| `SeedRooms.SeedFromAddsOnlyAbsent` | backend/rooms/management/commands/seed_rooms.py:11-13 | every added room carries a seed name that was absent |
| `SeedRooms.SeedFromHasNames` | backend/rooms/management/commands/seed_rooms.py:11-13 | after seeding from step i every later seed name is taken |
| `SeedRooms.HasNameGrows` | backend/rooms/management/commands/seed_rooms.py:13 | a taken name stays taken in any table that keeps the rows |
| `SeedRooms.SeededHasAllNames` | backend/rooms/management/commands/seed_rooms.py:11-13 | after the command a room named str(i) exists for each i in 1..5, and existing rooms are unchanged |
| `SeedRooms.SeededCreatesOnlyAbsent` | backend/rooms/management/commands/seed_rooms.py:13-17 | a room is created only for a name that was absent, so nothing is duplicated |
| `SeedRooms.SeedFromNoOp` | backend/rooms/management/commands/seed_rooms.py:13 | a table that already has the names is left as it is |
| `SeedRooms.SeededIdempotent` | backend/rooms/management/commands/seed_rooms.py:11-13 | running the command twice leaves the same table as running it once |
| `SeedRooms.Handle` | backend/rooms/management/commands/seed_rooms.py:10-17 | the loop leaves the table of the get-or-create sequence; `created` for str(i) iff that name was absent; bookings untouched |
| `RoomManagement.Without` | frontend/src/RoomManagement.tsx:56 | the filter keeps exactly the entries whose id differs |
| `RoomManagement.WithoutConcat` | frontend/src/RoomManagement.tsx:56 | filtering distributes over concatenation, so the kept entries stay in order |
| `RoomManagement.WithoutAbsent` | frontend/src/RoomManagement.tsx:56 | filtering out an id no entry has leaves the list unchanged |
| `RoomManagement.AddThenDelete` | frontend/src/RoomManagement.tsx:36-56 | deleting the id just appended restores the previous list |
| `RoomManagement.Panel.constructor` | frontend/src/RoomManagement.tsx:9-12 | empty name, empty list, no feedback |
| `RoomManagement.Panel.SetName` | frontend/src/RoomManagement.tsx:77 | the text field sets the name only |
| `RoomManagement.Panel.RoomsLoaded` | frontend/src/RoomManagement.tsx:15-27 | fetched rooms replace the list; a failed fetch shows an error |
| `RoomManagement.Panel.HandleAddRoom` | frontend/src/RoomManagement.tsx:31-48 | success: `{id, name}` appended at the end, 'success', the server's message or 'Room added successfully', `onRoomChange` called once; failure: list unchanged, 'error', no call |
| `RoomManagement.Panel.HandleDeleteRoom` | frontend/src/RoomManagement.tsx:51-68 | success: every entry with the id removed, the rest in order, 'success', `onRoomChange` called once; failure: list unchanged, 'error', no call |

## Left out

- Timers. The `setTimeout` that clears the management panel's feedback after three seconds is not modelled.
- Async ordering. Out-of-order or stale responses are not modelled: each handler consumes its answers in one step.
- Rendering. React effects as scheduling, rendering, CSS and the view-only components (FeedbackPopup, RoomList, App) are not modelled.
- JavaScript `Date`. `normalizeDate`, `toISOString`, `toDateString` and time zones are not modelled; a day is an opaque value compared for equality. `new Date("YYYY-MM-DD")` reads the day as UTC midnight, which `toDateString` can show as the previous local day. The model does not capture that shift.
- Daylight saving. The 06:00-22:00 loop is modelled in minutes since midnight, so a daylight-saving change during the day is not captured.
- HTTP wrappers. The `fetch` wrappers in src/api.tsx enter the model only as outcomes of the handlers (success with a value, or failure with a message); how their error messages are made is not modelled.
- BookingForm. frontend/src/BookingForm.tsx is not part of this model: it is only an empty-field guard around a request. Its success callback is modelled as `CalendarView.View.BookingFormSucceeded`.
- `RoomStore.Store.BookRoom`: the serializer's validation is the boolean `wellFormed`. The "any room" branch does not validate. There, a missing or unparsable date or time raises an error (HTTP 500) once any room exists: a missing value is filtered as `None` and the save then violates NOT NULL (backend/rooms/views.py:75-89). That case is not modelled.
- `RoomStore.Store.BookRoom`: the success message "Room <name> booked successfully for <date> at <time>" is the value `BookedBody(name, date, time)`; its text formatting is not modelled.
- Request parsing. Query parameters and JSON fields are `Option<int>`/`Option<string>`: `None` stands for missing or empty. Non-numeric ids, which give a server error, are not modelled. In `book_room` a JSON room id of 0 is falsy and takes the "any room" branch, as in the source.
- Listing order. The order in which the database lists rows is not modelled: tables are maps from id, so the schedule body is the room's bookings keyed by id. The room loop of `book_room` visits rooms in an unspecified order.
- `get_rooms` is a plain listing of the room table and is not modelled separately.
- Concurrent requests. Each back-end handler is modelled as one atomic step. The database has no uniqueness constraint on room names (backend/rooms/models.py:6) or on (room, date, time), and `add_room` and the "any room" branch of `book_room` check and then save with no transaction (backend/rooms/views.py:78-89, 122-125). Concurrent requests can therefore create two rooms with one name or book one room twice at the same time; the model does not capture either.
- `RoomStore.Store.BookRoom`: "the booking goes to a room free at (date, time)" holds only when requests run one at a time, as described in the previous line.
- Duplicate names. Unique room names are part of the store invariant, which every handler keeps when requests run one at a time. So `get_or_create`'s error for a name held by two rooms (backend/rooms/management/commands/seed_rooms.py:13) cannot arise in the model, though two concurrent `add_room` requests can cause it in the program.
- Logging. `console.error` and the command's stdout messages are not modelled; `Handle` returns the created flags instead.
