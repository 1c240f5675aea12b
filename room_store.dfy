/** The back end's tables (backend/rooms/models.py) and the request handlers
    that read and change them (backend/rooms/views.py). The room table maps a
    room's id to its name; the booking table maps a booking's id to its row.
    The order in which the database lists rows is not modelled. */
module RoomStore {
  import opened Common

  /** A TimeField value (seconds since midnight), compared only for equality. */
  type Clock = int

  /** A booking row: the room it belongs to (a foreign key), its day and time. */
  datatype Booking = Booking(room: int, date: Day, time: Clock)

  datatype Status = Ok200 | BadRequest400 | NotFound404

  /** The JSON body of a response. */
  datatype Body =
    | ErrorBody(error: string)
    | MessageBody(message: string)
    /** The serialized bookings of one room, keyed by booking id. */
    | BookingsBody(bookings: map<int, Booking>)
    /** The serialized booking just created by a specific-room request. */
    | CreatedBody(id: int, booking: Booking)
    /** The serializer's validation errors. */
    | ValidationErrors
    /** "Room <name> booked successfully for <date> at <time>". */
    | BookedBody(roomName: string, date: Day, time: Clock)
    | AddedBody(id: int, message: string)

  datatype Response = Response(status: Status, body: Body)

  const RoomIdRequired := "Room ID is required"
  const RoomNotFound := "Room not found"
  const NoBookings := "No bookings found for this room"
  const NoAvailableRoom := "No available room for the selected date and time"
  const IdsRequired := "Room ID and Booking ID are required"
  const BookingNotFound := "Booking not found"
  const BookingCancelled := "Booking cancelled"
  const NameRequired := "Name is required."

  // ---------------------------------------------------------------------------
  // Queries on the tables

  /** `Room.objects.filter(name=name).exists()`. */
  predicate HasName(rooms: map<int, string>, name: string): (r: bool)
    ensures r ==> rooms != map[]
  {
    exists id :: id in rooms && rooms[id] == name
  }

  /** `room.bookings.all()`: the bookings whose foreign key is the room. */
  function BookingsOf(bookings: map<int, Booking>, roomId: int): (r: map<int, Booking>)
    ensures forall id :: id in r <==> id in bookings && bookings[id].room == roomId
    ensures forall id :: id in r ==> r[id] == bookings[id]
  {
    map id | id in bookings && bookings[id].room == roomId :: bookings[id]
  }

  /** `not room.bookings.filter(date=date, time=time).exists()`. */
  predicate IsFree(bookings: map<int, Booking>, roomId: int, date: Day, time: Clock): (r: bool)
    ensures r <==> forall id :: id in BookingsOf(bookings, roomId) ==>
      !(BookingsOf(bookings, roomId)[id].date == date && BookingsOf(bookings, roomId)[id].time == time)
  {
    var mine := BookingsOf(bookings, roomId);
    assert forall id :: id in bookings && bookings[id].room == roomId ==> id in mine && mine[id] == bookings[id];
    forall id :: id in bookings && bookings[id].room == roomId ==>
      !(bookings[id].date == date && bookings[id].time == time)
  }

  /** The rooms with no booking at (date, time). */
  function FreeRooms(rooms: map<int, string>, bookings: map<int, Booking>, date: Day, time: Clock): (r: set<int>)
    ensures r <= rooms.Keys
    ensures forall id :: id in rooms && BookingsOf(bookings, id) == map[] ==> id in r
  {
    set id | id in rooms && IsFree(bookings, id, date, time)
  }

  /** The booking table once a room's bookings have gone with it
      (`on_delete=models.CASCADE`). */
  function WithoutRoom(bookings: map<int, Booking>, roomId: int): (r: map<int, Booking>)
    ensures forall id :: id in r ==> id in bookings && r[id] == bookings[id] && r[id].room != roomId
    ensures forall id :: id in bookings ==> (id in r <==> id !in BookingsOf(bookings, roomId))
  {
    map id | id in bookings && bookings[id].room != roomId :: bookings[id]
  }

  /** `Room.objects.get_or_create(name=name)` on the room table: unchanged when
      a room has the name, otherwise one room with id `next` added. */
  function GetOrCreate(rooms: map<int, string>, next: int, name: string): (r: (map<int, string>, int))
    ensures HasName(r.0, name)
    ensures HasName(rooms, name) <==> r.0 == rooms
  {
    if HasName(rooms, name) then (rooms, next)
    else
      var rooms' := rooms[next := name];
      assert rooms'[next] == name;
      assert next in rooms' && next !in rooms ==> rooms' != rooms;
      (rooms', next + 1)
  }

  /** What the tables always satisfy: ids below the next ids to hand out
      (auto-increment keys, never reused), every booking's room exists, and no
      two rooms share a name (every way of creating a room checks the name). */
  ghost function Consistent(rooms: map<int, string>, bookings: map<int, Booking>,
                             nextRoomId: int, nextBookingId: int): (r: bool)
    ensures r ==> nextRoomId !in rooms && nextBookingId !in bookings
  {
    && 1 <= nextRoomId && 1 <= nextBookingId
    && (forall id :: id in rooms ==> 1 <= id < nextRoomId)
    && (forall id :: id in bookings ==> 1 <= id < nextBookingId && bookings[id].room in rooms)
    && (forall a, b :: a in rooms && b in rooms && rooms[a] == rooms[b] ==> a == b)
  }

  /** Cancelling removes the one row; the tables stay consistent. */
  lemma CancelKeepsConsistent(rooms: map<int, string>, bookings: map<int, Booking>,
                              nextRoomId: int, nextBookingId: int, id: int)
    requires Consistent(rooms, bookings, nextRoomId, nextBookingId)
    ensures Consistent(rooms, bookings - {id}, nextRoomId, nextBookingId)
  {
  }

  /** Deleting a room together with its bookings keeps the tables consistent:
      no booking is left pointing at the deleted room. */
  lemma CascadeKeepsConsistent(rooms: map<int, string>, bookings: map<int, Booking>,
                               nextRoomId: int, nextBookingId: int, roomId: int)
    requires Consistent(rooms, bookings, nextRoomId, nextBookingId)
    ensures Consistent(rooms - {roomId}, WithoutRoom(bookings, roomId), nextRoomId, nextBookingId)
    ensures forall id :: id in WithoutRoom(bookings, roomId) ==> WithoutRoom(bookings, roomId)[id].room != roomId
  {
    var b' := WithoutRoom(bookings, roomId);
    forall id | id in b'
      ensures b'[id].room in rooms - {roomId}
    {
      assert b'[id] == bookings[id];
    }
  }

  /** Some element of a non-empty set, with no promise about which: the
      model of `random.choice`. */
  method Pick(s: set<int>) returns (x: int)
    requires s != {}
    ensures x in s
  {
    assert exists y :: y in s by {
      if forall y :: y !in s {
        assert false;
      }
    }
    x :| x in s;
  }

  // ---------------------------------------------------------------------------
  // The handlers

  class Store {
    var rooms: map<int, string>
    var bookings: map<int, Booking>
    var nextRoomId: int
    var nextBookingId: int

    /** The tables are consistent, so the next ids are fresh. */
    ghost function Valid(): (r: bool)
      reads this
      ensures r ==> nextRoomId !in rooms && nextBookingId !in bookings
    {
      Consistent(rooms, bookings, nextRoomId, nextBookingId)
    }

    /** Empty tables. */
    constructor ()
      ensures Valid() && rooms == map[] && bookings == map[] && nextRoomId == 1 && nextBookingId == 1
    {
      rooms, bookings := map[], map[];
      nextRoomId, nextBookingId := 1, 1;
    }

    /** `get_room_schedule`. A missing room id is a 400, an unknown room a 404;
        a room without bookings gets a message object, not a list; otherwise
        the room's bookings. */
    method GetRoomSchedule(roomId: Option<int>) returns (resp: Response)
      ensures roomId.None? ==> resp == Response(BadRequest400, ErrorBody(RoomIdRequired))
      ensures roomId.Some? && roomId.value !in rooms ==> resp == Response(NotFound404, ErrorBody(RoomNotFound))
      ensures roomId.Some? && roomId.value in rooms && BookingsOf(bookings, roomId.value) == map[] ==>
        resp == Response(Ok200, MessageBody(NoBookings))
      ensures roomId.Some? && roomId.value in rooms && BookingsOf(bookings, roomId.value) != map[] ==>
        && resp.status == Ok200 && resp.body.BookingsBody?
        && (forall id :: id in resp.body.bookings <==> id in bookings && bookings[id].room == roomId.value)
        && (forall id :: id in resp.body.bookings ==> resp.body.bookings[id] == bookings[id])
    {
      if roomId.None? {
        return Response(BadRequest400, ErrorBody(RoomIdRequired));
      }
      if roomId.value !in rooms {
        return Response(NotFound404, ErrorBody(RoomNotFound));
      }
      var roomBookings := BookingsOf(bookings, roomId.value);
      if roomBookings == map[] {
        return Response(Ok200, MessageBody(NoBookings));
      }
      return Response(Ok200, BookingsBody(roomBookings));
    }

    /** The loop of `book_room` that collects the rooms with no booking at
        (date, time). */
    method AvailableRooms(date: Day, time: Clock) returns (available: set<int>)
      ensures forall id :: id in available <==> id in rooms && IsFree(bookings, id, date, time)
    {
      available := {};
      var remaining := rooms.Keys;
      while remaining != {}
        invariant remaining <= rooms.Keys
        invariant forall id :: id in available <==>
          id in rooms && id !in remaining && IsFree(bookings, id, date, time)
        decreases remaining
      {
        var id := Pick(remaining);
        var taken := exists b :: b in bookings && bookings[b].room == id
                                && bookings[b].date == date && bookings[b].time == time;
        if !taken {
          available := available + {id};
        }
        remaining := remaining - {id};
      }
    }

    /** `book_room`. With a (truthy) room id: an unknown room is a 404, an
        invalid request a 400, otherwise one booking is added to that room
        whether or not the slot is already taken. Without one: the booking goes
        to some room free at (date, time), chosen arbitrarily; with no free room
        it is a 400 and nothing changes. */
    method BookRoom(date: Day, time: Clock, roomId: Option<int>, wellFormed: bool) returns (resp: Response)
      requires Valid()
      modifies this
      ensures Valid()
      ensures rooms == old(rooms) && nextRoomId == old(nextRoomId)
      ensures resp.status != Ok200 ==> bookings == old(bookings) && nextBookingId == old(nextBookingId)
      ensures resp.status == Ok200 ==> nextBookingId == old(nextBookingId) + 1
      // a specific room
      ensures roomId.Some? && roomId.value != 0 && roomId.value !in old(rooms) ==>
        resp == Response(NotFound404, ErrorBody(RoomNotFound))
      ensures roomId.Some? && roomId.value != 0 && roomId.value in old(rooms) && !wellFormed ==>
        resp == Response(BadRequest400, ValidationErrors)
      ensures roomId.Some? && roomId.value != 0 && roomId.value in old(rooms) && wellFormed ==>
        && resp == Response(Ok200, CreatedBody(old(nextBookingId), Booking(roomId.value, date, time)))
        && bookings == old(bookings)[old(nextBookingId) := Booking(roomId.value, date, time)]
      // any free room
      ensures (roomId.None? || roomId.value == 0) ==>
        (resp.status == Ok200 <==> FreeRooms(old(rooms), old(bookings), date, time) != {})
      ensures (roomId.None? || roomId.value == 0) && resp.status != Ok200 ==>
        resp == Response(BadRequest400, ErrorBody(NoAvailableRoom))
      ensures (roomId.None? || roomId.value == 0) && resp.status == Ok200 ==>
        exists r :: r in FreeRooms(old(rooms), old(bookings), date, time)
          && bookings == old(bookings)[old(nextBookingId) := Booking(r, date, time)]
          && resp == Response(Ok200, BookedBody(old(rooms)[r], date, time))
    {
      if roomId.Some? && roomId.value != 0 {
        var id := roomId.value;
        if id !in rooms {
          return Response(NotFound404, ErrorBody(RoomNotFound));
        }
        if !wellFormed {
          return Response(BadRequest400, ValidationErrors);
        }
        var booking := Booking(id, date, time);
        resp := Response(Ok200, CreatedBody(nextBookingId, booking));
        bookings := bookings[nextBookingId := booking];
        nextBookingId := nextBookingId + 1;
      } else {
        var available := AvailableRooms(date, time);
        if available == {} {
          assert FreeRooms(rooms, bookings, date, time) == {};
          return Response(BadRequest400, ErrorBody(NoAvailableRoom));
        }
        var selected := Pick(available);
        assert selected in FreeRooms(rooms, bookings, date, time);
        bookings := bookings[nextBookingId := Booking(selected, date, time)];
        nextBookingId := nextBookingId + 1;
        resp := Response(Ok200, BookedBody(rooms[selected], date, time));
      }
    }

    /** `cancel_booking`. Both ids are required (400); the booking must have
        that id and belong to that room (404); then it alone is removed. */
    method CancelBooking(roomId: Option<int>, bookingId: Option<int>) returns (resp: Response)
      requires Valid()
      modifies this
      ensures Valid()
      ensures rooms == old(rooms) && nextRoomId == old(nextRoomId) && nextBookingId == old(nextBookingId)
      ensures roomId.None? || bookingId.None? ==>
        resp == Response(BadRequest400, ErrorBody(IdsRequired)) && bookings == old(bookings)
      ensures roomId.Some? && bookingId.Some? &&
              !(bookingId.value in old(bookings) && old(bookings)[bookingId.value].room == roomId.value) ==>
        resp == Response(NotFound404, ErrorBody(BookingNotFound)) && bookings == old(bookings)
      ensures roomId.Some? && bookingId.Some? &&
              bookingId.value in old(bookings) && old(bookings)[bookingId.value].room == roomId.value ==>
        resp == Response(Ok200, MessageBody(BookingCancelled)) && bookings == old(bookings) - {bookingId.value}
    {
      if roomId.None? || bookingId.None? {
        return Response(BadRequest400, ErrorBody(IdsRequired));
      }
      var id := bookingId.value;
      if !(id in bookings && bookings[id].room == roomId.value) {
        return Response(NotFound404, ErrorBody(BookingNotFound));
      }
      CancelKeepsConsistent(rooms, bookings, nextRoomId, nextBookingId, id);
      bookings := bookings - {id};
      return Response(Ok200, MessageBody(BookingCancelled));
    }

    /** `add_room`. An empty or missing name is a 400, a name already taken a
        400 naming it; otherwise one room with a fresh id is added. */
    method AddRoom(name: Option<string>) returns (resp: Response)
      requires Valid()
      modifies this
      ensures Valid()
      ensures bookings == old(bookings) && nextBookingId == old(nextBookingId)
      ensures !Truthy(name) ==>
        resp == Response(BadRequest400, ErrorBody(NameRequired)) && rooms == old(rooms) && nextRoomId == old(nextRoomId)
      ensures Truthy(name) && HasName(old(rooms), name.value) ==>
        && resp == Response(BadRequest400, ErrorBody("Room " + name.value + " already exists."))
        && rooms == old(rooms) && nextRoomId == old(nextRoomId)
      ensures Truthy(name) && !HasName(old(rooms), name.value) ==>
        && resp == Response(Ok200, AddedBody(old(nextRoomId), "Room " + name.value + " added successfully."))
        && old(nextRoomId) !in old(rooms)
        && rooms == old(rooms)[old(nextRoomId) := name.value] && nextRoomId == old(nextRoomId) + 1
    {
      if !Truthy(name) {
        return Response(BadRequest400, ErrorBody(NameRequired));
      }
      var n := name.value;
      if HasName(rooms, n) {
        return Response(BadRequest400, ErrorBody("Room " + n + " already exists."));
      }
      var id := nextRoomId;
      rooms := rooms[id := n];
      nextRoomId := nextRoomId + 1;
      return Response(Ok200, AddedBody(id, "Room " + n + " added successfully."));
    }

    /** `delete_room`. A missing id is a 400, an unknown one a 404; otherwise
        the room goes, and all its bookings with it. */
    method DeleteRoom(roomId: Option<int>) returns (resp: Response)
      requires Valid()
      modifies this
      ensures Valid()
      ensures nextRoomId == old(nextRoomId) && nextBookingId == old(nextBookingId)
      ensures roomId.None? ==>
        resp == Response(BadRequest400, ErrorBody(RoomIdRequired)) && rooms == old(rooms) && bookings == old(bookings)
      ensures roomId.Some? && roomId.value !in old(rooms) ==>
        resp == Response(NotFound404, ErrorBody("Room not found.")) && rooms == old(rooms) && bookings == old(bookings)
      ensures roomId.Some? && roomId.value in old(rooms) ==>
        && resp == Response(Ok200, MessageBody("Room " + old(rooms)[roomId.value] + " deleted successfully."))
        && rooms == old(rooms) - {roomId.value}
        && bookings == WithoutRoom(old(bookings), roomId.value)
    {
      if roomId.None? {
        return Response(BadRequest400, ErrorBody(RoomIdRequired));
      }
      var id := roomId.value;
      if id !in rooms {
        return Response(NotFound404, ErrorBody("Room not found."));
      }
      var name := rooms[id];
      CascadeKeepsConsistent(rooms, bookings, nextRoomId, nextBookingId, id);
      rooms := rooms - {id};
      bookings := WithoutRoom(bookings, id);
      return Response(Ok200, MessageBody("Room " + name + " deleted successfully."));
    }

    /** `Room.objects.get_or_create(name=name)`: the room that has the name, or
        a new one; `created` says which. */
    method GetOrCreateRoom(name: string) returns (id: int, created: bool)
      requires Valid()
      modifies this
      ensures Valid()
      ensures bookings == old(bookings) && nextBookingId == old(nextBookingId)
      ensures (rooms, nextRoomId) == GetOrCreate(old(rooms), old(nextRoomId), name)
      ensures created <==> !HasName(old(rooms), name)
      ensures id in rooms && rooms[id] == name
    {
      if HasName(rooms, name) {
        id :| id in rooms && rooms[id] == name;
        created := false;
      } else {
        id := nextRoomId;
        rooms := rooms[id := name];
        nextRoomId := nextRoomId + 1;
        created := true;
      }
    }
  }

  /** The back end's no-availability test: two rooms, one booking at 08:00 in
      the first; two "any room" requests at 09:00 take both rooms, so the third
      is refused. */
  method ThirdAnyRoomBookingFails() returns (third: Response)
    ensures third == Response(BadRequest400, ErrorBody(NoAvailableRoom))
  {
    var day, eight, nine := Day(2024, 6, 15), 8 * 3600, 9 * 3600;
    var store := new Store();
    var r1 := store.AddRoom(Some("Room 1"));
    var r2 := store.AddRoom(Some("Room 2"));
    assert store.rooms == map[1 := "Room 1", 2 := "Room 2"];
    var b := store.BookRoom(day, eight, Some(1), true);
    assert store.bookings == map[1 := Booking(1, day, eight)];
    assert IsFree(store.bookings, 1, day, nine);
    assert 1 in FreeRooms(store.rooms, store.bookings, day, nine);
    var first := store.BookRoom(day, nine, None, true);
    ghost var a :| a in {1, 2} && store.bookings == map[1 := Booking(1, day, eight), 2 := Booking(a, day, nine)];
    ghost var other := 3 - a;
    assert IsFree(store.bookings, other, day, nine);
    assert store.bookings[2].room == a && !IsFree(store.bookings, a, day, nine);
    assert FreeRooms(store.rooms, store.bookings, day, nine) == {other};
    var second := store.BookRoom(day, nine, None, true);
    assert store.bookings == map[1 := Booking(1, day, eight), 2 := Booking(a, day, nine), 3 := Booking(other, day, nine)];
    assert store.bookings[2].room == a && store.bookings[3].room == other;
    assert !IsFree(store.bookings, a, day, nine) && !IsFree(store.bookings, other, day, nine);
    assert FreeRooms(store.rooms, store.bookings, day, nine) == {};
    third := store.BookRoom(day, nine, None, true);
  }
}
