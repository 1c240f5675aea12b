/** The room-management panel (frontend/src/RoomManagement.tsx): its local
    copy of the room list, kept up to date by appending on a successful add
    and filtering on a successful delete, and the feedback it shows. */
module RoomManagement {
  import opened Common

  /** An entry of the local list, `{ id, name }`. */
  datatype Entry = Entry(id: int, name: string)

  datatype FeedbackType = Success | Error

  /** What `addRoom(name)` came back with: the server's `{ id, message }`, or
      the message of the error it threw. */
  datatype AddOutcome = Added(id: int, message: Option<string>) | AddFailed(error: string)

  /** What `deleteRoom(roomId)` came back with. */
  datatype DeleteOutcome = Deleted | DeleteFailed(error: string)

  const AddedDefault := "Room added successfully"

  /** `rooms.filter(room => room.id !== id)`. */
  function Without(rooms: seq<Entry>, id: int): (r: seq<Entry>)
    ensures |r| <= |rooms|
    ensures forall e :: e in r <==> e in rooms && e.id != id
  {
    if rooms == [] then []
    else if rooms[0].id == id then Without(rooms[1..], id)
    else [rooms[0]] + Without(rooms[1..], id)
  }

  /** Filtering distributes over concatenation, so the entries kept stay in
      their original order. */
  lemma {:induction false} WithoutConcat(a: seq<Entry>, b: seq<Entry>, id: int)
    ensures Without(a + b, id) == Without(a, id) + Without(b, id)
  {
    if a == [] {
      assert a + b == b;
    } else {
      assert (a + b)[1..] == a[1..] + b;
      WithoutConcat(a[1..], b, id);
    }
  }

  /** Removing an id no entry has leaves the list as it was. */
  lemma {:induction false} WithoutAbsent(rooms: seq<Entry>, id: int)
    requires forall i :: 0 <= i < |rooms| ==> rooms[i].id != id
    ensures Without(rooms, id) == rooms
  {
    if rooms != [] {
      WithoutAbsent(rooms[1..], id);
    }
  }

  /** Deleting an id that was just appended gives back the list before the add,
      when that list did not have the id. */
  lemma AddThenDelete(rooms: seq<Entry>, id: int, name: string)
    requires forall i :: 0 <= i < |rooms| ==> rooms[i].id != id
    ensures Without(rooms + [Entry(id, name)], id) == rooms
  {
    WithoutConcat(rooms, [Entry(id, name)], id);
    WithoutAbsent(rooms, id);
    assert Without([Entry(id, name)], id) == [];
  }

  class Panel {
    var name: string
    var rooms: seq<Entry>
    var feedback: Option<string>
    var feedbackType: Option<FeedbackType>
    /** How many times the panel has called `onRoomChange`. */
    var roomChanges: nat

    constructor ()
      ensures name == "" && rooms == [] && feedback == None && feedbackType == None && roomChanges == 0
    {
      name := "";
      rooms := [];
      feedback := None;
      feedbackType := None;
      roomChanges := 0;
    }

    /** The text field's `onChange`. */
    method SetName(value: string)
      modifies this
      ensures name == value
      ensures rooms == old(rooms) && feedback == old(feedback) && feedbackType == old(feedbackType)
      ensures roomChanges == old(roomChanges)
    {
      name := value;
    }

    /** The mount effect's answer to `fetchRooms()`. */
    method RoomsLoaded(result: Fetch<seq<Entry>>)
      modifies this
      ensures result.Fetched? ==> rooms == result.value && feedback == old(feedback) && feedbackType == old(feedbackType)
      ensures result.Failed? ==> rooms == old(rooms) && feedback == Some(result.message) && feedbackType == Some(Error)
      ensures name == old(name) && roomChanges == old(roomChanges)
    {
      match result
      case Fetched(roomsData) =>
        rooms := roomsData;
      case Failed(message) =>
        feedback := Some(message);
        feedbackType := Some(Error);
    }

    /** `handleAddRoom`. Success shows the server's message (or the default
        when it has none), appends `{ id, name }` to the list and calls
        `onRoomChange` once; failure shows the error and changes nothing else. */
    method HandleAddRoom(outcome: AddOutcome)
      modifies this
      ensures name == old(name)
      ensures outcome.Added? ==>
        && rooms == old(rooms) + [Entry(outcome.id, old(name))]
        && feedbackType == Some(Success)
        && feedback == Some(if Truthy(outcome.message) then outcome.message.value else AddedDefault)
        && roomChanges == old(roomChanges) + 1
      ensures outcome.AddFailed? ==>
        && rooms == old(rooms) && feedback == Some(outcome.error) && feedbackType == Some(Error)
        && roomChanges == old(roomChanges)
    {
      match outcome
      case Added(id, message) =>
        feedback := Some(if Truthy(message) then message.value else AddedDefault);
        feedbackType := Some(Success);
        rooms := rooms + [Entry(id, name)];
        roomChanges := roomChanges + 1;
      case AddFailed(error) =>
        feedback := Some(error);
        feedbackType := Some(Error);
    }

    /** `handleDeleteRoom`. Success shows a message naming the room, drops
        every entry with that id, keeping the others in order, and calls
        `onRoomChange` once; failure shows the error and changes nothing else. */
    method HandleDeleteRoom(roomId: int, roomName: string, outcome: DeleteOutcome)
      modifies this
      ensures name == old(name)
      ensures outcome.Deleted? ==>
        && rooms == Without(old(rooms), roomId)
        && feedbackType == Some(Success)
        && feedback == Some("Room with name " + roomName + " deleted successfully.")
        && roomChanges == old(roomChanges) + 1
      ensures outcome.DeleteFailed? ==>
        && rooms == old(rooms) && feedback == Some(outcome.error) && feedbackType == Some(Error)
        && roomChanges == old(roomChanges)
    {
      match outcome
      case Deleted =>
        feedback := Some("Room with name " + roomName + " deleted successfully.");
        feedbackType := Some(Success);
        rooms := Without(rooms, roomId);
        roomChanges := roomChanges + 1;
      case DeleteFailed(error) =>
        feedback := Some(error);
        feedbackType := Some(Error);
    }
  }
}
