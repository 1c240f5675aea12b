/** The `seed_rooms` management command
    (backend/rooms/management/commands/seed_rooms.py): get-or-create the rooms
    named "1" to "5", in that order, reporting for each whether it was created. */
module SeedRooms {
  import opened RoomStore

  /** `str(i)` for the single digits the command uses. */
  function SeedName(i: int): (s: string)
    requires 1 <= i <= 5
    ensures |s| == 1 && '1' <= s[0] <= '5' && s[0] as int - '0' as int == i
  {
    [('0' as int + i) as char]
  }

  lemma SeedNamesDistinct(i: int, j: int)
    requires 1 <= i <= 5 && 1 <= j <= 5
    ensures SeedName(i) == SeedName(j) <==> i == j
  {
    if SeedName(i) == SeedName(j) {
      assert SeedName(i)[0] == SeedName(j)[0];
    }
  }

  /** A name taken in a table stays taken in any table that keeps its rows. */
  lemma HasNameGrows(rooms: map<int, string>, rooms': map<int, string>)
    requires forall id :: id in rooms ==> id in rooms' && rooms'[id] == rooms[id]
    ensures forall name :: HasName(rooms, name) ==> HasName(rooms', name)
  {
    forall name | HasName(rooms, name)
      ensures HasName(rooms', name)
    {
      var w :| w in rooms && rooms[w] == name;
      assert w in rooms' && rooms'[w] == name;
    }
  }

  /** The room table after get-or-create of the names str(i) .. str(5). */
  function SeedFrom(rooms: map<int, string>, next: int, i: int): (r: (map<int, string>, int))
    requires 1 <= i <= 6
    decreases 6 - i
    ensures next <= r.1 <= next + (6 - i)
  {
    if i == 6 then (rooms, next)
    else
      var step := GetOrCreate(rooms, next, SeedName(i));
      SeedFrom(step.0, step.1, i + 1)
  }

  /** The room table after the whole command. */
  function Seeded(rooms: map<int, string>, next: int): (r: (map<int, string>, int))
    ensures next <= r.1 <= next + 5
  {
    SeedFrom(rooms, next, 1)
  }

  /** Seeding from step i only adds rooms: earlier rooms keep their ids and
      names, and the ids handed out stay below the next id. */
  lemma {:induction false} SeedFromKeeps(rooms: map<int, string>, next: int, i: int)
    requires 1 <= i <= 6
    requires forall id :: id in rooms ==> id < next
    decreases 6 - i
    ensures var r := SeedFrom(rooms, next, i);
      && (forall id :: id in rooms ==> id in r.0 && r.0[id] == rooms[id])
      && (forall id :: id in r.0 ==> id < r.1)
  {
    if i < 6 {
      var step := GetOrCreate(rooms, next, SeedName(i));
      SeedFromKeeps(step.0, step.1, i + 1);
    }
  }

  /** Every room added by seeding from step i carries one of the names
      str(i) .. str(5), and one that was absent. */
  lemma {:induction false} SeedFromAddsOnlyAbsent(rooms: map<int, string>, next: int, i: int)
    requires 1 <= i <= 6
    requires forall id :: id in rooms ==> id < next
    decreases 6 - i
    ensures var r := SeedFrom(rooms, next, i);
      forall id :: id in r.0 && id !in rooms ==>
        exists j :: i <= j <= 5 && r.0[id] == SeedName(j) && !HasName(rooms, SeedName(j))
  {
    if i < 6 {
      var step := GetOrCreate(rooms, next, SeedName(i));
      SeedFromAddsOnlyAbsent(step.0, step.1, i + 1);
      var r := SeedFrom(step.0, step.1, i + 1);
      SeedFromKeeps(step.0, step.1, i + 1);
      HasNameGrows(rooms, step.0);
      forall id | id in r.0 && id !in rooms
        ensures exists j :: i <= j <= 5 && r.0[id] == SeedName(j) && !HasName(rooms, SeedName(j))
      {
        if id in step.0 {
          assert id == next && r.0[id] == SeedName(i);
        } else {
          var j :| i + 1 <= j <= 5 && r.0[id] == SeedName(j) && !HasName(step.0, SeedName(j));
          assert !HasName(rooms, SeedName(j));
        }
      }
    }
  }

  /** After seeding from step i, each name str(i) .. str(5) is taken. */
  lemma {:induction false} SeedFromHasNames(rooms: map<int, string>, next: int, i: int)
    requires 1 <= i <= 6
    requires forall id :: id in rooms ==> id < next
    decreases 6 - i
    ensures forall j :: i <= j <= 5 ==> HasName(SeedFrom(rooms, next, i).0, SeedName(j))
  {
    if i < 6 {
      var step := GetOrCreate(rooms, next, SeedName(i));
      SeedFromHasNames(step.0, step.1, i + 1);
      SeedFromKeeps(step.0, step.1, i + 1);
      var r := SeedFrom(step.0, step.1, i + 1);
      var w :| w in step.0 && step.0[w] == SeedName(i);
      assert w in r.0 && r.0[w] == SeedName(i);
    }
  }

  /** After the command a room named str(i) exists for every i in 1..5;
      rooms that existed before are neither changed nor removed. */
  lemma SeededHasAllNames(rooms: map<int, string>, next: int)
    requires forall id :: id in rooms ==> id < next
    ensures forall i :: 1 <= i <= 5 ==> HasName(Seeded(rooms, next).0, SeedName(i))
    ensures forall id :: id in rooms ==> id in Seeded(rooms, next).0 && Seeded(rooms, next).0[id] == rooms[id]
  {
    SeedFromHasNames(rooms, next, 1);
    SeedFromKeeps(rooms, next, 1);
  }

  /** A room is created only for a name str(i) that was absent beforehand. */
  lemma SeededCreatesOnlyAbsent(rooms: map<int, string>, next: int)
    requires forall id :: id in rooms ==> id < next
    ensures forall id :: id in Seeded(rooms, next).0 && id !in rooms ==>
      exists i :: 1 <= i <= 5 && Seeded(rooms, next).0[id] == SeedName(i) && !HasName(rooms, SeedName(i))
  {
    SeedFromAddsOnlyAbsent(rooms, next, 1);
  }

  /** Seeding a table that already has every name str(i) for i >= start
      changes nothing. */
  lemma {:induction false} SeedFromNoOp(rooms: map<int, string>, next: int, start: int)
    requires 1 <= start <= 6
    requires forall j :: start <= j <= 5 ==> HasName(rooms, SeedName(j))
    decreases 6 - start
    ensures SeedFrom(rooms, next, start) == (rooms, next)
  {
    if start < 6 {
      SeedFromNoOp(rooms, next, start + 1);
    }
  }

  /** Running the command twice leaves the same table as running it once. */
  lemma SeededIdempotent(rooms: map<int, string>, next: int)
    requires forall id :: id in rooms ==> id < next
    ensures var once := Seeded(rooms, next); Seeded(once.0, once.1) == once
  {
    var once := Seeded(rooms, next);
    SeedFromHasNames(rooms, next, 1);
    SeedFromNoOp(once.0, once.1, 1);
  }

  /** `Command.handle`. `created[i - 1]` is the `created` flag of name str(i):
      true exactly when no room had that name before the command ran. */
  method Handle(store: Store) returns (created: seq<bool>)
    requires store.Valid()
    modifies store
    ensures store.Valid()
    ensures (store.rooms, store.nextRoomId) == Seeded(old(store.rooms), old(store.nextRoomId))
    ensures store.bookings == old(store.bookings) && store.nextBookingId == old(store.nextBookingId)
    ensures |created| == 5
    ensures forall i :: 1 <= i <= 5 ==> (created[i - 1] <==> !HasName(old(store.rooms), SeedName(i)))
  {
    created := [];
    for i := 1 to 6
      invariant store.Valid()
      invariant SeedFrom(store.rooms, store.nextRoomId, i) == Seeded(old(store.rooms), old(store.nextRoomId))
      invariant store.bookings == old(store.bookings) && store.nextBookingId == old(store.nextBookingId)
      invariant |created| == i - 1
      invariant forall j :: 1 <= j < i ==> (created[j - 1] <==> !HasName(old(store.rooms), SeedName(j)))
      invariant forall j :: i <= j <= 5 ==>
        (HasName(store.rooms, SeedName(j)) <==> HasName(old(store.rooms), SeedName(j)))
    {
      ghost var before := store.rooms;
      var room, c := store.GetOrCreateRoom(SeedName(i));
      forall j | i < j <= 5
        ensures HasName(store.rooms, SeedName(j)) <==> HasName(before, SeedName(j))
      {
        SeedNamesDistinct(i, j);
        if HasName(store.rooms, SeedName(j)) {
          var id :| id in store.rooms && store.rooms[id] == SeedName(j);
          assert id in before;
        }
        if HasName(before, SeedName(j)) {
          var id :| id in before && before[id] == SeedName(j);
          assert id in store.rooms && store.rooms[id] == SeedName(j);
        }
      }
      created := created + [c];
    }
  }
}
