/**
 * `Hotel`: the directory of rooms, keyed by room number in an insertion-ordered
 * map. The first room registered under a number wins. The hotel counts its rooms
 * and keeps the highest floor seen so far as its floor count.
 */
module Hotels {
  import opened Wrappers
  import OrderedMap
  import MapContract
  import opened Rooms

  class Hotel {
    var floorsCount: int
    var roomsCount: int
    var rooms: OrderedMap.MyMap<int, Room>

    /** The room map is well formed, the counter matches it, the floor count covers it, and every room sits under its own number. */
    ghost predicate Valid()
      reads this, rooms
    {
      rooms.Valid() && Counted() && FloorsCover() && Indexed()
    }

    /** The room counter equals the number of registered rooms. */
    ghost predicate Counted()
      reads this, rooms
    {
      roomsCount == |rooms.keys|
    }

    /** The floor count is at least the floor of every registered room. */
    ghost predicate FloorsCover()
      reads this, rooms
    {
      forall i :: 0 <= i < |rooms.values| ==> rooms.values[i].Level() <= floorsCount
    }

    /** Every room is registered under its own number. */
    ghost predicate Indexed()
      reads this, rooms
    {
      |rooms.keys| == |rooms.values| && forall i :: 0 <= i < |rooms.keys| ==> rooms.values[i].number == rooms.keys[i]
    }

    /** A new hotel: no floors, no rooms, an empty room map. */
    constructor ()
      ensures Valid() && fresh(rooms)
      ensures floorsCount == 0 && roomsCount == 0
      ensures rooms.keys == [] && rooms.values == []
    {
      floorsCount := 0;
      roomsCount := 0;
      rooms := new OrderedMap.MyMap<int, Room>();
    }

    /** `getRoomByNumber`: the room stored under the number, or `None`. */
    method GetRoomByNumber(roomNumber: int) returns (r: Option<Room>)
      requires Valid()
      ensures r == MapContract.Get(rooms.Model(), roomNumber)
    {
      r := rooms.Get(roomNumber);
    }

    /** `getAllRooms`: the registered rooms in insertion order. */
    method GetAllRooms() returns (all: seq<Room>)
      requires Valid()
      ensures all == rooms.values
      ensures forall i :: 0 <= i < |all| ==> MapContract.Get(rooms.Model(), rooms.keys[i]) == Some(all[i])
    {
      all := rooms.GetValues();
    }

    /**
     * `addRoom`: a room whose number is already registered is dropped silently;
     * otherwise it is appended, the room counter goes up by one and the floor
     * count rises to the room's floor if that is higher.
     */
    method AddRoom(room: Room)
      requires Valid()
      modifies this, rooms
      ensures Valid() && rooms == old(rooms)
      ensures room.number in old(rooms.Model()) ==>
                rooms.keys == old(rooms.keys) && rooms.values == old(rooms.values)
                && roomsCount == old(roomsCount) && floorsCount == old(floorsCount)
      ensures room.number !in old(rooms.Model()) ==>
                rooms.keys == old(rooms.keys) + [room.number] && rooms.values == old(rooms.values) + [room]
                && roomsCount == old(roomsCount) + 1
                && floorsCount == (if room.Level() > old(floorsCount) then room.Level() else old(floorsCount))
      ensures rooms.Model() == if room.number in old(rooms.Model()) then old(rooms.Model())
                               else old(rooms.Model())[room.number := room]
      ensures floorsCount >= old(floorsCount)
    {
      var roomNr := room.number;
      var existing := rooms.Get(roomNr);
      if existing.Some? {
        return;
      }
      rooms.Put(roomNr, room);
      roomsCount := roomsCount + 1;
      var roomLevel := room.Level();
      if roomLevel > floorsCount {
        floorsCount := roomLevel;
      }
    }
  }

  /** The hotel's invariant depends on the hotel and its room map only, not on the rooms' own state. */
  twostate lemma ValidWhileRoomsChange(hotel: Hotel)
    requires old(hotel.Valid())
    requires unchanged(hotel)
    requires unchanged(old(hotel.rooms))
    ensures hotel.Valid()
  {
  }
}
