// backend/database.py: the physical rooms and the fixed hotel inventory.

module Database {

  /** One physical room. Its attributes never change after construction;
      only the availability flag is updated in place. */
  class Room {
    const roomId: int
    const roomType: string
    const beds: int
    const maxGuests: int
    const price: int
    var isAvailable: bool

    constructor (roomId: int, roomType: string, beds: int, maxGuests: int, price: int)
      ensures this.roomId == roomId && this.roomType == roomType && this.beds == beds
      ensures this.maxGuests == maxGuests && this.price == price
      ensures isAvailable
    {
      this.roomId := roomId;
      this.roomType := roomType;
      this.beds := beds;
      this.maxGuests := maxGuests;
      this.price := price;
      this.isAvailable := true;
    }
  }

  /** The attributes shared by every room of one type. */
  datatype RoomKind = RoomKind(roomType: string, beds: int, maxGuests: int, price: int)

  const SingleRoom: RoomKind := RoomKind("Single Room", 1, 2, 100)
  const DoubleRoom: RoomKind := RoomKind("Double Room", 2, 4, 150)
  const FamilyRoom: RoomKind := RoomKind("Family Room", 3, 6, 200)
  const VipSuite: RoomKind := RoomKind("VIP Suite", 1, 3, 300)

  const HotelSize: nat := 24
  const FirstRoomId: int := 101

  /** The kind of the room at position k of the inventory: 5 singles, then
      10 doubles, then 6 family rooms, then 3 VIP suites. */
  function KindAt(k: nat): RoomKind
    requires k < HotelSize
  {
    if k < 5 then SingleRoom
    else if k < 15 then DoubleRoom
    else if k < 21 then FamilyRoom
    else VipSuite
  }

  predicate HasKind(r: Room, kind: RoomKind)
  {
    r.roomType == kind.roomType && r.beds == kind.beds &&
    r.maxGuests == kind.maxGuests && r.price == kind.price
  }

  /** sum(1 for room in rooms if room.room_type == roomType). */
  function CountOfType(rooms: seq<Room>, roomType: string): nat
  {
    if rooms == [] then 0
    else (if rooms[0].roomType == roomType then 1 else 0) + CountOfType(rooms[1..], roomType)
  }

  lemma {:induction false} CountOfTypeAppend(a: seq<Room>, b: seq<Room>, roomType: string)
    ensures CountOfType(a + b, roomType) == CountOfType(a, roomType) + CountOfType(b, roomType)
  {
    if a == [] {
      assert a + b == b;
    } else {
      assert (a + b)[1..] == a[1..] + b;
      CountOfTypeAppend(a[1..], b, roomType);
    }
  }

  lemma {:induction false} CountOfTypeUniform(rooms: seq<Room>, roomType: string, t: string)
    requires forall k :: 0 <= k < |rooms| ==> rooms[k].roomType == t
    ensures CountOfType(rooms, roomType) == if roomType == t then |rooms| else 0
  {
    if rooms != [] {
      CountOfTypeUniform(rooms[1..], roomType, t);
    }
  }

  /** A type no room has counts zero. */
  lemma {:induction false} CountOfAbsentType(rooms: seq<Room>, roomType: string)
    requires forall k :: 0 <= k < |rooms| ==> rooms[k].roomType != roomType
    ensures CountOfType(rooms, roomType) == 0
  {
    if rooms != [] {
      CountOfAbsentType(rooms[1..], roomType);
    }
  }

  /** Some room of the hotel has this type. */
  predicate HasRoomType(rooms: seq<Room>, roomType: string)
  {
    exists k :: 0 <= k < |rooms| && rooms[k].roomType == roomType
  }

  /** The distinct room types in order of first appearance. */
  function DistinctTypes(rooms: seq<Room>): (types: seq<string>)
    ensures forall t :: t in types <==> HasRoomType(rooms, t)
    ensures forall i, j :: 0 <= i < j < |types| ==> types[i] != types[j]
  {
    if rooms == [] then []
    else
      var rest := DistinctTypes(rooms[..|rooms| - 1]);
      var last := rooms[|rooms| - 1];
      assert forall k :: 0 <= k < |rooms| - 1 ==> rooms[..|rooms| - 1][k] == rooms[k];
      assert forall t :: HasRoomType(rooms, t) <==> HasRoomType(rooms[..|rooms| - 1], t) || t == last.roomType;
      if last.roomType in rest then rest else rest + [last.roomType]
  }

  /** The first room of a type. */
  function FirstOfType(rooms: seq<Room>, roomType: string): (r: Room)
    requires HasRoomType(rooms, roomType)
    ensures r in rooms && r.roomType == roomType
  {
    if rooms[0].roomType == roomType then rooms[0]
    else
      assert forall k :: 1 <= k < |rooms| ==> rooms[1..][k - 1] == rooms[k];
      FirstOfType(rooms[1..], roomType)
  }

  /** Appending a room keeps the first room of every type already present
      and makes the new room the first of a type not yet present. */
  lemma {:induction false} FirstOfTypeExtend(rooms: seq<Room>, r: Room, roomType: string)
    ensures HasRoomType(rooms + [r], roomType) <==> HasRoomType(rooms, roomType) || r.roomType == roomType
    ensures HasRoomType(rooms, roomType) ==> FirstOfType(rooms + [r], roomType) == FirstOfType(rooms, roomType)
    ensures !HasRoomType(rooms, roomType) && r.roomType == roomType ==> FirstOfType(rooms + [r], roomType) == r
  {
    var all := rooms + [r];
    assert all[|rooms|] == r;
    assert forall k :: 0 <= k < |rooms| ==> all[k] == rooms[k];
    if rooms != [] && rooms[0].roomType != roomType {
      assert all[1..] == rooms[1..] + [r];
      assert forall k :: 1 <= k < |rooms| ==> rooms[1..][k - 1] == rooms[k];
      FirstOfTypeExtend(rooms[1..], r, roomType);
      assert HasRoomType(rooms, roomType) <==> HasRoomType(rooms[1..], roomType);
    }
  }

  /** One of the four loops of Hotel.__init__: `count` new rooms of one
      kind with consecutive IDs from firstId, all available. */
  method AppendRooms(rooms: seq<Room>, count: nat, kind: RoomKind, firstId: int)
    returns (result: seq<Room>, nextId: int)
    ensures |result| == |rooms| + count && result[..|rooms|] == rooms
    ensures nextId == firstId + count
    ensures forall k :: |rooms| <= k < |result| ==>
              fresh(result[k]) && result[k].isAvailable &&
              result[k].roomId == firstId + (k - |rooms|) && HasKind(result[k], kind)
  {
    result, nextId := rooms, firstId;
    for i := 0 to count
      invariant |result| == |rooms| + i && result[..|rooms|] == rooms
      invariant nextId == firstId + i
      invariant forall k :: |rooms| <= k < |result| ==>
                  fresh(result[k]) && result[k].isAvailable &&
                  result[k].roomId == firstId + (k - |rooms|) && HasKind(result[k], kind)
    {
      var room := new Room(nextId, kind.roomType, kind.beds, kind.maxGuests, kind.price);
      result := result + [room];
      nextId := nextId + 1;
    }
  }

  /** The first n rooms of the standard inventory have been built. */
  predicate BuiltUpTo(built: seq<Room>, n: nat)
  {
    n <= HotelSize && |built| == n &&
    forall k :: 0 <= k < n ==>
      built[k].roomId == FirstRoomId + k && HasKind(built[k], KindAt(k))
  }

  class Hotel {
    const rooms: seq<Room>

    /** The inventory built by the constructor: 24 rooms, IDs 101..124 in
        order, kinds as KindAt says. */
    predicate Standard()
    {
      |rooms| == HotelSize &&
      forall k :: 0 <= k < HotelSize ==> rooms[k].roomId == FirstRoomId + k && HasKind(rooms[k], KindAt(k))
    }

    constructor ()
      ensures Standard()
      ensures forall k :: 0 <= k < |rooms| ==> fresh(rooms[k]) && rooms[k].isAvailable
    {
      var built: seq<Room> := [];
      var roomId := FirstRoomId;
      built, roomId := AppendRooms(built, 5, SingleRoom, roomId);
      assert BuiltUpTo(built, 5);
      assert forall k :: 0 <= k < |built| ==> fresh(built[k]) && built[k].isAvailable;
      built, roomId := AppendRooms(built, 10, DoubleRoom, roomId);
      assert BuiltUpTo(built, 15);
      assert forall k :: 0 <= k < |built| ==> fresh(built[k]) && built[k].isAvailable;
      built, roomId := AppendRooms(built, 6, FamilyRoom, roomId);
      assert BuiltUpTo(built, 21);
      assert forall k :: 0 <= k < |built| ==> fresh(built[k]) && built[k].isAvailable;
      built, roomId := AppendRooms(built, 3, VipSuite, roomId);
      assert BuiltUpTo(built, 24);
      assert forall k :: 0 <= k < |built| ==> fresh(built[k]) && built[k].isAvailable;
      rooms := built;
    }
  }

  /** Room IDs in the standard inventory are unique. */
  lemma StandardIdsUnique(h: Hotel, i: nat, j: nat)
    requires h.Standard() && i < j < HotelSize
    ensures h.rooms[i].roomId != h.rooms[j].roomId && h.rooms[i] != h.rooms[j]
  {
  }

  /** The standard inventory holds 5 single rooms, 10 double rooms, 6 family
      rooms and 3 VIP suites, and no room of any other type. */
  lemma StandardTypeCounts(h: Hotel, roomType: string)
    requires h.Standard()
    ensures CountOfType(h.rooms, roomType) ==
      if roomType == "Single Room" then 5
      else if roomType == "Double Room" then 10
      else if roomType == "Family Room" then 6
      else if roomType == "VIP Suite" then 3
      else 0
  {
    var r := h.rooms;
    assert r == r[..5] + r[5..15] + r[15..21] + r[21..];
    CountOfTypeAppend(r[..5] + r[5..15] + r[15..21], r[21..], roomType);
    CountOfTypeAppend(r[..5] + r[5..15], r[15..21], roomType);
    CountOfTypeAppend(r[..5], r[5..15], roomType);
    CountOfTypeUniform(r[..5], roomType, "Single Room");
    CountOfTypeUniform(r[5..15], roomType, "Double Room");
    CountOfTypeUniform(r[15..21], roomType, "Family Room");
    CountOfTypeUniform(r[21..], roomType, "VIP Suite");
  }
}
