/** `RoomService`: the room list shared by the pages, its loading flag, the
    availability update, and the queries over the list. Remote calls are
    input `Reply` values; the error text `handleError` builds for a remote
    failure is collapsed to `Remote`. */
module RoomService {
  import opened Outcomes
  import opened Models
  import opened Seqs

  const AllTypes: string := "All"
  const RoomNotFound: string := "Room not found"

  /** The values of the rooms subject and of the loading subject. */
  datatype RoomStore = RoomStore(rooms: seq<Room>, loading: bool)

  /** `getRooms`: the state once the request is sent, the state once it
      settles, and what the returned observable yields. */
  datatype Fetch = Fetch(started: RoomStore, finished: RoomStore, result: Result<seq<Room>>)

  /** `getRooms`: loading is raised before the request and lowered on both
      outcomes; only a success replaces the rooms. */
  function GetRooms(s: RoomStore, reply: Reply<seq<Room>>): (r: Fetch)
    ensures r.started == RoomStore(s.rooms, true)
    ensures !r.finished.loading
    ensures reply.Ok? ==> r.finished.rooms == reply.value && r.result == Success(reply.value)
    ensures reply.Fail? ==> r.finished.rooms == s.rooms && r.result == Failure(Remote)
  {
    var started := s.(loading := true);
    match reply
    case Ok(rooms) => Fetch(started, RoomStore(rooms, false), Success(rooms))
    case Fail => Fetch(started, started.(loading := false), Failure(Remote))
  }

  predicate HasRoom(rooms: seq<Room>, id: string) {
    exists k :: 0 <= k < |rooms| && rooms[k].id == id
  }

  /** `findIndex(r => r.id === id)`: the first position holding `id`, or -1. */
  function FindRoom(rooms: seq<Room>, id: string): (i: int)
    ensures -1 <= i < |rooms|
    ensures i == -1 <==> !HasRoom(rooms, id)
    ensures 0 <= i ==> rooms[i].id == id && forall k :: 0 <= k < i ==> rooms[k].id != id
    decreases |rooms|
  {
    if rooms == [] then -1
    else if rooms[0].id == id then 0
    else
      var j := FindRoom(rooms[1..], id);
      if j == -1 then
        assert forall k :: 0 < k < |rooms| ==> rooms[k] == rooms[1..][k - 1];
        -1
      else j + 1
  }

  /** `{ ...current, ...api }`: every property the API sent wins; an
      optional property the API left out keeps its current value. */
  function Spread(current: Room, api: Room): (r: Room)
    ensures r.id == api.id && r.name == api.name && r.roomType == api.roomType
    ensures r.price == api.price && r.isAvailable == api.isAvailable
    ensures r.description == (if api.description.Some? then api.description else current.description)
    ensures r.imageUrl == (if api.imageUrl.Some? then api.imageUrl else current.imageUrl)
    ensures r.amenities == (if api.amenities.Some? then api.amenities else current.amenities)
    ensures r.capacity == (if api.capacity.Some? then api.capacity else current.capacity)
  {
    Room(api.id, api.name, api.roomType, api.price, api.isAvailable,
         if api.description.Some? then api.description else current.description,
         if api.imageUrl.Some? then api.imageUrl else current.imageUrl,
         if api.amenities.Some? then api.amenities else current.amenities,
         if api.capacity.Some? then api.capacity else current.capacity)
  }

  /** The state after `updateRoomAvailability`, the body it `PUT`s (none
      when it never sends a request) and what its observable yields. */
  datatype Update = Update(store: RoomStore, request: Option<Room>, result: Result<Room>)

  /** `updateRoomAvailability`: an id not in the list fails with "Room not
      found" before any request. Otherwise the whole room with the new
      availability is sent; on success the API's room is spread over the
      entry at that position, on failure nothing changes. */
  function UpdateRoomAvailability(s: RoomStore, roomId: string, isAvailable: bool,
                                  reply: Reply<Room>): (r: Update)
    ensures !HasRoom(s.rooms, roomId) ==>
              r == Update(s, None, Failure(NotFound(RoomNotFound)))
    ensures HasRoom(s.rooms, roomId) ==>
              var i := FindRoom(s.rooms, roomId);
              && r.request == Some(s.rooms[i].(isAvailable := isAvailable))
              && r.store.loading == s.loading
              && |r.store.rooms| == |s.rooms|
              && (forall k :: 0 <= k < |s.rooms| && k != i ==> r.store.rooms[k] == s.rooms[k])
              && (reply.Ok? ==> r.store.rooms[i] == Spread(s.rooms[i], reply.value)
                                && r.result == Success(reply.value))
              && (reply.Fail? ==> r.store == s && r.result == Failure(Remote))
  {
    var i := FindRoom(s.rooms, roomId);
    if i == -1 then Update(s, None, Failure(NotFound(RoomNotFound)))
    else
      var request := s.rooms[i].(isAvailable := isAvailable);
      match reply
      case Ok(apiRoom) =>
        Update(s.(rooms := s.rooms[i := Spread(s.rooms[i], apiRoom)]), Some(request), Success(apiRoom))
      case Fail => Update(s, Some(request), Failure(Remote))
  }

  /** When the API answers with the room it was sent, the only change to
      the list is the availability of that one room. */
  lemma EchoedUpdateSetsAvailability(s: RoomStore, roomId: string, isAvailable: bool)
    requires HasRoom(s.rooms, roomId)
    ensures var sent := UpdateRoomAvailability(s, roomId, isAvailable, Fail).request;
            && sent.Some?
            && var r := UpdateRoomAvailability(s, roomId, isAvailable, Ok(sent.value));
               var i := FindRoom(s.rooms, roomId);
               r.store.rooms == s.rooms[i := s.rooms[i].(isAvailable := isAvailable)]
  {
  }

  /** `filterRoomsByType`: "All" selects every room; any other value the
      rooms of exactly that type, in order. */
  function FilterRoomsByType(rooms: seq<Room>, roomType: string): (r: seq<Room>)
    ensures roomType == AllTypes ==> r == rooms
    ensures IsSubsequence(r, rooms)
    ensures roomType != AllTypes ==>
              forall x :: multiset(r)[x] == if x.roomType == roomType then multiset(rooms)[x] else 0
  {
    if roomType == AllTypes then
      SubsequenceRefl(rooms);
      rooms
    else Filter(rooms, (x: Room) => x.roomType == roomType)
  }

  /** `getAvailableRooms`. */
  function AvailableRooms(rooms: seq<Room>): (r: seq<Room>)
    ensures IsSubsequence(r, rooms)
    ensures forall x :: multiset(r)[x] == if x.isAvailable then multiset(rooms)[x] else 0
  {
    Filter(rooms, (x: Room) => x.isAvailable)
  }

  /** `getRoomsByPriceRange`: both bounds are inclusive. */
  function RoomsByPriceRange(rooms: seq<Room>, minPrice: int, maxPrice: int): (r: seq<Room>)
    ensures IsSubsequence(r, rooms)
    ensures forall x :: multiset(r)[x] ==
              if minPrice <= x.price <= maxPrice then multiset(rooms)[x] else 0
  {
    Filter(rooms, (x: Room) => x.price >= minPrice && x.price <= maxPrice)
  }

  /** `rooms.map(room => room.type)`. */
  function RoomTypes(rooms: seq<Room>): (r: seq<string>)
    ensures |r| == |rooms| && forall k :: 0 <= k < |rooms| ==> r[k] == rooms[k].roomType
  {
    seq(|rooms|, k requires 0 <= k < |rooms| => rooms[k].roomType)
  }

  /** `getUniqueRoomTypes`: "All", then each type once in order of first
      appearance. */
  function UniqueRoomTypes(rooms: seq<Room>): (r: seq<string>)
    ensures |r| >= 1 && r[0] == AllTypes
    ensures r[1..] == FirstOccurrences(RoomTypes(rooms))
    ensures NoDuplicates(r[1..])
    ensures forall t :: t in r[1..] <==> exists k :: 0 <= k < |rooms| && rooms[k].roomType == t
  {
    var types := Distinct(RoomTypes(rooms));
    assert ([AllTypes] + types)[1..] == types;
    [AllTypes] + types
  }

  /** Every listed type other than "All" selects at least one room. */
  lemma ListedTypesAreInhabited(rooms: seq<Room>, t: string)
    requires t in UniqueRoomTypes(rooms)[1..] && t != AllTypes
    ensures FilterRoomsByType(rooms, t) != []
  {
    var k :| 0 <= k < |rooms| && rooms[k].roomType == t;
    assert multiset(rooms)[rooms[k]] > 0;
  }

  /** Four rooms whose fourth repeats the first of three distinct types
      list "All" and the three types. */
  lemma FourRoomsThreeTypes(a: Room, b: Room, c: Room, d: Room)
    requires a.roomType != b.roomType && a.roomType != c.roomType && b.roomType != c.roomType
    requires d.roomType == a.roomType
    ensures UniqueRoomTypes([a, b, c, d]) == [AllTypes, a.roomType, b.roomType, c.roomType]
  {
    var x, y, z := a.roomType, b.roomType, c.roomType;
    var t1, t2, t3 := [x], [x, y], [x, y, z];
    var t4 := t3 + [x];
    assert RoomTypes([a, b, c, d]) == t4;
    assert t1[..0] == [] && t2[..1] == t1 && t3[..2] == t2 && t4[..3] == t3;
    assert FirstOccurrences(t1) == t1;
    assert FirstOccurrences(t2) == t2;
    assert FirstOccurrences(t3) == t3;
    assert FirstOccurrences(t4) == t3;
    assert [AllTypes] + t3 == [AllTypes, x, y, z];
  }

  /** Four rooms of three different types list four entries. */
  lemma UniqueTypesExample(a: Room, b: Room, c: Room, d: Room)
    requires a.roomType == "Single" && b.roomType == "Double" && c.roomType == "Suite"
    requires d.roomType == "Single"
    ensures UniqueRoomTypes([a, b, c, d]) == ["All", "Single", "Double", "Suite"]
  {
    assert "Single"[1] != "Double"[1] && "Single"[1] != "Suite"[1] && "Double"[0] != "Suite"[0];
    FourRoomsThreeTypes(a, b, c, d);
  }
}
