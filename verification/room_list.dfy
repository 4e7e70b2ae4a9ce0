/** `RoomListComponent`: the room catalogue page. It mirrors the room
    service's list, derives the figures and the type list from it, filters
    it by type and search text, and drives the booking modal. */
module RoomList {
  import opened Outcomes
  import opened Models
  import opened Text
  import opened Seqs
  import BookingService
  import RoomService

  /** The page's signals. */
  datatype Page = Page(
    rooms: seq<Room>,
    filtered: seq<Room>,
    loading: bool,
    roomTypes: seq<string>,
    selectedRoomType: string,
    searchQuery: string,
    isModalVisible: bool,
    selectedRoom: Option<Room>,
    stats: Stats)

  datatype Stats = Stats(totalRooms: nat, availableRooms: nat, bookedRooms: nat)

  /** The state before the first emission of the room list. */
  const Initial: Page := Page([], [], false, [RoomService.AllTypes], RoomService.AllTypes, "",
                              false, None, Stats(0, 0, 0))

  // ---------------------------------------------------------------------
  // Filtering
  // ---------------------------------------------------------------------

  /** The search: the (lower-cased, trimmed) query occurs in the
      lower-cased name, type or description; a room without a description
      can only match on the first two. */
  predicate QueryMatches(room: Room, query: string) {
    || Contains(Lower(room.name), query)
    || Contains(Lower(room.roomType), query)
    || (room.description.Some? && Contains(Lower(room.description.value), query))
  }

  function NormalizedQuery(searchQuery: string): string {
    Trim(Lower(searchQuery))
  }

  /** Whether a room is listed under a type choice and a search text. */
  predicate Listed(room: Room, roomType: string, searchQuery: string) {
    && (roomType == RoomService.AllTypes || room.roomType == roomType)
    && (NormalizedQuery(searchQuery) == [] || QueryMatches(room, NormalizedQuery(searchQuery)))
  }

  /** `applyFilters`: the listed rooms, in catalogue order, each as often as
      it occurs. */
  function ApplyFilters(rooms: seq<Room>, roomType: string, searchQuery: string): (r: seq<Room>)
    ensures IsSubsequence(r, rooms)
    ensures forall x :: multiset(r)[x] == if Listed(x, roomType, searchQuery) then multiset(rooms)[x] else 0
  {
    var byType := RoomService.FilterRoomsByType(rooms, roomType);
    assert forall x :: multiset(byType)[x] ==
             if roomType == RoomService.AllTypes || x.roomType == roomType then multiset(rooms)[x] else 0;
    var query := NormalizedQuery(searchQuery);
    if query != [] then
      var r := Filter(byType, (x: Room) => QueryMatches(x, query));
      SubsequenceTrans(r, byType, rooms);
      r
    else byType
  }

  lemma {:induction false} SubsequenceTrans<T>(xs: seq<T>, ys: seq<T>, zs: seq<T>)
    requires IsSubsequence(xs, ys) && IsSubsequence(ys, zs)
    ensures IsSubsequence(xs, zs)
    decreases |zs|
  {
    if xs != [] && zs != [] {
      if ys[0] == zs[0] && IsSubsequence(ys[1..], zs[1..]) {
        if xs[0] == ys[0] && IsSubsequence(xs[1..], ys[1..]) {
          SubsequenceTrans(xs[1..], ys[1..], zs[1..]);
        } else {
          SubsequenceTrans(xs, ys[1..], zs[1..]);
        }
      } else {
        SubsequenceTrans(xs, ys, zs[1..]);
      }
    }
  }

  // ---------------------------------------------------------------------
  // Derived figures
  // ---------------------------------------------------------------------

  /** `updateStatistics`: every room is either available or booked. */
  function UpdateStatistics(rooms: seq<Room>): (r: Stats)
    ensures r.totalRooms == |rooms|
    ensures r.availableRooms == |RoomService.AvailableRooms(rooms)|
    ensures r.availableRooms + r.bookedRooms == r.totalRooms
  {
    var available := RoomService.AvailableRooms(rooms);
    var booked := Filter(rooms, (x: Room) => !x.isAvailable);
    FilterComplementLength(rooms, (x: Room) => x.isAvailable, (x: Room) => !x.isAvailable);
    Stats(|rooms|, |available|, |booked|)
  }

  /** `updateRoomTypes`: the same list the room service's
      `getUniqueRoomTypes` computes from these rooms. */
  function UpdateRoomTypes(rooms: seq<Room>): (r: seq<string>)
    ensures r == RoomService.UniqueRoomTypes(rooms)
    ensures r[0] == RoomService.AllTypes && NoDuplicates(r[1..])
  {
    [RoomService.AllTypes] + Distinct(RoomService.RoomTypes(rooms))
  }

  /** The rooms subscription: a new list and everything derived from it. */
  function OnRoomsChanged(p: Page, rooms: seq<Room>): (r: Page)
    ensures r.rooms == rooms && r.stats == UpdateStatistics(rooms)
    ensures r.roomTypes == UpdateRoomTypes(rooms)
    ensures r.filtered == ApplyFilters(rooms, p.selectedRoomType, p.searchQuery)
    ensures r.isModalVisible == p.isModalVisible && r.selectedRoom == p.selectedRoom
  {
    p.(rooms := rooms, stats := UpdateStatistics(rooms), roomTypes := UpdateRoomTypes(rooms),
       filtered := ApplyFilters(rooms, p.selectedRoomType, p.searchQuery))
  }

  /** The loading subscription. */
  function OnLoadingChanged(p: Page, loading: bool): (r: Page)
    ensures r.loading == loading && r.rooms == p.rooms && r.filtered == p.filtered
  {
    p.(loading := loading)
  }

  function Refilter(p: Page): Page {
    p.(filtered := ApplyFilters(p.rooms, p.selectedRoomType, p.searchQuery))
  }

  /** `onRoomTypeChange`. */
  function OnRoomTypeChange(p: Page, roomType: string): (r: Page)
    ensures r.selectedRoomType == roomType && r.searchQuery == p.searchQuery
    ensures forall x :: multiset(r.filtered)[x] ==
              if Listed(x, roomType, p.searchQuery) then multiset(p.rooms)[x] else 0
    ensures r.rooms == p.rooms
    ensures r.filtered == ApplyFilters(r.rooms, r.selectedRoomType, r.searchQuery)
  {
    Refilter(p.(selectedRoomType := roomType))
  }

  /** `onSearchChange`. */
  function OnSearchChange(p: Page, query: string): (r: Page)
    ensures r.searchQuery == query && r.selectedRoomType == p.selectedRoomType
    ensures forall x :: multiset(r.filtered)[x] ==
              if Listed(x, p.selectedRoomType, query) then multiset(p.rooms)[x] else 0
    ensures r.rooms == p.rooms
    ensures r.filtered == ApplyFilters(r.rooms, r.selectedRoomType, r.searchQuery)
  {
    Refilter(p.(searchQuery := query))
  }

  /** `clearSearch`. */
  function ClearSearch(p: Page): (r: Page)
    ensures r.searchQuery == [] && r.selectedRoomType == p.selectedRoomType
    ensures r.rooms == p.rooms
    ensures r.filtered == ApplyFilters(r.rooms, r.selectedRoomType, r.searchQuery)
  {
    Refilter(p.(searchQuery := ""))
  }

  /** `clearAllFilters`: with "All" and no query, every room is listed in
      catalogue order. */
  function ClearAllFilters(p: Page): (r: Page)
    ensures r.selectedRoomType == RoomService.AllTypes && r.searchQuery == []
    ensures r.filtered == p.rooms
  {
    Refilter(p.(selectedRoomType := RoomService.AllTypes, searchQuery := ""))
  }

  /** `hasActiveFilters`. */
  function HasActiveFilters(p: Page): (r: bool)
    ensures !r <==> p.selectedRoomType == RoomService.AllTypes && AllSpace(p.searchQuery)
  {
    p.selectedRoomType != RoomService.AllTypes || Trim(p.searchQuery) != []
  }

  lemma ClearAllFiltersDeactivates(p: Page)
    ensures !HasActiveFilters(ClearAllFilters(p))
  {
  }

  const LoadingMessage: string := "Loading rooms..."
  const NoRoomsMessage: string := "No rooms available at the moment." + " Please check back later."
  const NothingListedMessage: string := "No rooms available."

  /** The message for a search that matched nothing, quoting the query. */
  function SearchMessage(query: string): string {
    "No rooms found matching \"" + query + "\". Try a different search."
  }

  /** The message for a room type that matched nothing. */
  function TypeMessage(roomType: string): string {
    "No " + roomType + " rooms available." + " Try selecting a different room type."
  }

  /** `getEmptyMessage`: loading, then an empty catalogue, then a search
      (the query as typed), then a type filter. */
  function EmptyMessage(p: Page): (r: string)
    ensures p.loading ==> r == LoadingMessage
    ensures !p.loading && p.rooms == [] ==> r == NoRoomsMessage
    ensures !p.loading && p.rooms != [] && p.searchQuery != [] ==>
              r == SearchMessage(p.searchQuery) && Contains(r, p.searchQuery)
    ensures !p.loading && p.rooms != [] && p.searchQuery == [] && p.selectedRoomType != RoomService.AllTypes ==>
              r == TypeMessage(p.selectedRoomType) && Contains(r, p.selectedRoomType)
    ensures r == NothingListedMessage <==>
              !p.loading && p.rooms != [] && p.searchQuery == [] && p.selectedRoomType == RoomService.AllTypes
  {
    if p.loading then LoadingMessage
    else if p.rooms == [] then NoRoomsMessage
    else if p.searchQuery != [] then
      Framed("No rooms found matching \"", p.searchQuery, "\". Try a different search.");
      SearchMessage(p.searchQuery)
    else if p.selectedRoomType != RoomService.AllTypes then
      var tail := " rooms available." + " Try selecting a different room type.";
      Framed("No ", p.selectedRoomType, tail);
      assert TypeMessage(p.selectedRoomType) == "No " + p.selectedRoomType + tail;
      TypeMessage(p.selectedRoomType)
    else NothingListedMessage
  }

  /** The five messages never coincide, whatever the query and the type,
      so the text alone tells which case of `getEmptyMessage` applied. */
  lemma EmptyMessagesDistinct(query: string, roomType: string)
    ensures SearchMessage(query) != TypeMessage(roomType)
    ensures SearchMessage(query) !in {LoadingMessage, NoRoomsMessage, NothingListedMessage}
    ensures TypeMessage(roomType) !in {LoadingMessage, NoRoomsMessage, NothingListedMessage}
  {
    var m, n := SearchMessage(query), TypeMessage(roomType);
    assert m[0] == 'N' && m[|m| - 2] == 'h' && |m| > |NothingListedMessage|;
    assert n[0] == 'N' && n[|n| - 2] == 'e' && |n| > |NothingListedMessage|;
    assert LoadingMessage[0] == 'L';
    assert NoRoomsMessage[|NoRoomsMessage| - 2] == 'r';
  }

  lemma Framed(a: string, x: string, b: string)
    requires |a| + |b| > |NothingListedMessage|
    ensures Contains(a + x + b, x) && a + x + b != NothingListedMessage
  {
    assert (a + x + b)[|a|..|a| + |x|] == x;
    assert OccursAt(a + x + b, x, |a|);
  }

  // ---------------------------------------------------------------------
  // The booking modal
  // ---------------------------------------------------------------------

  /** `onBookRoom`: an unavailable room is refused and nothing changes;
      an available one is selected and the modal opens. */
  function OnBookRoom(p: Page, room: Room): (r: Page)
    ensures !room.isAvailable ==> r == p
    ensures room.isAvailable ==> r == p.(selectedRoom := Some(room), isModalVisible := true)
  {
    if !room.isAvailable then p
    else p.(selectedRoom := Some(room), isModalVisible := true)
  }

  /** `onModalClose`. */
  function OnModalClose(p: Page): (r: Page)
    ensures !r.isModalVisible && r.selectedRoom.None?
    ensures r.rooms == p.rooms && r.filtered == p.filtered && r.stats == p.stats
  {
    p.(isModalVisible := false, selectedRoom := None)
  }

  /** Opening the modal on an available room and closing it again returns
      a page with the modal closed to where it was. */
  lemma OpenThenCloseRestores(p: Page, room: Room)
    requires !p.isModalVisible && p.selectedRoom.None?
    ensures OnModalClose(OnBookRoom(p, room)) == p
  {
  }

  /** Everything `onBookingSubmit` touches: the page, the booking store,
      the room store, and the booking it created, if any. */
  datatype Submitted = Submitted(
    page: Page,
    bookings: BookingService.Store,
    rooms: RoomService.RoomStore,
    created: Option<Booking>)

  /** `onBookingSubmit`: without a selected room nothing is booked.
      Otherwise the booking is created (the store falls back to a local
      booking, so this step always yields one), the room is marked
      unavailable, and the modal closes whether or not that update
      succeeded. A successful update re-emits the room list, which the
      page takes up. */
  function OnBookingSubmit(p: Page, bs: BookingService.Store, rs: RoomService.RoomStore,
                           form: BookingFormData, now: int,
                           created: Reply<Booking>, localId: string, written: bool,
                           updated: Reply<Room>): (r: Submitted)
    requires BookingService.IsLocalId(localId)
    ensures p.selectedRoom.None? ==> r == Submitted(p, bs, rs, None)
    ensures p.selectedRoom.Some? ==>
              && r.created.Some?
              && r.bookings.bookings == bs.bookings + [r.created.value]
              && r.rooms == RoomService.UpdateRoomAvailability(rs, p.selectedRoom.value.id, false, updated).store
              && !r.page.isModalVisible && r.page.selectedRoom.None?
    ensures p.selectedRoom.Some? && r.rooms != rs ==> r.page.rooms == r.rooms.rooms
  {
    match p.selectedRoom
    case None => Submitted(p, bs, rs, None)
    case Some(room) =>
      var step := BookingService.CreateBooking(bs, room, form, now, created, localId, written);
      var update := RoomService.UpdateRoomAvailability(rs, room.id, false, updated);
      var page := if update.result.Success? then OnRoomsChanged(p, update.store.rooms) else p;
      Submitted(OnModalClose(page), step.store, update.store, Some(step.value))
  }

  /** Booking an available room that the API then marks unavailable moves
      one room from the available count to the booked count. */
  lemma BookingMovesRoomToBooked(p: Page, bs: BookingService.Store, rs: RoomService.RoomStore,
                                 form: BookingFormData, now: int, created: Reply<Booking>,
                                 localId: string, written: bool)
    requires BookingService.IsLocalId(localId)
    requires p.selectedRoom.Some? && RoomService.HasRoom(rs.rooms, p.selectedRoom.value.id)
    requires rs.rooms[RoomService.FindRoom(rs.rooms, p.selectedRoom.value.id)].isAvailable
    ensures var sent := RoomService.UpdateRoomAvailability(rs, p.selectedRoom.value.id, false, Fail).request.value;
            var r := OnBookingSubmit(p, bs, rs, form, now, created, localId, written, Ok(sent));
            && r.page.stats.totalRooms == |rs.rooms|
            && r.page.stats.availableRooms == UpdateStatistics(rs.rooms).availableRooms - 1
            && r.page.stats.bookedRooms == UpdateStatistics(rs.rooms).bookedRooms + 1
  {
    var id := p.selectedRoom.value.id;
    var i := RoomService.FindRoom(rs.rooms, id);
    var sent := rs.rooms[i].(isAvailable := false);
    RoomService.EchoedUpdateSetsAvailability(rs, id, false);
    var after := rs.rooms[i := sent];
    assert RoomService.UpdateRoomAvailability(rs, id, false, Ok(sent)).store.rooms == after;
    FilterLengthUpdate(rs.rooms, i, sent, (x: Room) => x.isAvailable);
  }

  /** With no room selected, a submit books nothing. */
  lemma NoRoomNoBooking(p: Page, bs: BookingService.Store, rs: RoomService.RoomStore,
                        form: BookingFormData, now: int, created: Reply<Booking>,
                        localId: string, written: bool, updated: Reply<Room>)
    requires BookingService.IsLocalId(localId) && p.selectedRoom.None?
    ensures OnBookingSubmit(p, bs, rs, form, now, created, localId, written, updated).bookings == bs
  {
  }
}
