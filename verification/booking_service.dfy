/** The booking store of `BookingService`: the in-memory booking list (the
    value of the service's `BehaviorSubject`) together with the list kept in
    `localStorage`, and the operations that move both.

    Every remote call is an input `Reply`, the id the service would generate
    for an offline booking is an input that must carry the `local_` prefix,
    and every write to `localStorage` takes a flag `written` that is false
    when the write threw (the service logs and swallows that error). A read
    of `localStorage` that finds nothing or cannot parse yields `[]`, so the
    cache is simply the list the next read returns. */
module BookingService {
  import opened Outcomes
  import opened Models
  import opened Text
  import opened Seqs

  const LocalIdPrefix: string := "local_"
  const MsPerDay: int := 1000 * 60 * 60 * 24
  const BookingNotFound: string := "Booking not found"

  /** An id the client generated while the API was unreachable. */
  predicate IsLocalId(id: string) {
    StartsWith(id, LocalIdPrefix)
  }

  /** `bookings` is the in-memory list, `cache` what `localStorage` holds. */
  datatype Store = Store(bookings: seq<Booking>, cache: seq<Booking>)

  /** The new store and the value the operation's observable emits. */
  datatype Step<+T> = Step(store: Store, value: T)

  /** The constructor: the in-memory list starts as whatever is stored. */
  function Load(stored: seq<Booking>): Store {
    Store(stored, stored)
  }

  /** A best-effort write to `localStorage`. */
  function Persist(cache: seq<Booking>, data: seq<Booking>, written: bool): seq<Booking> {
    if written then data else cache
  }

  ghost predicate Synced(s: Store) {
    s.bookings == s.cache
  }

  predicate HasId(bs: seq<Booking>, id: string) {
    exists k :: 0 <= k < |bs| && bs[k].id == id
  }

  lemma HasIdConcat(a: seq<Booking>, b: seq<Booking>, id: string)
    ensures HasId(a + b, id) <==> HasId(a, id) || HasId(b, id)
  {
    if HasId(a + b, id) {
      var k :| 0 <= k < |a + b| && (a + b)[k].id == id;
      if k >= |a| {
        assert b[k - |a|].id == id;
      }
    }
    if HasId(b, id) {
      var k :| 0 <= k < |b| && b[k].id == id;
      assert (a + b)[|a| + k].id == id;
    }
    if HasId(a, id) {
      var k :| 0 <= k < |a| && a[k].id == id;
      assert (a + b)[k].id == id;
    }
  }

  ghost predicate UniqueIds(bs: seq<Booking>) {
    forall i, j :: 0 <= i < j < |bs| ==> bs[i].id != bs[j].id
  }

  /** `findIndex(b => b.id === id)`: the first position holding `id`, or -1. */
  function FindIndex(bs: seq<Booking>, id: string): (i: int)
    ensures -1 <= i < |bs|
    ensures i == -1 <==> !HasId(bs, id)
    ensures 0 <= i ==> bs[i].id == id && forall k :: 0 <= k < i ==> bs[k].id != id
    decreases |bs|
  {
    if bs == [] then -1
    else if bs[0].id == id then 0
    else
      var j := FindIndex(bs[1..], id);
      if j == -1 then
        assert forall k :: 0 < k < |bs| ==> bs[k] == bs[1..][k - 1];
        -1
      else j + 1
  }

  // ---------------------------------------------------------------------
  // Nights and price
  // ---------------------------------------------------------------------

  /** `Math.ceil(a / d)` for a non-negative dividend. */
  function CeilDiv(a: nat, d: nat): nat
    requires d > 0
  {
    if a % d == 0 then a / d else a / d + 1
  }

  function Abs(x: int): nat {
    if x < 0 then -x else x
  }

  /** The number of days between two calendar dates, whichever comes first. */
  function DayDistance(checkIn: int, checkOut: int): nat {
    if checkIn <= checkOut then checkOut - checkIn else checkIn - checkOut
  }

  lemma MulSign(e: int, d: int)
    requires d > 0
    ensures e >= 1 ==> e * d >= d
    ensures e <= -1 ==> e * d <= -d
  {
  }

  lemma ExactDivision(k: nat, d: nat)
    requires d > 0
    ensures (k * d) % d == 0 && (k * d) / d == k
  {
    var q, r := (k * d) / d, (k * d) % d;
    assert (k - q) * d == r;
    MulSign(k - q, d);
  }

  /** `calculateNumberOfNights`: the absolute difference of the two UTC
      midnights in milliseconds, divided by a day and rounded up. Because
      both instants are midnights the division is exact. */
  function NumberOfNights(checkIn: int, checkOut: int): (n: nat)
    ensures n == DayDistance(checkIn, checkOut)
  {
    var diff := Abs(checkOut * MsPerDay - checkIn * MsPerDay);
    assert checkOut * MsPerDay - checkIn * MsPerDay == (checkOut - checkIn) * MsPerDay;
    assert diff == DayDistance(checkIn, checkOut) * MsPerDay;
    ExactDivision(DayDistance(checkIn, checkOut), MsPerDay);
    CeilDiv(diff, MsPerDay)
  }

  /** `calculateTotalPrice`: every night adds one nightly price. */
  function TotalPrice(pricePerNight: int, nights: int): (r: int)
    ensures nights == 0 ==> r == 0
    ensures nights > 0 ==> r == TotalPrice(pricePerNight, nights - 1) + pricePerNight
    ensures 0 <= pricePerNight && 0 <= nights ==> 0 <= r
  {
    pricePerNight * nights
  }

  /** The record `createBooking` assembles before posting it, given the id
      it finally receives. */
  function NewBooking(room: Room, form: BookingFormData, now: int, id: string): (b: Booking)
    ensures b.id == id && Describes(b, room, form, now)
  {
    var nights := NumberOfNights(form.checkInDate, form.checkOutDate);
    Booking(id, room.id, room.name, room.roomType, form.guestName,
            form.checkInDate, form.checkOutDate,
            TotalPrice(room.price, nights), nights, now, Confirmed)
  }

  /** `b` is the booking of `room` made from `form` at time `now`, whatever
      its id. */
  ghost predicate Describes(b: Booking, room: Room, form: BookingFormData, now: int) {
    && b.roomId == room.id && b.roomName == room.name && b.roomType == room.roomType
    && b.guestName == form.guestName
    && b.checkInDate == form.checkInDate && b.checkOutDate == form.checkOutDate
    && b.numberOfNights == DayDistance(form.checkInDate, form.checkOutDate)
    && b.totalPrice == room.price * DayDistance(form.checkInDate, form.checkOutDate)
    && b.bookingDate == now
    && b.status == Confirmed
  }

  // ---------------------------------------------------------------------
  // Storage helpers
  // ---------------------------------------------------------------------

  /** `addBookingToStorage`: the booking goes after every existing record,
      and the cache follows the list when the write succeeds. */
  function AddBooking(s: Store, b: Booking, written: bool): (r: Store)
    ensures |r.bookings| == |s.bookings| + 1
    ensures r.bookings[..|s.bookings|] == s.bookings && r.bookings[|s.bookings|] == b
    ensures HasId(r.bookings, b.id)
    ensures r.cache == (if written then r.bookings else s.cache)
  {
    var bs := s.bookings + [b];
    Store(bs, Persist(s.cache, bs, written))
  }

  /** `updateBookingInStorage`: the first record with `b.id` is replaced by
      `b`; an unknown id changes neither the list nor the cache. */
  function UpdateBooking(s: Store, b: Booking, written: bool): (r: Store)
    ensures !HasId(s.bookings, b.id) ==> r == s
    ensures HasId(s.bookings, b.id) ==>
              && |r.bookings| == |s.bookings|
              && r.bookings[FindIndex(s.bookings, b.id)] == b
              && (forall k :: 0 <= k < |s.bookings| && k != FindIndex(s.bookings, b.id) ==>
                    r.bookings[k] == s.bookings[k])
              && r.cache == (if written then r.bookings else s.cache)
  {
    var i := FindIndex(s.bookings, b.id);
    if i == -1 then s
    else
      var bs := s.bookings[i := b];
      Store(bs, Persist(s.cache, bs, written))
  }

  // ---------------------------------------------------------------------
  // Reconciliation
  // ---------------------------------------------------------------------

  /** The `forEach` of `mergeBookings`: `merged` is the list built so far,
      `pending` the cached records not yet looked at. A cached record is
      appended when its id is local and not yet in `merged`. */
  function MergeInto(merged: seq<Booking>, pending: seq<Booking>): (r: seq<Booking>)
    ensures |merged| <= |r| && r[..|merged|] == merged
    ensures IsSubsequence(r[|merged|..], pending)
    ensures forall k :: |merged| <= k < |r| ==> IsLocalId(r[k].id) && !HasId(r[..k], r[k].id)
    decreases |pending|
  {
    if pending == [] then
      assert merged[|merged|..] == [];
      merged
    else
      var b := pending[0];
      if !HasId(merged, b.id) && IsLocalId(b.id) then
        var r := MergeInto(merged + [b], pending[1..]);
        assert r[..|merged| + 1] == merged + [b];
        assert r[..|merged|] == merged;
        assert r[|merged|..] == [b] + r[|merged| + 1..];
        r
      else
        var r := MergeInto(merged, pending[1..]);
        assert r[|merged|..] == [] || IsSubsequence(r[|merged|..], pending[1..]);
        r
  }

  /** `mergeBookings(apiBookings, localBookings)`: the API list unchanged and
      first, then cached records in cache order, each with a local id that
      nothing before it in the result carries. */
  function MergeBookings(api: seq<Booking>, local: seq<Booking>): (r: seq<Booking>)
    ensures |api| <= |r| && r[..|api|] == api
    ensures IsSubsequence(r[|api|..], local)
    ensures forall k :: |api| <= k < |r| ==> IsLocalId(r[k].id) && !HasId(r[..k], r[k].id)
  {
    MergeInto(api, local)
  }

  /** Reference reading of the merge: the cached records kept are exactly
      those whose id is local, unknown to the API, and seen for the first
      time in the cache. */
  function Survivors(api: seq<Booking>, local: seq<Booking>): seq<Booking>
    decreases |local|
  {
    if local == [] then []
    else
      var prev := local[..|local| - 1];
      var b := local[|local| - 1];
      Survivors(api, prev) +
        (if IsLocalId(b.id) && !HasId(api, b.id) && !HasId(prev, b.id) then [b] else [])
  }

  /** A cached id survives the merge iff it is local, the API does not know
      it, and the cache holds it. */
  lemma {:induction false} SurvivorIds(api: seq<Booking>, local: seq<Booking>, id: string)
    ensures HasId(Survivors(api, local), id) <==> IsLocalId(id) && !HasId(api, id) && HasId(local, id)
    decreases |local|
  {
    if local == [] {
    } else {
      var prev := local[..|local| - 1];
      var b := local[|local| - 1];
      var kept := if IsLocalId(b.id) && !HasId(api, b.id) && !HasId(prev, b.id) then [b] else [];
      SurvivorIds(api, prev, id);
      HasIdConcat(Survivors(api, prev), kept, id);
      assert local == prev + [b];
      HasIdConcat(prev, [b], id);
      assert HasId([b], id) <==> b.id == id;
      assert HasId(kept, id) <==> kept == [b] && b.id == id;
    }
  }

  /** One more cached record extends the reference reading by at most that
      record. */
  lemma SurvivorsSnoc(api: seq<Booking>, p: seq<Booking>, b: Booking)
    ensures Survivors(api, p + [b]) ==
              Survivors(api, p) + (if IsLocalId(b.id) && !HasId(api, b.id) && !HasId(p, b.id) then [b] else [])
  {
    assert (p + [b])[..|p + [b]| - 1] == p;
    assert (p + [b])[|p + [b]| - 1] == b;
  }

  /** The ids of a partial merge: the API's, and the local ids seen so far. */
  lemma PartialMergeIds(api: seq<Booking>, p: seq<Booking>, id: string)
    ensures HasId(api + Survivors(api, p), id) <==> HasId(api, id) || (IsLocalId(id) && HasId(p, id))
  {
    HasIdConcat(api, Survivors(api, p), id);
    SurvivorIds(api, p, id);
  }

  /** One turn of the `forEach` that appends the record. */
  lemma MergeIntoKeeps(m: seq<Booking>, q: seq<Booking>)
    requires q != [] && !HasId(m, q[0].id) && IsLocalId(q[0].id)
    ensures MergeInto(m, q) == MergeInto(m + [q[0]], q[1..])
  {
  }

  /** One turn of the `forEach` that skips the record. */
  lemma MergeIntoSkips(m: seq<Booking>, q: seq<Booking>)
    requires q != [] && (HasId(m, q[0].id) || !IsLocalId(q[0].id))
    ensures MergeInto(m, q) == MergeInto(m, q[1..])
  {
  }

  /** A cached record the reference reading keeps extends it by itself. */
  lemma SurvivorsKeep(api: seq<Booking>, p: seq<Booking>, b: Booking)
    requires IsLocalId(b.id) && !HasId(api, b.id) && !HasId(p, b.id)
    ensures api + Survivors(api, p + [b]) == (api + Survivors(api, p)) + [b]
  {
    SurvivorsSnoc(api, p, b);
  }

  /** A cached record the reference reading drops leaves it unchanged. */
  lemma SurvivorsSkip(api: seq<Booking>, p: seq<Booking>, b: Booking)
    requires !(IsLocalId(b.id) && !HasId(api, b.id) && !HasId(p, b.id))
    ensures Survivors(api, p + [b]) == Survivors(api, p)
  {
    SurvivorsSnoc(api, p, b);
    assert Survivors(api, p) + [] == Survivors(api, p);
  }

  /** One step of the `forEach` agrees with one more record in the
      reference reading. */
  lemma MergeOneStep(api: seq<Booking>, p: seq<Booking>, q: seq<Booking>)
    requires q != []
    ensures MergeInto(api + Survivors(api, p), q) == MergeInto(api + Survivors(api, p + [q[0]]), q[1..])
  {
    var b := q[0];
    var m := api + Survivors(api, p);
    PartialMergeIds(api, p, b.id);
    if IsLocalId(b.id) && !HasId(api, b.id) && !HasId(p, b.id) {
      MergeIntoKeeps(m, q);
      SurvivorsKeep(api, p, b);
    } else {
      MergeIntoSkips(m, q);
      SurvivorsSkip(api, p, b);
    }
  }

  lemma {:induction false} MergeIntoSurvivors(api: seq<Booking>, p: seq<Booking>, q: seq<Booking>)
    ensures MergeInto(api + Survivors(api, p), q) == api + Survivors(api, p + q)
    decreases |q|
  {
    if q == [] {
      assert p + q == p;
    } else {
      var p', q' := p + [q[0]], q[1..];
      assert p' + q' == p + q;
      MergeOneStep(api, p, q);
      MergeIntoSurvivors(api, p', q');
    }
  }

  /** The merge equals its reference reading. */
  lemma MergeMatchesSurvivors(api: seq<Booking>, local: seq<Booking>)
    ensures MergeBookings(api, local) == api + Survivors(api, local)
  {
    assert Survivors(api, []) == [];
    assert api + Survivors(api, []) == api;
    MergeIntoSurvivors(api, [], local);
    assert [] + local == local;
  }

  lemma {:induction false} MergeIntoSplit(m: seq<Booking>, p: seq<Booking>, q: seq<Booking>)
    ensures MergeInto(m, p + q) == MergeInto(MergeInto(m, p), q)
    decreases |p|
  {
    if p == [] {
      assert p + q == q;
    } else {
      assert (p + q)[0] == p[0] && (p + q)[1..] == p[1..] + q;
      var m' := if !HasId(m, p[0].id) && IsLocalId(p[0].id) then m + [p[0]] else m;
      MergeIntoSplit(m', p[1..], q);
    }
  }

  lemma {:induction false} MergeIntoAbsorbs(m: seq<Booking>, p: seq<Booking>)
    requires forall k :: 0 <= k < |p| ==> HasId(m, p[k].id)
    ensures MergeInto(m, p) == m
    decreases |p|
  {
    if p != [] {
      MergeIntoAbsorbs(m, p[1..]);
    }
  }

  lemma {:induction false} MergeIntoAppends(m: seq<Booking>, t: seq<Booking>)
    requires forall k :: 0 <= k < |t| ==> IsLocalId(t[k].id) && !HasId(m + t[..k], t[k].id)
    ensures MergeInto(m, t) == m + t
    decreases |t|
  {
    if t != [] {
      assert m + t[..0] == m;
      forall k | 0 <= k < |t[1..]|
        ensures IsLocalId(t[1..][k].id) && !HasId(m + [t[0]] + t[1..][..k], t[1..][k].id)
      {
        assert m + [t[0]] + t[1..][..k] == m + t[..k + 1];
      }
      MergeIntoAppends(m + [t[0]], t[1..]);
      assert m + [t[0]] + t[1..] == m + t;
    }
  }

  /** Reconciling again against the same API list changes nothing, so
      repeated fetches never accumulate duplicates. */
  lemma MergeIdempotent(api: seq<Booking>, local: seq<Booking>)
    ensures MergeBookings(api, MergeBookings(api, local)) == MergeBookings(api, local)
  {
    var r := MergeBookings(api, local);
    var t := r[|api|..];
    assert r == api + t;
    forall k | 0 <= k < |api|
      ensures HasId(api, api[k].id)
    {
    }
    MergeIntoAbsorbs(api, api);
    forall k | 0 <= k < |t|
      ensures IsLocalId(t[k].id) && !HasId(api + t[..k], t[k].id)
    {
      assert t[k] == r[|api| + k];
      assert r[..|api| + k] == api + t[..k];
    }
    MergeIntoAppends(api, t);
    MergeIntoSplit(api, api, t);
  }

  /** Server ids that are unique stay unique after the merge. */
  lemma MergeKeepsIdsUnique(api: seq<Booking>, local: seq<Booking>)
    requires UniqueIds(api)
    ensures UniqueIds(MergeBookings(api, local))
  {
    var r := MergeBookings(api, local);
    forall i, j | 0 <= i < j < |r|
      ensures r[i].id != r[j].id
    {
      if j < |api| {
        assert r[i] == api[i] && r[j] == api[j];
      } else {
        assert r[..j][i] == r[i];
      }
    }
  }

  /** Worked examples: the server's record wins over a cached copy, and a
      cached record with a server id the API no longer returns is dropped. */
  lemma MergeExamples(server: Booking, localOnly: Booking, stale: Booking)
    requires server.id == "1" && localOnly.id == "local_9" && stale.id == "5"
    ensures MergeBookings([server], [server.(status := Cancelled), localOnly]) == [server, localOnly]
    ensures MergeBookings([], [stale]) == []
  {
    assert IsLocalId(localOnly.id);
    assert !IsLocalId(stale.id);
    assert [server][0].id == server.id;
    assert !HasId([server], localOnly.id);
    var cached := [server.(status := Cancelled), localOnly];
    assert MergeInto([server], cached) == MergeInto([server], cached[1..]);
    assert cached[1..] == [localOnly];
    assert MergeInto([server], [localOnly]) == MergeInto([server, localOnly], []);
  }

  // ---------------------------------------------------------------------
  // Operations
  // ---------------------------------------------------------------------

  /** `createBooking`: nights and price are derived from the form, the draft
      is posted, and whichever booking results (the API's, or the draft under
      `localId` when the post fails) is appended to the list and the cache. */
  function CreateBooking(s: Store, room: Room, form: BookingFormData, now: int,
                         reply: Reply<Booking>, localId: string, written: bool): (r: Step<Booking>)
    requires IsLocalId(localId)
    ensures r.store.bookings == s.bookings + [r.value]
    ensures r.store.cache == if written then r.store.bookings else s.cache
    ensures reply.Ok? ==> r.value == reply.value
    ensures reply.Fail? ==> r.value.id == localId && Describes(r.value, room, form, now)
  {
    var b := match reply
      case Ok(created) => created
      case Fail => NewBooking(room, form, now, localId);
    Step(AddBooking(s, b, written), b)
  }

  /** The draft `createBooking` posts describes the room and the form; when
      the API answers with that draft under an id of its own, the appended
      booking is the draft under the API's id. */
  lemma EchoedCreateDescribes(s: Store, room: Room, form: BookingFormData, now: int,
                              apiId: string, localId: string, written: bool)
    requires IsLocalId(localId)
    ensures var r := CreateBooking(s, room, form, now, Ok(NewBooking(room, form, now, apiId)), localId, written);
            && r.value.id == apiId && Describes(r.value, room, form, now)
            && r.store.bookings == s.bookings + [r.value]
  {
  }

  /** `getBookings`: on success the list and the cache become the merge of
      the API list with the cache, and the observable emits the API list as
      received; on failure the list becomes the cache and the cache is
      emitted. */
  function GetBookings(s: Store, reply: Reply<seq<Booking>>, written: bool): (r: Step<seq<Booking>>)
    ensures reply.Ok? ==> && r.value == reply.value
                          && r.store.bookings == MergeBookings(reply.value, s.cache)
                          && r.store.cache == (if written then r.store.bookings else s.cache)
    ensures reply.Fail? ==> r.value == s.cache && r.store == Store(s.cache, s.cache)
  {
    match reply
    case Ok(api) =>
      var merged := MergeBookings(api, s.cache);
      Step(Store(merged, Persist(s.cache, merged, written)), api)
    case Fail =>
      Step(Store(s.cache, s.cache), s.cache)
  }

  /** `after` is `before` with the first record carrying `id` cancelled and
      nothing else different. */
  ghost predicate CancelledOnly(before: seq<Booking>, after: seq<Booking>, id: string) {
    var i := FindIndex(before, id);
    && 0 <= i
    && |after| == |before|
    && after[i] == before[i].(status := Cancelled)
    && forall k :: 0 <= k < |before| && k != i ==> after[k] == before[k]
  }

  /** `cancelBooking`: an id absent from the list fails with "Booking not
      found" and changes nothing; otherwise the record is cancelled locally
      even when the API rejects the update, and when the API answers, its
      answer is stored in place and emitted. */
  function CancelBooking(s: Store, id: string, reply: Reply<Booking>, written: bool): (r: Step<Result<Booking>>)
    ensures r.value.Failure? <==> !HasId(s.bookings, id)
    ensures r.value.Failure? ==> r.value.error == NotFound(BookingNotFound) && r.store == s
    ensures r.value.Success? && reply.Fail? ==>
              && r.value.value.id == id && r.value.value.status == Cancelled
              && CancelledOnly(s.bookings, r.store.bookings, id)
              && r.store.cache == (if written then r.store.bookings else s.cache)
    ensures r.value.Success? && reply.Ok? ==>
              r.value.value == reply.value && r.store == UpdateBooking(s, reply.value, written)
  {
    var i := FindIndex(s.bookings, id);
    if i == -1 then Step(s, Failure(NotFound(BookingNotFound)))
    else
      var updated := s.bookings[i].(status := Cancelled);
      match reply
      case Ok(apiBooking) => Step(UpdateBooking(s, apiBooking, written), Success(apiBooking))
      case Fail => Step(UpdateBooking(s, updated, written), Success(updated))
  }

  /** When the API echoes the cancelled record, both paths agree. */
  lemma CancelPathsAgree(s: Store, id: string, written: bool)
    requires HasId(s.bookings, id)
    ensures var failed := CancelBooking(s, id, Fail, written);
            CancelBooking(s, id, Ok(failed.value.value), written) == failed
  {
  }

  /** `getBookingsByRoomId`. */
  function BookingsByRoomId(bs: seq<Booking>, roomId: string): (r: seq<Booking>)
    ensures IsSubsequence(r, bs)
    ensures forall b :: multiset(r)[b] == if b.roomId == roomId then multiset(bs)[b] else 0
  {
    Filter(bs, (b: Booking) => b.roomId == roomId)
  }

  /** `getBookingsByGuestName`: case-insensitive substring match. */
  function BookingsByGuestName(bs: seq<Booking>, guestName: string): (r: seq<Booking>)
    ensures IsSubsequence(r, bs)
    ensures forall b :: multiset(r)[b] ==
              if Contains(Lower(b.guestName), Lower(guestName)) then multiset(bs)[b] else 0
  {
    Filter(bs, (b: Booking) => Contains(Lower(b.guestName), Lower(guestName)))
  }

  /** `clearAllBookings`: the list is emptied and the storage key removed,
      so a later read finds nothing. */
  function ClearAllBookings(s: Store): (r: Store)
    ensures r.bookings == [] && r.cache == []
    ensures Synced(r)
  {
    Store([], [])
  }

  /** `isValidDateRange`, with today's day number as an input: valid exactly
      when the check-in is today or later and the check-out lies a positive
      number of nights after it. */
  function IsValidDateRange(today: int, checkIn: int, checkOut: int): (r: bool)
    ensures r <==> && today <= checkIn
                   && NumberOfNights(checkIn, checkOut) >= 1
                   && checkIn + NumberOfNights(checkIn, checkOut) == checkOut
  {
    checkIn >= today && checkOut > checkIn
  }

  // ---------------------------------------------------------------------
  // Properties across operations
  // ---------------------------------------------------------------------

  /** With every write succeeding, the list and the cache never diverge;
      a failed fetch re-synchronises them regardless. */
  lemma WritesKeepCacheInSync(s: Store, room: Room, form: BookingFormData, now: int,
                              created: Reply<Booking>, localId: string,
                              fetched: Reply<seq<Booking>>, id: string, cancelled: Reply<Booking>)
    requires Synced(s) && IsLocalId(localId)
    ensures Synced(CreateBooking(s, room, form, now, created, localId, true).store)
    ensures Synced(GetBookings(s, fetched, true).store)
    ensures Synced(CancelBooking(s, id, cancelled, true).store)
    ensures Synced(GetBookings(s, Fail, false).store)
  {
  }

  /** A second successful fetch of the same API list leaves the store as
      the first one left it. */
  lemma RepeatedFetchIsStable(s: Store, api: seq<Booking>)
    ensures var s1 := GetBookings(s, Ok(api), true).store;
            GetBookings(s1, Ok(api), true).store == s1
  {
    MergeIdempotent(api, s.cache);
  }

  /** Creating with a fresh id keeps ids unique. */
  lemma CreateKeepsIdsUnique(s: Store, room: Room, form: BookingFormData, now: int,
                             reply: Reply<Booking>, localId: string, written: bool)
    requires IsLocalId(localId) && UniqueIds(s.bookings)
    requires reply.Ok? ==> !HasId(s.bookings, reply.value.id)
    requires reply.Fail? ==> !HasId(s.bookings, localId)
    ensures UniqueIds(CreateBooking(s, room, form, now, reply, localId, written).store.bookings)
  {
    var r := CreateBooking(s, room, form, now, reply, localId, written);
    var bs := r.store.bookings;
    forall i, j | 0 <= i < j < |bs|
      ensures bs[i].id != bs[j].id
    {
      if j == |s.bookings| {
        assert bs[i] == s.bookings[i];
      }
    }
  }

  /** Cancelling never changes an id, so unique ids stay unique. */
  lemma CancelKeepsIdsUnique(s: Store, id: string, reply: Reply<Booking>, written: bool)
    requires UniqueIds(s.bookings)
    ensures UniqueIds(CancelBooking(s, id, reply, written).store.bookings)
  {
    var bs := CancelBooking(s, id, reply, written).store.bookings;
    assert forall k :: 0 <= k < |bs| ==> bs[k].id == s.bookings[k].id;
  }

  /** The service tests' figures: 10 to 13 is three nights; the same day is none. */
  lemma NightsExamples(room: Room)
    requires room.price == 100
    ensures NumberOfNights(10, 13) == 3 && TotalPrice(room.price, 3) == 300
    ensures NumberOfNights(10, 10) == 0 && NumberOfNights(10, 11) == 1
  {
  }
}
