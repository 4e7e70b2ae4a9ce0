/** `BookingHistoryComponent`: the list of the user's bookings with a
    status filter, a free-text search, a sort on one of three fields, the
    message shown when nothing is listed, and the summary figures. */
module BookingHistory {
  import opened Outcomes
  import opened Models
  import opened Text
  import opened Seqs
  import BookingService

  const AllStatuses: string := "all"

  datatype SortField = BookingDate | CheckInDate | TotalPrice
  datatype SortDirection = Asc | Desc

  /** The page's signals; `filtered` is what the template lists. */
  datatype View = View(
    bookings: seq<Booking>,
    loading: bool,
    selectedStatus: string,
    searchQuery: string,
    sortField: SortField,
    sortDirection: SortDirection,
    filtered: seq<Booking>)

  // ---------------------------------------------------------------------
  // Filtering
  // ---------------------------------------------------------------------

  /** The status filter: "all" or the string value of one status. */
  predicate StatusMatches(b: Booking, status: string) {
    status == AllStatuses || StatusName(b.status) == status
  }

  /** The search: `query` (already lower-cased and trimmed) occurs in the
      lower-cased guest name, room name, room type or id. */
  predicate QueryMatches(b: Booking, query: string) {
    || Contains(Lower(b.guestName), query)
    || Contains(Lower(b.roomName), query)
    || Contains(Lower(b.roomType), query)
    || Contains(Lower(b.id), query)
  }

  /** The query the page actually filters with. */
  function NormalizedQuery(searchQuery: string): string {
    Trim(Lower(searchQuery))
  }

  /** Whether a booking is listed: it passes the status filter and, when
      the normalized query is not empty, the search. */
  predicate Listed(b: Booking, status: string, searchQuery: string) {
    && StatusMatches(b, status)
    && (NormalizedQuery(searchQuery) == [] || QueryMatches(b, NormalizedQuery(searchQuery)))
  }

  // ---------------------------------------------------------------------
  // Sorting
  // ---------------------------------------------------------------------

  /** The number the comparator subtracts. Dates are compared through their
      timestamps; calendar dates are day numbers, whose order is the order
      of their UTC-midnight timestamps. */
  function Key(b: Booking, field: SortField): int {
    match field
    case BookingDate => b.bookingDate
    case CheckInDate => b.checkInDate
    case TotalPrice => b.totalPrice
  }

  /** A descending comparison is the ascending one on the negated key. */
  function SignedKey(b: Booking, field: SortField, dir: SortDirection): int {
    if dir == Asc then Key(b, field) else -Key(b, field)
  }

  ghost predicate SortedBy(s: seq<Booking>, field: SortField, dir: SortDirection) {
    forall i, j :: 0 <= i < j < |s| ==> SignedKey(s[i], field, dir) <= SignedKey(s[j], field, dir)
  }

  /** Places `x` before the first element whose key is not smaller, so
      that `x`, which came first in the input, precedes its ties. */
  function Insert(x: Booking, s: seq<Booking>, field: SortField, dir: SortDirection): (r: seq<Booking>)
    requires SortedBy(s, field, dir)
    ensures SortedBy(r, field, dir)
    ensures multiset(r) == multiset(s) + multiset{x}
    decreases |s|
  {
    if s == [] || SignedKey(x, field, dir) <= SignedKey(s[0], field, dir) then [x] + s
    else
      var rest := Insert(x, s[1..], field, dir);
      assert s == [s[0]] + s[1..];
      ConsSorted(s[0], x, s[1..], rest, field, dir);
      [s[0]] + rest
  }

  /** The head of a sorted list stays in front when a larger key is
      inserted into its tail. */
  lemma ConsSorted(h: Booking, x: Booking, t: seq<Booking>, rest: seq<Booking>,
                   field: SortField, dir: SortDirection)
    requires SortedBy([h] + t, field, dir) && SortedBy(rest, field, dir)
    requires SignedKey(h, field, dir) < SignedKey(x, field, dir)
    requires multiset(rest) == multiset(t) + multiset{x}
    ensures SortedBy([h] + rest, field, dir)
  {
    var r := [h] + rest;
    forall j | 0 < j < |r|
      ensures SignedKey(h, field, dir) <= SignedKey(r[j], field, dir)
    {
      var y := r[j];
      assert y == rest[j - 1];
      assert y in rest;
      assert multiset(rest)[y] > 0;
      if y != x {
        assert y in t;
        var k :| 0 <= k < |t| && t[k] == y;
        assert ([h] + t)[0] == h && ([h] + t)[k + 1] == y;
        assert SignedKey(([h] + t)[0], field, dir) <= SignedKey(([h] + t)[k + 1], field, dir);
      }
    }
  }

  /** `Array.prototype.sort` with the page's comparator: a permutation of
      the input, ordered by the signed key. */
  function SortBookings(xs: seq<Booking>, field: SortField, dir: SortDirection): (r: seq<Booking>)
    ensures SortedBy(r, field, dir)
    ensures multiset(r) == multiset(xs)
    decreases |xs|
  {
    if xs == [] then []
    else
      assert xs == [xs[0]] + xs[1..];
      Insert(xs[0], SortBookings(xs[1..], field, dir), field, dir)
  }

  /** The status filter of `applyFiltersAndSort`. */
  function ByStatus(bookings: seq<Booking>, status: string): (r: seq<Booking>)
    ensures forall b :: multiset(r)[b] == if StatusMatches(b, status) then multiset(bookings)[b] else 0
  {
    if status != AllStatuses then Filter(bookings, (b: Booking) => StatusName(b.status) == status)
    else bookings
  }

  /** Both filters of `applyFiltersAndSort`: exactly the listed bookings,
      each as often as it occurs in the input. */
  function Selected(bookings: seq<Booking>, status: string, searchQuery: string): (r: seq<Booking>)
    ensures forall b :: multiset(r)[b] == if Listed(b, status, searchQuery) then multiset(bookings)[b] else 0
  {
    var byStatus := ByStatus(bookings, status);
    var query := NormalizedQuery(searchQuery);
    if query == [] then byStatus
    else
      var r := Filter(byStatus, (b: Booking) => QueryMatches(b, query));
      assert forall b :: multiset(r)[b] == if QueryMatches(b, query) then multiset(byStatus)[b] else 0;
      r
  }

  /** Order by the signed key is ascending order of the key, or descending
      order when the direction is descending. */
  lemma SignedOrder(r: seq<Booking>, field: SortField, dir: SortDirection)
    requires SortedBy(r, field, dir)
    ensures forall i, j :: 0 <= i < j < |r| ==>
              if dir == Asc then Key(r[i], field) <= Key(r[j], field)
              else Key(r[i], field) >= Key(r[j], field)
  {
    forall i, j | 0 <= i < j < |r|
      ensures if dir == Asc then Key(r[i], field) <= Key(r[j], field)
              else Key(r[i], field) >= Key(r[j], field)
    {
      assert SignedKey(r[i], field, dir) <= SignedKey(r[j], field, dir);
    }
  }

  /** `applyFiltersAndSort`: exactly the listed bookings, each as often as
      it occurs in the input, non-decreasing by the field when ascending
      and non-increasing when descending. */
  function FilterAndSort(bookings: seq<Booking>, status: string, searchQuery: string,
                         field: SortField, dir: SortDirection): (r: seq<Booking>)
    ensures forall b :: multiset(r)[b] == if Listed(b, status, searchQuery) then multiset(bookings)[b] else 0
    ensures forall i, j :: 0 <= i < j < |r| ==>
              if dir == Asc then Key(r[i], field) <= Key(r[j], field)
              else Key(r[i], field) >= Key(r[j], field)
  {
    var r := SortBookings(Selected(bookings, status, searchQuery), field, dir);
    SignedOrder(r, field, dir);
    r
  }

  /** The listing the view's own settings produce. */
  function Recompute(v: View): View {
    v.(filtered := FilterAndSort(v.bookings, v.selectedStatus, v.searchQuery, v.sortField, v.sortDirection))
  }

  /** The state after `ngOnInit` starts loading. */
  const Initial: View := View([], true, AllStatuses, "", BookingDate, Desc, [])

  /** The bookings subscription: a new list is taken and re-filtered. */
  function OnBookingsChanged(v: View, bookings: seq<Booking>): (r: View)
    ensures r.bookings == bookings && r.loading == v.loading
    ensures r.filtered == FilterAndSort(bookings, v.selectedStatus, v.searchQuery, v.sortField, v.sortDirection)
  {
    Recompute(v.(bookings := bookings))
  }

  /** `loadBookings` settling: loading ends whether the fetch succeeded or
      failed. */
  function OnLoaded(v: View): (r: View)
    ensures !r.loading && r.bookings == v.bookings && r.filtered == v.filtered
  {
    v.(loading := false)
  }

  /** `onStatusChange`. */
  function OnStatusChange(v: View, status: string): (r: View)
    ensures r.selectedStatus == status && r.searchQuery == v.searchQuery
    ensures forall b :: multiset(r.filtered)[b] ==
              if Listed(b, status, v.searchQuery) then multiset(v.bookings)[b] else 0
    ensures r.bookings == v.bookings
    ensures r.filtered == FilterAndSort(r.bookings, r.selectedStatus, r.searchQuery, r.sortField, r.sortDirection)
  {
    Recompute(v.(selectedStatus := status))
  }

  /** `onSearchChange`. */
  function OnSearchChange(v: View, query: string): (r: View)
    ensures r.searchQuery == query && r.selectedStatus == v.selectedStatus
    ensures forall b :: multiset(r.filtered)[b] ==
              if Listed(b, v.selectedStatus, query) then multiset(v.bookings)[b] else 0
    ensures r.bookings == v.bookings
    ensures r.filtered == FilterAndSort(r.bookings, r.selectedStatus, r.searchQuery, r.sortField, r.sortDirection)
  {
    Recompute(v.(searchQuery := query))
  }

  /** `onSortChange`: the current field flips the direction; another field
      becomes current and starts descending. */
  function OnSortChange(v: View, field: SortField): (r: View)
    ensures r.sortField == field
    ensures field == v.sortField ==> r.sortDirection != v.sortDirection
    ensures field != v.sortField ==> r.sortDirection == Desc
    ensures r.bookings == v.bookings && r.selectedStatus == v.selectedStatus
    ensures r.searchQuery == v.searchQuery
    ensures r.filtered == FilterAndSort(r.bookings, r.selectedStatus, r.searchQuery, r.sortField, r.sortDirection)
  {
    if v.sortField == field then
      Recompute(v.(sortDirection := if v.sortDirection == Asc then Desc else Asc))
    else
      Recompute(v.(sortField := field, sortDirection := Desc))
  }

  /** Clicking the same header twice restores the direction. */
  lemma SortToggleTwice(v: View)
    ensures OnSortChange(OnSortChange(v, v.sortField), v.sortField).sortDirection == v.sortDirection
  {
  }

  /** `clearSearch`. */
  function ClearSearch(v: View): (r: View)
    ensures r.searchQuery == [] && r.selectedStatus == v.selectedStatus
    ensures r.bookings == v.bookings
    ensures r.filtered == FilterAndSort(r.bookings, r.selectedStatus, r.searchQuery, r.sortField, r.sortDirection)
  {
    Recompute(v.(searchQuery := ""))
  }

  /** `clearAllFilters`. */
  function ClearAllFilters(v: View): (r: View)
    ensures r.selectedStatus == AllStatuses && r.searchQuery == []
    ensures r.bookings == v.bookings
    ensures r.filtered == FilterAndSort(v.bookings, AllStatuses, "", v.sortField, v.sortDirection)
  {
    Recompute(v.(selectedStatus := AllStatuses, searchQuery := ""))
  }

  /** `hasActiveFilters`: a status other than "all", or a query that is not
      only white space. */
  function HasActiveFilters(v: View): (r: bool)
    ensures !r <==> v.selectedStatus == AllStatuses && AllSpace(v.searchQuery)
  {
    v.selectedStatus != AllStatuses || Trim(v.searchQuery) != []
  }

  /** Lower-casing neither creates nor removes white space, so the filter's
      query is blank exactly when `hasActiveFilters` sees a blank one. */
  lemma BlankQueryIff(q: string)
    ensures NormalizedQuery(q) == [] <==> Trim(q) == []
  {
    assert AllSpace(Lower(q)) <==> AllSpace(q) by {
      assert forall i :: 0 <= i < |q| ==> (IsSpace(Lower(q)[i]) <==> IsSpace(q[i]));
    }
  }

  /** With no active filter, the listing is a reordering of every booking. */
  lemma InactiveFiltersListEverything(v: View)
    requires !HasActiveFilters(v)
    ensures multiset(Recompute(v).filtered) == multiset(v.bookings)
  {
    BlankQueryIff(v.searchQuery);
    var r := Recompute(v).filtered;
    assert forall b :: multiset(r)[b] == multiset(v.bookings)[b];
  }

  /** After `clearAllFilters` no filter is active and every booking is
      listed. */
  lemma ClearAllFiltersDeactivates(v: View)
    ensures !HasActiveFilters(ClearAllFilters(v))
    ensures multiset(ClearAllFilters(v).filtered) == multiset(v.bookings)
  {
    InactiveFiltersListEverything(v.(selectedStatus := AllStatuses, searchQuery := ""));
  }

  // ---------------------------------------------------------------------
  // Empty message
  // ---------------------------------------------------------------------

  const LoadingMessage: string := "Loading bookings..."
  const NoBookingsMessage: string := "You have no bookings yet." + " Start by booking a room!"
  const NothingFoundMessage: string := "No bookings found."

  /** The message for a search that matched nothing, quoting the query. */
  function SearchMessage(query: string): string {
    "No bookings found matching \"" + query + "\"."
  }

  /** The message for a status filter that matched nothing. */
  function StatusMessage(status: string): string {
    "No " + status + " bookings found."
  }

  /** `getEmptyMessage`: loading, then no bookings at all, then a search
      (any non-empty query as typed), then a status filter. */
  function EmptyMessage(v: View): (r: string)
    ensures v.loading ==> r == LoadingMessage
    ensures !v.loading && v.bookings == [] ==> r == NoBookingsMessage
    ensures !v.loading && v.bookings != [] && v.searchQuery != [] ==>
              r == SearchMessage(v.searchQuery) && Contains(r, v.searchQuery) && r != NothingFoundMessage
    ensures !v.loading && v.bookings != [] && v.searchQuery == [] && v.selectedStatus != AllStatuses ==>
              r == StatusMessage(v.selectedStatus) && Contains(r, v.selectedStatus) && r != NothingFoundMessage
    ensures r == NothingFoundMessage <==>
              !v.loading && v.bookings != [] && v.searchQuery == [] && v.selectedStatus == AllStatuses
  {
    if v.loading then LoadingMessage
    else if v.bookings == [] then NoBookingsMessage
    else if v.searchQuery != [] then
      QuotedDiffers("No bookings found matching \"", v.searchQuery, "\".");
      SearchMessage(v.searchQuery)
    else if v.selectedStatus != AllStatuses then
      QuotedDiffers("No ", v.selectedStatus, " bookings found.");
      StatusMessage(v.selectedStatus)
    else NothingFoundMessage
  }

  /** The five messages never coincide, whatever the query and the status,
      so the text alone tells which case of `getEmptyMessage` applied. */
  lemma EmptyMessagesDistinct(query: string, status: string)
    ensures SearchMessage(query) != StatusMessage(status)
    ensures SearchMessage(query) !in {LoadingMessage, NoBookingsMessage, NothingFoundMessage}
    ensures StatusMessage(status) !in {LoadingMessage, NoBookingsMessage, NothingFoundMessage}
  {
    var m, n := SearchMessage(query), StatusMessage(status);
    assert m[0] == 'N' && m[|m| - 2] == '"' && |m| > |NothingFoundMessage|;
    assert n[0] == 'N' && n[|n| - 2] == 'd' && |n| > |NothingFoundMessage|;
    assert LoadingMessage[0] == 'L';
    assert NoBookingsMessage[0] == 'Y';
  }

  /** A message built around `x` contains it and, being longer than the
      plain message, differs from it. */
  lemma QuotedDiffers(a: string, x: string, b: string)
    requires |a| + |b| > |NothingFoundMessage|
    ensures Contains(a + x + b, x)
    ensures a + x + b != NothingFoundMessage
  {
    assert (a + x + b)[|a|..|a| + |x|] == x;
    assert OccursAt(a + x + b, x, |a|);
  }

  /** A query of spaces filters nothing, yet the page still explains the
      empty list as a failed search. */
  lemma BlankQueryStillReportsSearch(v: View)
    requires !v.loading && v.bookings != [] && v.selectedStatus == AllStatuses
    requires v.searchQuery == "  "
    ensures !HasActiveFilters(v)
    ensures EmptyMessage(v) == "No bookings found matching \"  \"."
  {
    assert AllSpace(v.searchQuery);
  }

  // ---------------------------------------------------------------------
  // Statistics
  // ---------------------------------------------------------------------

  /** How many bookings have `status`, counted one by one. */
  function Count(bs: seq<Booking>, status: BookingStatus): nat
    decreases |bs|
  {
    if bs == [] then 0 else (if bs[0].status == status then 1 else 0) + Count(bs[1..], status)
  }

  /** `bookings.filter(b => b.status === status).length`, the common body
      of `getConfirmedBookings` and `getCancelledBookings`. */
  function CountWithStatus(bs: seq<Booking>, status: BookingStatus): (n: nat)
    ensures n == Count(bs, status)
    ensures n <= |bs|
  {
    FilterLengthIsCount(bs, status);
    |Filter(bs, (b: Booking) => b.status == status)|
  }

  lemma {:induction false} FilterLengthIsCount(bs: seq<Booking>, status: BookingStatus)
    ensures |Filter(bs, (b: Booking) => b.status == status)| == Count(bs, status)
    decreases |bs|
  {
    if bs != [] {
      FilterLengthIsCount(bs[1..], status);
    }
  }

  /** `getTotalBookings`. */
  function TotalBookings(bs: seq<Booking>): (n: nat)
    ensures n == Count(bs, Confirmed) + Count(bs, Pending) + Count(bs, Cancelled)
  {
    StatusCountsPartition(bs);
    |bs|
  }

  /** Every booking has exactly one of the three statuses. */
  lemma {:induction false} StatusCountsPartition(bs: seq<Booking>)
    ensures Count(bs, Confirmed) + Count(bs, Pending) + Count(bs, Cancelled) == |bs|
    decreases |bs|
  {
    if bs != [] {
      StatusCountsPartition(bs[1..]);
    }
  }

  /** Confirmed and cancelled together never exceed the total. */
  lemma ConfirmedAndCancelledBounded(bs: seq<Booking>)
    ensures CountWithStatus(bs, Confirmed) + CountWithStatus(bs, Cancelled) <= TotalBookings(bs)
  {
  }

  /** What one booking adds to the amount spent. */
  function Contribution(b: Booking): int {
    if b.status == Confirmed then b.totalPrice else 0
  }

  /** The amount spent, booking by booking. */
  function Spent(bs: seq<Booking>): int
    decreases |bs|
  {
    if bs == [] then 0 else Contribution(bs[0]) + Spent(bs[1..])
  }

  function SumPrices(bs: seq<Booking>): int
    decreases |bs|
  {
    if bs == [] then 0 else bs[0].totalPrice + SumPrices(bs[1..])
  }

  /** `getTotalSpent`: the prices of the confirmed bookings summed; pending
      and cancelled bookings add nothing. */
  function TotalSpent(bs: seq<Booking>): (r: int)
    ensures r == Spent(bs)
  {
    TotalSpentIsSpent(bs);
    SumPrices(Filter(bs, (b: Booking) => b.status == Confirmed))
  }

  lemma {:induction false} TotalSpentIsSpent(bs: seq<Booking>)
    ensures SumPrices(Filter(bs, (b: Booking) => b.status == Confirmed)) == Spent(bs)
    decreases |bs|
  {
    if bs != [] {
      TotalSpentIsSpent(bs[1..]);
      var rest := Filter(bs[1..], (b: Booking) => b.status == Confirmed);
      assert ([bs[0]] + rest)[1..] == rest;
    }
  }

  /** Replacing one booking changes the amount spent by the difference of
      the two contributions. */
  lemma {:induction false} SpentUpdate(bs: seq<Booking>, i: nat, b: Booking)
    requires i < |bs|
    ensures Spent(bs[i := b]) == Spent(bs) - Contribution(bs[i]) + Contribution(b)
    decreases |bs|
  {
    if i > 0 {
      SpentUpdate(bs[1..], i - 1, b);
      assert bs[i := b][1..] == bs[1..][i - 1 := b];
    }
  }

  /** Cancelling a confirmed booking, even when the API is unreachable,
      lowers the amount spent by exactly its price. */
  lemma CancelLowersSpent(s: BookingService.Store, id: string, reply: Reply<Booking>, written: bool)
    requires BookingService.HasId(s.bookings, id)
    requires s.bookings[BookingService.FindIndex(s.bookings, id)].status == Confirmed
    requires reply.Fail? ||
             reply == Ok(s.bookings[BookingService.FindIndex(s.bookings, id)].(status := Cancelled))
    ensures var after := BookingService.CancelBooking(s, id, reply, written).store.bookings;
            TotalSpent(after)
              == TotalSpent(s.bookings) - s.bookings[BookingService.FindIndex(s.bookings, id)].totalPrice
  {
    var i := BookingService.FindIndex(s.bookings, id);
    BookingService.CancelPathsAgree(s, id, written);
    var after := BookingService.CancelBooking(s, id, reply, written).store.bookings;
    assert after == s.bookings[i := s.bookings[i].(status := Cancelled)];
    SpentUpdate(s.bookings, i, s.bookings[i].(status := Cancelled));
  }
}
