# Hotel room booking engine: a Dafny model of the client core

This project models the client-side core of an Angular hotel booking app:

- **The booking store.** It holds the in-memory booking list and its `localStorage` copy. It creates, fetches and cancels bookings against a remote API. It falls back to locally generated `local_` records when the API is unreachable, and reconciles the API's list with the cache.
- **The toast queue.** Newest first, capped at five, with an uncapped loading toast.
- **The room catalogue.** Loading flag, availability update and queries.
- **The booking form.** Validators, messages, the nights-and-price preview and the submit latch.
- **The booking-history page.** Filter, sort, empty message and statistics.
- **The room-list page.** Filter, statistics, type list and the booking modal.
- **The toast view.** Titles and the "time ago" label.

Everything is a pure function over immutable records. The services' `BehaviorSubject`s become explicit state records (`Store`, `RoomStore`, the toast `seq`, `Page`, `View`, `Modal`) that are threaded through the operations. How values are represented:

- **Remote calls.** Each remote call is an input `Reply` (`Ok(value)` or `Fail`).
- **Local storage.** A write to `localStorage` takes a flag saying whether it went through. A read that finds nothing or cannot parse yields the empty list.
- **Inputs.** Generated ids, the current time and today's date are inputs. Local booking ids must start with `local_` and toast ids with `toast_`.
- **Dates.** Calendar dates (`YYYY-MM-DD`, parsed as UTC midnight) are day numbers. Timestamps are milliseconds. Prices are integers.

Modules, one per source file:

| module | file |
|---|---|
| `Outcomes`, `Models` | result types; the `Booking`, `Room` and `BookingFormData` records |
| `Seqs`, `Text` | `filter` and `new Set` de-duplication; the JavaScript string operations used (`trim`, `toLowerCase`, `includes`, `startsWith`, `\s`, UTF-16 length, decimal rendering) |
| `BookingService` | `src/app/services/booking.service.ts` |
| `ToastService` | `src/app/services/toast.service.ts` |
| `ToastView` | `src/app/components/toast/toast.component.ts` |
| `RoomService` | `src/app/services/room.service.ts` |
| `BookingForm` | `src/app/components/book-room-modal/book-room-modal.component.ts` |
| `BookingHistory` | `src/app/pages/booking-history/booking-history.component.ts` |
| `RoomList` | `src/app/pages/room-list/room-list.component.ts` |

Where the code, the design notes and the tests disagree, the model follows the code:

- **What `getBookings` emits.** On success, `getBookings` emits the API list as received. `tap` does not change the emitted value. Only the state and the cache become the merged list (`booking.service.ts:98-104`), even though the design describes the merged list as returned.
- **Error-toast duration.** An error toast without an explicit duration gets the default 3000 ms like every other type (`toast.service.ts:118`). The tests expect 0 (`toast.service.spec.ts:60`, `:166`).
- **The PUT body.** `updateRoomAvailability` sends the whole room with the new availability (`room.service.ts:77-79`). A test expects only `{ isAvailable: false }` (`room.service.spec.ts:131`).
- **The loading toast and the cap.** `showLoading` does not apply the five-toast cap (`toast.service.ts:208`), so the cap is a property of `show` alone (`ToastService.LoadingBypassesCap`).
- **A dead error branch.** The error branch of the booking submit on the room-list page (`room-list.component.ts:230-233`) cannot run. `createBooking` recovers from every API failure by storing a local booking.
- **Date validators.** `dateRangeValidator` compares the two date strings. For `YYYY-MM-DD` strings, string order is date order, so the model compares day numbers.

## Model

| member | source | states |
|---|---|---|
| `BookingService.FindIndex` | src/app/services/booking.service.ts:265 | the first position carrying the id, or -1 exactly when no record carries it |
| `BookingService.NumberOfNights` | src/app/services/booking.service.ts:173-179 | the rounded-up millisecond difference of two UTC midnights divided by a day is exactly the number of days between the dates, in either order |
| `BookingService.TotalPrice` | src/app/services/booking.service.ts:187-189 | the price is zero for no nights, and each further night adds one nightly price |
| `BookingService.IsValidDateRange` | src/app/services/booking.service.ts:197-204 | valid exactly when the check-in is today or later and the check-out lies a positive number of nights after it |
| `BookingService.NewBooking` | src/app/services/booking.service.ts:52-70 | the draft `createBooking` builds copies the room's id, name and type, the guest and the dates, and carries nights = the day distance, price = price per night × nights, the creation time and status confirmed |
| `BookingService.NightsExamples` | src/app/services/booking.service.spec.ts:127-154 | 10 to 13 is 3 nights and 300 at 100 a night; the same day is 0 nights |
| `BookingService.UpdateBooking` | src/app/services/booking.service.ts:263-272 | an unknown id changes neither list nor cache; otherwise only the first record with that id is replaced, the length is kept, and the cache follows when the write succeeds |
| `BookingService.MergeInto` | src/app/services/booking.service.ts:290-297 | the list built so far stays as a prefix; what follows is a subsequence of the pending records, each with a `local_` id that nothing before it carries |
| `BookingService.MergeBookings` | src/app/services/booking.service.ts:282-303 | the API list comes first, unchanged and in order; then cached records in cache order, each local and not already present |
| `BookingService.MergeMatchesSurvivors` | src/app/services/booking.service.ts:286-297 | the merge equals the API list followed by an independent reference: the cached records that have a local id, are unknown to the API and are seen for the first time |
| `BookingService.MergeIdempotent` | src/app/services/booking.service.ts:282-303 | merging the same API list into an already merged list changes nothing |
| `BookingService.MergeKeepsIdsUnique` | src/app/services/booking.service.ts:290-297 | when the API's ids are unique, so are the merged ids: a repeated local id is kept once |
| `BookingService.MergeExamples` | src/app/services/booking.service.ts:290-297 | the server's record wins over a cached copy with the same id, a cached server-id record missing from the API is dropped, and an unsynced local record survives |
| `BookingService.CreateBooking` | src/app/services/booking.service.ts:52-91 | the resulting booking is appended to the list and, when the write succeeds, to the cache; on success it is the API's record; on failure it carries the local id and the room's fields, the guest and dates, nights, price = price per night × nights, the creation time and status confirmed |
| `BookingService.EchoedCreateDescribes` | src/app/services/booking.service.ts:52-77 | when the API answers with the posted draft under its own id, the appended booking is that draft under the API's id |
| `BookingService.AddBooking` | src/app/services/booking.service.ts:252-257 | the booking is appended after every existing record, its id is then present, and the cache follows the list when the write succeeds |
| `BookingService.GetBookings` | src/app/services/booking.service.ts:97-113 | on success the list (and cache, when written) become the merge of the API list with the cache and the API list is emitted; on failure the list becomes the cache and the cache is emitted |
| `BookingService.CancelBooking` | src/app/services/booking.service.ts:140-165 | an absent id fails with "Booking not found" and changes nothing; otherwise the API's answer replaces the first record carrying its id, or on API failure only the matched record becomes cancelled, with every other record and the length unchanged |
| `BookingService.CancelPathsAgree` | src/app/services/booking.service.ts:147-163 | when the API echoes the cancelled record, the success and failure paths leave the same store and emit the same booking |
| `BookingService.BookingsByRoomId` | src/app/services/booking.service.ts:120-122 | exactly the bookings of that room, in order, with their multiplicities |
| `BookingService.BookingsByGuestName` | src/app/services/booking.service.ts:129-133 | exactly the bookings whose lower-cased guest name contains the lower-cased query, in order |
| `BookingService.ClearAllBookings` | src/app/services/booking.service.ts:324-329 | the list is empty and a later read of the removed storage key finds nothing |
| `BookingService.WritesKeepCacheInSync` | src/app/services/booking.service.ts:252-272 | when every write succeeds, create, fetch and cancel keep the list equal to the cache, and a failed fetch re-synchronises them in any case |
| `BookingService.RepeatedFetchIsStable` | src/app/services/booking.service.ts:97-104 | a second successful fetch of the same API list leaves the store unchanged: repeated fetches never accumulate duplicates |
| `BookingService.CreateKeepsIdsUnique` | src/app/services/booking.service.ts:74-89 | appending a booking with a fresh id keeps ids unique |
| `BookingService.CancelKeepsIdsUnique` | src/app/services/booking.service.ts:147-163 | cancelling never changes an id, so unique ids stay unique |
| `ToastService.Show` | src/app/services/toast.service.ts:107-127 | the new toast is first with the given fields; without an explicit duration it gets 3000 ms whatever its type; the rest are the previous toasts in order, cut to five in all |
| `ToastService.NewestToastsKept` | src/app/services/toast.service.ts:122-127 | after one or more info toasts are shown in turn, the list holds the smaller of five and the old length plus the number shown, and the k-th toast carries the k-th most recent message |
| `ToastService.TenToastsExample` | src/app/services/toast.service.spec.ts:121-140 | ten info toasts leave five, with "Message 9" first |
| `ToastService.Remove` | src/app/services/toast.service.ts:141-145 | the toasts with that id are gone and the rest keep their order and multiplicity |
| `ToastService.RemoveAbsentIsNoOp` | src/app/services/toast.service.ts:141-145 | removing an id that no toast carries changes nothing |
| `ToastService.RemoveAll` | src/app/services/toast.service.ts:150-152 | the list is empty |
| `ToastService.ShowLoading` | src/app/services/toast.service.ts:198-211 | an info toast with duration 0 and the default message "Loading..." is put first with no cap; its id is returned and carries the `toast_` prefix |
| `ToastService.LoadingBypassesCap` | src/app/services/toast.service.ts:208 | a loading toast on a full list makes six |
| `ToastService.RemoveUndoesShowLoading` | src/app/services/toast.service.ts:198-211 | removing the returned id restores the list when no other toast had that id |
| `ToastService.ShowBookingError` | src/app/services/toast.service.ts:186-191 | an empty message becomes the default booking-error text and a non-empty one is kept verbatim, titled "❌ Booking Failed", with duration 3000 and the given id; as with every `show`, the older toasts follow in order and at most five remain |
| `ToastService.ShowBookingSuccess` | src/app/services/toast.service.ts:175-180 | a success toast titled "🎉 Booking Confirmed" with duration 3000 and the given id, whose message contains the room name and the guest name; the older toasts follow in order and at most five remain |
| `ToastView.DefaultTitle` | src/app/components/toast/toast.component.ts:77-86 | every toast type has a non-empty default title |
| `ToastView.DefaultTitleInjective` | src/app/components/toast/toast.component.ts:78-83 | no two types share a default title |
| `ToastView.ToastTitle` | src/app/components/toast/toast.component.ts:93-95 | a non-empty title is shown as is; a missing or empty one falls back to the type's default; the result is never empty |
| `ToastView.Age` | src/app/components/toast/toast.component.ts:102-116 | "just now" exactly when less than 10 s have passed, a negative elapsed time included; seconds for 10 s up to 1 min; minutes (1 to 59) up to 1 h; hours beyond, each count being the elapsed time rounded down to its unit |
| `ToastView.TimeAgo` | src/app/components/toast/toast.component.ts:102-106 | the label reads "just now" exactly when less than 10 s have passed, and otherwise is the rendering of the age bucket and floored count |
| `ToastView.RenderRoundTrip` | src/app/components/toast/toast.component.ts:107-115 | every label reads back as the bucket and count it was rendered from |
| `ToastView.TimeAgoDeterminesAge` | src/app/components/toast/toast.component.ts:102-116 | two equal labels come from the same bucket with the same count |
| `RoomService.GetRooms` | src/app/services/room.service.ts:36-49 | loading is raised when the request starts and lowered on both outcomes; only a success replaces the rooms |
| `RoomService.UpdateRoomAvailability` | src/app/services/room.service.ts:68-92 | an unknown id fails with "Room not found" before any request and changes nothing; otherwise the whole room with the new availability is sent; on success only the matching room is overwritten by the API's fields and the length is kept; on failure nothing changes |
| `RoomService.Spread` | src/app/services/room.service.ts:86 | the API's fields win, and an optional field the API omitted keeps its current value |
| `RoomService.EchoedUpdateSetsAvailability` | src/app/services/room.service.spec.ts:135-149 | when the API answers with the room it was sent, the only change is that room's availability |
| `RoomService.FilterRoomsByType` | src/app/services/room.service.ts:99-108 | "All" returns every room; any other type returns exactly the rooms of that type, in order |
| `RoomService.AvailableRooms` | src/app/services/room.service.ts:114-118 | exactly the available rooms, in order |
| `RoomService.RoomsByPriceRange` | src/app/services/room.service.ts:126-130 | exactly the rooms priced between the two bounds, both inclusive, in order |
| `RoomService.UniqueRoomTypes` | src/app/services/room.service.ts:144-148 | "All" followed by each room type once, in order of first appearance |
| `RoomService.FourRoomsThreeTypes` | src/app/services/room.service.ts:144-148 | a repeated type is listed once, at its first appearance: rooms typed x, y, z, x list "All", x, y, z |
| `RoomService.ListedTypesAreInhabited` | src/app/services/room.service.ts:99-148 | filtering by any listed type other than "All" selects at least one room |
| `RoomService.UniqueTypesExample` | src/app/services/room.service.spec.ts:193-204 | three distinct types among four rooms list four entries, "All" first |
| `BookingForm.NameErrors` | src/app/components/book-room-modal/book-room-modal.component.ts:64-69 | required fails exactly on the empty name; minlength and pattern skip it; lengths are UTF-16 code units; pattern fails exactly when some character is outside letters, white space, apostrophe and hyphen |
| `BookingForm.GuestNameValidIff` | src/app/components/book-room-modal/book-room-modal.component.ts:64-69 | a guest name is valid exactly when it has 3 to 50 characters, all letters, white space, apostrophes or hyphens |
| `BookingForm.DateErrors` | src/app/components/book-room-modal/book-room-modal.component.ts:70-71 | a date control is valid exactly when a date is set |
| `BookingForm.DateRangeError` | src/app/components/book-room-modal/book-room-modal.component.ts:93-102 | a missing date is never a range error; with both dates set, there is no error exactly when the check-out lies a positive number of nights after the check-in |
| `BookingForm.PastDateError` | src/app/components/book-room-modal/book-room-modal.component.ts:107-121 | only a set check-in can be in the past, and it is exactly when the booking service would reject a one-night stay starting that day |
| `BookingForm.ValidDatesMatchService` | src/app/components/book-room-modal/book-room-modal.component.ts:93-121 | with both dates set, neither the dateRange nor the pastDate error holds exactly when the booking service's `isValidDateRange` holds: check-in not before today and check-out after check-in |
| `BookingForm.ErrorMessage` | src/app/components/book-room-modal/book-room-modal.component.ts:215-237 | the message is empty exactly when the control is valid; otherwise required, then minlength (naming 3), then maxlength (naming 50), then pattern |
| `BookingForm.ShortNameMessage` | src/app/components/book-room-modal/book-room-modal.component.ts:222-225 | a two-letter name gets the minimum-length message, which names 3: "Guest name must be at least 3 characters" |
| `BookingForm.DigitNameMessage` | src/app/components/book-room-modal/book-room-modal.component.ts:232-234 | a digit in the name reads "Guest name contains invalid characters" |
| `BookingForm.PunctuatedNameIsValid` | src/app/components/book-room-modal/book-room-modal.component.ts:68 | apostrophes and hyphens are accepted |
| `BookingForm.FormErrorMessage` | src/app/components/book-room-modal/book-room-modal.component.ts:242-252 | empty exactly when neither form error holds; a bad range gives the range message, and a past check-in with a good range gives the past-date message |
| `BookingForm.CalculatePreview` | src/app/components/book-room-modal/book-room-modal.component.ts:126-142 | with both dates set and check-out later, nights is the day difference; otherwise 0; the price is always nights × the room's price |
| `BookingForm.PreviewMatchesBooking` | src/app/components/book-room-modal/book-room-modal.component.ts:126-157 | for a valid form, the preview shows the nights and price the booking service records for the submitted data |
| `BookingForm.Edit` | src/app/components/book-room-modal/book-room-modal.component.ts:77-79 | every value change recomputes the preview from the new values |
| `BookingForm.OnSubmit` | src/app/components/book-room-modal/book-room-modal.component.ts:147-167 | data is emitted exactly when the form is valid and no submit is in progress, with the guest name trimmed, and the submit latch is set; otherwise the controls only become touched |
| `BookingForm.SubmitIsLatched` | src/app/components/book-room-modal/book-room-modal.component.ts:148-149 | a second submit while the first is latched emits nothing |
| `BookingForm.BlankNameIsAccepted` | src/app/components/book-room-modal/book-room-modal.component.ts:64-69 | a name of three spaces passes every validator and is submitted as the empty string |
| `BookingForm.Reset` | src/app/components/book-room-modal/book-room-modal.component.ts:190-195 | the controls are emptied and untouched, nights and price are 0, and the latch is released |
| `BookingForm.ResetFormIsInvalid` | src/app/components/book-room-modal/book-room-modal.component.ts:64-71 | a reset form cannot be submitted and reports "Guest name is required" |
| `BookingHistory.SortBookings` | src/app/pages/booking-history/booking-history.component.ts:124-135 | the sorted list is a permutation of its input, ordered by the comparator's key |
| `BookingHistory.FilterAndSort` | src/app/pages/booking-history/booking-history.component.ts:104-138 | exactly the bookings with the selected status (unless "all") that match the trimmed, lower-cased query in guest name, room name, room type or id, each with its multiplicity; non-decreasing by the field when ascending and non-increasing when descending |
| `BookingHistory.OnBookingsChanged` | src/app/pages/booking-history/booking-history.component.ts:92-99 | a new list is taken and re-filtered under the current settings |
| `BookingHistory.OnLoaded` | src/app/pages/booking-history/booking-history.component.ts:75-84 | loading ends on both outcomes of the fetch |
| `BookingHistory.OnStatusChange` | src/app/pages/booking-history/booking-history.component.ts:143-146 | the listing becomes the bookings listed under the new status, sorted by the current field and direction |
| `BookingHistory.OnSearchChange` | src/app/pages/booking-history/booking-history.component.ts:151-154 | the listing becomes the bookings listed under the new query, sorted by the current field and direction |
| `BookingHistory.OnSortChange` | src/app/pages/booking-history/booking-history.component.ts:159-168 | the current field flips the direction; another field becomes current and starts descending; the listing is rebuilt under the new order |
| `BookingHistory.SortToggleTwice` | src/app/pages/booking-history/booking-history.component.ts:160-162 | two clicks on the current field restore the direction |
| `BookingHistory.ClearSearch` | src/app/pages/booking-history/booking-history.component.ts:217-220 | the query is emptied, the status kept, and the listing rebuilt under the current status and order |
| `BookingHistory.ClearAllFilters` | src/app/pages/booking-history/booking-history.component.ts:225-229 | status "all" and an empty query |
| `BookingHistory.BlankQueryIff` | src/app/pages/booking-history/booking-history.component.ts:113-114 | the lower-cased trimmed query is blank exactly when the trimmed query is |
| `BookingHistory.HasActiveFilters` | src/app/pages/booking-history/booking-history.component.ts:234-236 | no filter is active exactly when the status is "all" and the query is only white space |
| `Text.TrimIsInfix` | src/app/pages/booking-history/booking-history.component.ts:235 | `trim()` removes only white space: the result is an infix of the input with nothing but white space on either side |
| `BookingHistory.InactiveFiltersListEverything` | src/app/pages/booking-history/booking-history.component.ts:105-114 | with no active filter the listing is a permutation of all bookings |
| `BookingHistory.ClearAllFiltersDeactivates` | src/app/pages/booking-history/booking-history.component.ts:225-236 | after clearing, no filter is active and every booking is listed |
| `BookingHistory.EmptyMessage` | src/app/pages/booking-history/booking-history.component.ts:274-292 | loading first, then no bookings, then `No bookings found matching "<query>".` for any non-empty query, then `No <status> bookings found.`; the plain message exactly when none of these applies |
| `BookingHistory.EmptyMessagesDistinct` | src/app/pages/booking-history/booking-history.component.ts:274-292 | for every query and status, the search and status messages differ from each other and from the loading, no-bookings and plain messages |
| `BookingHistory.BlankQueryStillReportsSearch` | src/app/pages/booking-history/booking-history.component.ts:283-284 | a query of spaces filters nothing yet the empty message still reports a failed search |
| `BookingHistory.CountWithStatus` | src/app/pages/booking-history/booking-history.component.ts:301-307 | the filtered length equals the one-by-one count of bookings with that status |
| `BookingHistory.TotalBookings` | src/app/pages/booking-history/booking-history.component.ts:297-299 | the total is the sum of the confirmed, pending and cancelled counts |
| `BookingHistory.ConfirmedAndCancelledBounded` | src/app/pages/booking-history/booking-history.component.ts:297-307 | confirmed plus cancelled never exceeds the total |
| `BookingHistory.TotalSpent` | src/app/pages/booking-history/booking-history.component.ts:309-313 | the sum of the prices of the confirmed bookings only |
| `BookingHistory.CancelLowersSpent` | src/app/pages/booking-history/booking-history.component.ts:309-313 | cancelling a confirmed booking, when the API fails or echoes the cancelled record, lowers the amount spent by exactly its price |
| `RoomList.ApplyFilters` | src/app/pages/room-list/room-list.component.ts:141-160 | an order-preserving subsequence holding exactly the rooms of the selected type (unless "All") that match the trimmed, lower-cased query on name, type or the optional description |
| `RoomList.UpdateStatistics` | src/app/pages/room-list/room-list.component.ts:124-128 | the total is the number of rooms, the available count is the available rooms, and available plus booked equals the total |
| `RoomList.UpdateRoomTypes` | src/app/pages/room-list/room-list.component.ts:133-136 | "All" then each type once in order of first appearance, the same list as the room service's |
| `RoomList.OnRoomsChanged` | src/app/pages/room-list/room-list.component.ts:99-108 | a new room list brings new statistics, type list and listing |
| `RoomList.OnLoadingChanged` | src/app/pages/room-list/room-list.component.ts:113-119 | the page mirrors the service's loading flag |
| `RoomList.OnRoomTypeChange` | src/app/pages/room-list/room-list.component.ts:165-168 | the listing becomes the rooms listed under the new type and the current query, in catalogue order |
| `RoomList.OnSearchChange` | src/app/pages/room-list/room-list.component.ts:173-176 | the listing becomes the rooms listed under the current type and the new query, in catalogue order |
| `RoomList.ClearSearch` | src/app/pages/room-list/room-list.component.ts:242-245 | the query is emptied, the type kept, and the listing rebuilt under the type alone |
| `RoomList.ClearAllFilters` | src/app/pages/room-list/room-list.component.ts:250-254 | type "All", an empty query, and every room listed in order |
| `RoomList.HasActiveFilters` | src/app/pages/room-list/room-list.component.ts:282-284 | no filter is active exactly when the type is "All" and the query is only white space |
| `RoomList.ClearAllFiltersDeactivates` | src/app/pages/room-list/room-list.component.ts:282-284 | after clearing, no filter is active |
| `RoomList.EmptyMessage` | src/app/pages/room-list/room-list.component.ts:259-277 | loading first, then an empty catalogue, then `No rooms found matching "<query>". Try a different search.` for any non-empty query, then `No <type> rooms available. Try selecting a different room type.`; the plain message exactly when none of these applies |
| `RoomList.EmptyMessagesDistinct` | src/app/pages/room-list/room-list.component.ts:259-277 | for every query and type, the search and type messages differ from each other and from the loading, empty-catalogue and plain messages |
| `RoomList.OnBookRoom` | src/app/pages/room-list/room-list.component.ts:181-189 | an unavailable room leaves the page unchanged; an available one is selected and the modal shown |
| `RoomList.OnModalClose` | src/app/pages/room-list/room-list.component.ts:194-197 | the modal is hidden and the selection cleared |
| `RoomList.OpenThenCloseRestores` | src/app/pages/room-list/room-list.component.ts:181-197 | opening the modal and closing it returns a closed page to where it was |
| `RoomList.OnBookingSubmit` | src/app/pages/room-list/room-list.component.ts:202-237 | without a selected room nothing changes; with one, a booking is always appended, the room is marked unavailable through the room service, and the modal closes whatever the update's outcome |
| `RoomList.NoRoomNoBooking` | src/app/pages/room-list/room-list.component.ts:205-208 | a submit with no selected room creates no booking |
| `RoomList.BookingMovesRoomToBooked` | src/app/pages/room-list/room-list.component.ts:211-218 | booking an available room that the API marks unavailable moves one room from the available count to the booked count |

## Left out

- HTTP, RxJS plumbing and `console` logging are not modelled. Every remote call is an input `Reply`. The error text built by `handleError` ("Server Error: …", "Network Error: …") is collapsed to `Remote`.
- `localStorage` and JSON are not modelled. A failed or absent read is the empty list, and a write that throws is a `written = false` flag. The non-browser platform check is not modelled.
- `Date.now()` and `Math.random()` are not modelled. Ids and the current time are inputs, so the probabilistic uniqueness of generated ids is not stated.
- Timers are not modelled: the toast auto-dismiss `setTimeout` and the one-second reset of the modal's submit latch.
- Time zones are not modelled. `isValidDateRange` and `minDateValidator` take today's day number as an input.
- Invalid date strings (which give `NaN` in JavaScript) are not modelled.
- Interleavings of in-flight requests are not modelled. Each operation runs to completion on the state it started from.
- `window.confirm`, the page-level cancel flow in the booking-history page, and the toasts the pages raise as side effects are not modelled.
- Presentation is not modelled: `formatDate`, the CSS and icon getters, `trackBy` functions, `getAllRoomTypes`, and the room-card, spinner, routing and constant files.
- `getRoomById` is not modelled: it is a single remote GET that leaves the state alone. `getCurrentBookings`, `getCurrentRooms` and `getCurrentToasts` are not modelled separately: each only reads the state.
- `refreshBookings` and `refreshRooms` are not modelled separately. Each is the page's load (the fetch, then `BookingHistory.OnLoaded` or `RoomList.OnLoadingChanged`) followed by an info toast.
- `hasError` and `hasFormError` are not modelled. They only gate the display of an error on the controls being touched.
- `BookingHistory.SortBookings`: stability is not stated. The insertion sort keeps ties in input order, as `Array.prototype.sort` does, but the contract states only order and permutation.
- `BookingHistory.FilterAndSort`: `toLowerCase` is modelled for ASCII letters only (`Text.Lower`). Other characters are left as they are. Stability of the sort is not stated either, as for `BookingHistory.SortBookings`.
- `RoomList.ApplyFilters`: `toLowerCase` is modelled for ASCII letters only. Other characters are left as they are.
- `BookingService.BookingsByGuestName`: `toLowerCase` is modelled for ASCII letters only. Other characters are left as they are.
- `BookingForm.Reset`: a control cleared by `reset` holds null. Every validator treats null like the empty string, so the model uses the empty string.
