/** `ToastService`: the list of visible notifications, newest first.

    The id the service generates (`toast_<millis>_<random>`) and the
    creation time are inputs; the auto-dismiss timer is not modelled. */
module ToastService {
  import Outcomes
  import opened Text
  import opened Seqs

  datatype ToastType = Success | Error | Warning | Info

  datatype Toast = Toast(
    id: string,
    kind: ToastType,
    message: string,
    title: Outcomes.Option<string>,
    duration: int,
    timestamp: int)

  const DefaultDuration: int := 3000
  const MaxToasts: nat := 5
  const IdPrefix: string := "toast_"
  const DefaultLoadingMessage: string := "Loading..."
  const DefaultBookingError: string := "An error occurred while processing your booking. Please try again."
  const BookingFailedTitle: string := "\U{274C} Booking Failed"
  const BookingConfirmedTitle: string := "\U{1F389} Booking Confirmed"

  /** The shape of every id the service generates. */
  predicate IsToastId(id: string) {
    StartsWith(id, IdPrefix)
  }

  predicate HasToast(toasts: seq<Toast>, id: string) {
    exists k :: 0 <= k < |toasts| && toasts[k].id == id
  }

  function Min(a: nat, b: nat): nat {
    if a <= b then a else b
  }

  /** `show`: the new toast goes first and only the `MaxToasts` newest are
      kept. Without an explicit duration every type, errors included, gets
      `DefaultDuration`; an explicit 0 is kept. */
  function Show(toasts: seq<Toast>, kind: ToastType, message: string,
                title: Outcomes.Option<string>, duration: Outcomes.Option<int>,
                id: string, now: int): (r: seq<Toast>)
    requires IsToastId(id)
    ensures |r| == Min(MaxToasts, |toasts| + 1)
    ensures r[0].id == id && IsToastId(r[0].id)
    ensures r[0].kind == kind && r[0].message == message && r[0].title == title
    ensures r[0].duration == (if duration.Some? then duration.value else DefaultDuration)
    ensures r[0].timestamp == now
    ensures r[1..] == toasts[..|r| - 1]
  {
    var toast := Toast(id, kind, message, title, duration.GetOr(DefaultDuration), now);
    var all := [toast] + toasts;
    all[..Min(MaxToasts, |all|)]
  }

  /** `remove(id)`: every toast with that id goes, the rest stay in order. */
  function Remove(toasts: seq<Toast>, id: string): (r: seq<Toast>)
    ensures IsSubsequence(r, toasts)
    ensures !HasToast(r, id)
    ensures forall t :: multiset(r)[t] == if t.id != id then multiset(toasts)[t] else 0
  {
    Filter(toasts, (t: Toast) => t.id != id)
  }

  /** `removeAll`. */
  function RemoveAll(toasts: seq<Toast>): (r: seq<Toast>)
    ensures r == []
  {
    []
  }

  datatype Shown = Shown(toasts: seq<Toast>, id: string)

  /** `showLoading`: an info toast that never auto-dismisses, put first with
      no cap applied; its id is returned. */
  function ShowLoading(toasts: seq<Toast>, message: Outcomes.Option<string>, id: string, now: int): (r: Shown)
    requires IsToastId(id)
    ensures |r.toasts| == |toasts| + 1 && r.toasts[1..] == toasts
    ensures r.id == id && r.toasts[0].id == r.id && IsToastId(r.id)
    ensures r.toasts[0].kind == Info && r.toasts[0].duration == 0
    ensures r.toasts[0].message == (if message.Some? then message.value else DefaultLoadingMessage)
    ensures r.toasts[0].title.None?
  {
    var toast := Toast(id, Info, message.GetOr(DefaultLoadingMessage), Outcomes.None, 0, now);
    Shown([toast] + toasts, toast.id)
  }

  /** `showBookingError`: an empty message is replaced by the default one. */
  function ShowBookingError(toasts: seq<Toast>, errorMessage: string, id: string, now: int): (r: seq<Toast>)
    requires IsToastId(id)
    ensures |r| >= 1 && r[0].kind == Error
    ensures r[0].message == (if errorMessage == "" then DefaultBookingError else errorMessage)
    ensures r[0].title == Outcomes.Some(BookingFailedTitle)
    ensures r[0].duration == DefaultDuration
    ensures r[0].id == id && r[0].timestamp == now
    ensures |r| == Min(MaxToasts, |toasts| + 1) && r[1..] == toasts[..|r| - 1]
  {
    var message := if errorMessage == "" then DefaultBookingError else errorMessage;
    Show(toasts, Error, message, Outcomes.Some(BookingFailedTitle), Outcomes.None, id, now)
  }

  lemma ContainsInfix(a: string, x: string, b: string)
    ensures Contains(a + x + b, x)
  {
    assert (a + x + b)[|a|..|a| + |x|] == x;
    assert OccursAt(a + x + b, x, |a|);
  }

  /** `showBookingSuccess`: a success toast naming the room and the guest. */
  function ShowBookingSuccess(toasts: seq<Toast>, roomName: string, guestName: string,
                              id: string, now: int): (r: seq<Toast>)
    requires IsToastId(id)
    ensures |r| >= 1 && r[0].kind == Success
    ensures Contains(r[0].message, roomName) && Contains(r[0].message, guestName)
    ensures r[0].title == Outcomes.Some(BookingConfirmedTitle)
    ensures r[0].duration == DefaultDuration
    ensures r[0].id == id && r[0].timestamp == now
    ensures |r| == Min(MaxToasts, |toasts| + 1) && r[1..] == toasts[..|r| - 1]
  {
    var prefix := "Room " + roomName + " has been successfully booked for ";
    var message := prefix + guestName + "!";
    ContainsInfix("Room ", roomName, " has been successfully booked for " + guestName + "!");
    assert "Room " + roomName + (" has been successfully booked for " + guestName + "!") == message;
    ContainsInfix(prefix, guestName, "!");
    Show(toasts, Success, message, Outcomes.Some(BookingConfirmedTitle), Outcomes.None, id, now)
  }

  /** One `showInfo(message, undefined, 0)` per message, oldest first. */
  function ShowInfos(toasts: seq<Toast>, messages: seq<string>, ids: seq<string>, now: int): seq<Toast>
    requires |ids| == |messages|
    requires forall k :: 0 <= k < |ids| ==> IsToastId(ids[k])
    decreases |messages|
  {
    if messages == [] then toasts
    else
      ShowInfos(Show(toasts, Info, messages[0], Outcomes.None, Outcomes.Some(0), ids[0], now),
                messages[1..], ids[1..], now)
  }

  /** However many toasts are shown, at most five stay and the newest comes
      first: the k-th toast is the k-th most recent message. */
  lemma {:induction false} NewestToastsKept(toasts: seq<Toast>, messages: seq<string>, ids: seq<string>, now: int)
    requires |ids| == |messages|
    requires forall k :: 0 <= k < |ids| ==> IsToastId(ids[k])
    ensures |ShowInfos(toasts, messages, ids, now)|
            == if messages == [] then |toasts| else Min(MaxToasts, |toasts| + |messages|)
    ensures var r := ShowInfos(toasts, messages, ids, now);
            forall k :: 0 <= k < |r| && k < |messages| ==> r[k].message == messages[|messages| - 1 - k]
    decreases |messages|
  {
    if messages != [] {
      var next := Show(toasts, Info, messages[0], Outcomes.None, Outcomes.Some(0), ids[0], now);
      NewestToastsKept(next, messages[1..], ids[1..], now);
      var r := ShowInfos(toasts, messages, ids, now);
      assert r == ShowInfos(next, messages[1..], ids[1..], now);
      forall k | 0 <= k < |r| && k < |messages|
        ensures r[k].message == messages[|messages| - 1 - k]
      {
        if k == |messages| - 1 {
          ShowInfosShifts(next, messages[1..], ids[1..], now, k);
        }
      }
    }
  }

  /** After n more shows, the toast that was at position j is at j + n, as
      long as it is still kept. */
  lemma {:induction false} ShowInfosShifts(toasts: seq<Toast>, messages: seq<string>, ids: seq<string>, now: int, k: nat)
    requires |ids| == |messages|
    requires forall i :: 0 <= i < |ids| ==> IsToastId(ids[i])
    requires |messages| <= k < |ShowInfos(toasts, messages, ids, now)|
    ensures k - |messages| < |toasts|
    ensures ShowInfos(toasts, messages, ids, now)[k] == toasts[k - |messages|]
    decreases |messages|
  {
    if messages != [] {
      var next := Show(toasts, Info, messages[0], Outcomes.None, Outcomes.Some(0), ids[0], now);
      ShowInfosShifts(next, messages[1..], ids[1..], now, k);
      assert next[k - |messages| + 1] == next[1..][k - |messages|];
    }
  }

  /** The "maximum toasts limit" test: ten info toasts leave five,
      "Message 9" first. */
  lemma TenToastsExample(messages: seq<string>, ids: seq<string>, now: int)
    requires |messages| == 10 && |ids| == 10
    requires forall k :: 0 <= k < 10 ==> IsToastId(ids[k])
    requires messages[9] == "Message 9"
    ensures |ShowInfos([], messages, ids, now)| == 5
    ensures ShowInfos([], messages, ids, now)[0].message == "Message 9"
  {
    NewestToastsKept([], messages, ids, now);
  }

  /** The cap is a property of `Show` only: `ShowLoading` can take the list
      past it. */
  lemma LoadingBypassesCap(toasts: seq<Toast>, id: string, now: int)
    requires |toasts| == MaxToasts && IsToastId(id)
    ensures |ShowLoading(toasts, Outcomes.None, id, now).toasts| == MaxToasts + 1
  {
  }

  /** Removing the id `ShowLoading` returned restores the list, when no
      other toast had that id. */
  lemma RemoveUndoesShowLoading(toasts: seq<Toast>, message: Outcomes.Option<string>, id: string, now: int)
    requires IsToastId(id) && !HasToast(toasts, id)
    ensures Remove(ShowLoading(toasts, message, id, now).toasts, id) == toasts
  {
    var shown := ShowLoading(toasts, message, id, now);
    assert shown.toasts == [shown.toasts[0]] + toasts;
    FilterAll(toasts, (t: Toast) => t.id != id);
  }

  /** Removing an id no toast carries changes nothing. */
  lemma RemoveAbsentIsNoOp(toasts: seq<Toast>, id: string)
    requires !HasToast(toasts, id)
    ensures Remove(toasts, id) == toasts
  {
    FilterAll(toasts, (t: Toast) => t.id != id);
  }
}
