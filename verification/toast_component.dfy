/** `ToastComponent`: how one toast is labelled on screen, its title and
    its relative age. The current time is an input. */
module ToastView {
  import Outcomes
  import opened Text
  import opened ToastService

  /** `getDefaultTitle`: one fixed title per toast type. */
  function DefaultTitle(kind: ToastType): (r: string)
    ensures r != []
  {
    match kind
    case Success => "Success"
    case Error => "Error"
    case Warning => "Warning"
    case Info => "Info"
  }

  /** No two types share a default title, so the title alone tells the type
      of an untitled toast. */
  lemma DefaultTitleInjective(a: ToastType, b: ToastType)
    requires DefaultTitle(a) == DefaultTitle(b)
    ensures a == b
  {
  }

  /** `getToastTitle`: `toast.title || default`, so a missing or empty
      title falls back to the type's default; the result is never empty. */
  function ToastTitle(t: Toast): (r: string)
    ensures r != []
    ensures t.title.Some? && t.title.value != [] ==> r == t.title.value
    ensures t.title.None? || t.title.value == [] ==> r == DefaultTitle(t.kind)
  {
    if t.title.Some? && t.title.value != [] then t.title.value else DefaultTitle(t.kind)
  }

  /** The four shapes `getTimeAgo` can produce. */
  datatype Ago = JustNow | SecondsAgo(seconds: nat) | MinutesAgo(minutes: nat) | HoursAgo(hours: nat)

  const MsPerSecond: int := 1000
  const MsPerMinute: int := 60_000
  const MsPerHour: int := 3_600_000

  /** The bucket of an elapsed time in milliseconds. The source computes
      `Math.floor(elapsed / 1000)` seconds and compares that against 10, 60
      and 3600; the contract states each bucket directly on the elapsed
      milliseconds. A negative elapsed time (a timestamp in the future) is
      "just now". */
  function Age(elapsed: int): (a: Ago)
    ensures a.JustNow? <==> elapsed < 10 * MsPerSecond
    ensures a.SecondsAgo? <==> 10 * MsPerSecond <= elapsed < MsPerMinute
    ensures a.MinutesAgo? <==> MsPerMinute <= elapsed < MsPerHour
    ensures a.HoursAgo? <==> MsPerHour <= elapsed
    ensures a.SecondsAgo? ==> 10 <= a.seconds < 60
                              && a.seconds * MsPerSecond <= elapsed < (a.seconds + 1) * MsPerSecond
    ensures a.MinutesAgo? ==> 1 <= a.minutes < 60
                              && a.minutes * MsPerMinute <= elapsed < (a.minutes + 1) * MsPerMinute
    ensures a.HoursAgo? ==> 1 <= a.hours
                            && a.hours * MsPerHour <= elapsed < (a.hours + 1) * MsPerHour
  {
    // Dafny's division by a positive constant rounds down, like Math.floor.
    var seconds := elapsed / 1000;
    if seconds < 10 then JustNow
    else if seconds < 60 then SecondsAgo(seconds)
    else if seconds < 3600 then MinutesAgo(seconds / 60)
    else HoursAgo(seconds / 3600)
  }

  /** The text shown for a bucket. */
  function Render(a: Ago): string {
    match a
    case JustNow => "just now"
    case SecondsAgo(s) => Decimal(s) + "s ago"
    case MinutesAgo(m) => Decimal(m) + "m ago"
    case HoursAgo(h) => Decimal(h) + "h ago"
  }

  /** `getTimeAgo(timestamp)` read at time `now`. */
  function TimeAgo(now: int, timestamp: int): (r: string)
    ensures r == "just now" <==> now - timestamp < 10 * MsPerSecond
    ensures r == Render(Age(now - timestamp))
  {
    var a := Age(now - timestamp);
    RenderRoundTrip(a);
    if a.JustNow? then Render(a)
    else
      assert ParseAgo(Render(a)) != ParseAgo("just now");
      Render(a)
  }

  predicate AllDigits(s: string) {
    forall i :: 0 <= i < |s| ==> IsDigit(s[i])
  }

  /** The bucket a unit letter names. */
  function Tagged(unit: char, n: nat): Outcomes.Option<Ago> {
    match unit
    case 's' => Outcomes.Some(SecondsAgo(n))
    case 'm' => Outcomes.Some(MinutesAgo(n))
    case 'h' => Outcomes.Some(HoursAgo(n))
    case _ => Outcomes.None
  }

  /** Reads a rendered age back; `None` for any other text. */
  function ParseAgo(s: string): Outcomes.Option<Ago> {
    if s == "just now" then Outcomes.Some(JustNow)
    else if |s| < 6 || s[|s| - 4..] != " ago" || !AllDigits(s[..|s| - 5]) then Outcomes.None
    else Tagged(s[|s| - 5], DecimalValue(s[..|s| - 5]))
  }

  /** Rendering loses nothing: the text determines the bucket and its
      number. */
  lemma RenderRoundTrip(a: Ago)
    ensures ParseAgo(Render(a)) == Outcomes.Some(a)
  {
    match a
    case JustNow =>
    case SecondsAgo(n) =>
      assert Render(a) == Decimal(n) + ['s'] + " ago";
      DigitsThenSuffix(n, 's');
    case MinutesAgo(n) =>
      assert Render(a) == Decimal(n) + ['m'] + " ago";
      DigitsThenSuffix(n, 'm');
    case HoursAgo(n) =>
      assert Render(a) == Decimal(n) + ['h'] + " ago";
      DigitsThenSuffix(n, 'h');
  }

  lemma DigitsThenSuffix(n: nat, unit: char)
    ensures ParseAgo(Decimal(n) + [unit] + " ago") == Tagged(unit, n)
  {
    var s := Decimal(n) + [unit] + " ago";
    assert s[..|s| - 5] == Decimal(n);
    assert s[|s| - 5] == unit;
    assert s[|s| - 4..] == " ago";
    assert IsDigit(s[0]);
    assert s != "just now" by { assert s[0] != "just now"[0]; }
    DecimalRoundTrip(n);
  }

  /** Two equal labels come from the same bucket. */
  lemma TimeAgoDeterminesAge(now: int, t: int, now': int, t': int)
    requires TimeAgo(now, t) == TimeAgo(now', t')
    ensures Age(now - t) == Age(now' - t')
  {
    RenderRoundTrip(Age(now - t));
    RenderRoundTrip(Age(now' - t'));
  }

  /** A few readings of the clock. */
  lemma TimeAgoExamples()
    ensures TimeAgo(5_000, 0) == "just now"
    ensures TimeAgo(0, 5_000) == "just now"
    ensures Age(45_999) == SecondsAgo(45)
    ensures Age(150_000) == MinutesAgo(2)
    ensures Age(7_200_000) == HoursAgo(2)
  {
  }
}
