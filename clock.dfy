/** The date helpers of lib/utils/index.ts that are integer arithmetic on
    millisecond differences: `daysUntil`, `daysAgo` and the bucketing of
    `formatRelativeTime`. The current time is an explicit parameter. */
module Clock {

  const MinuteMs: int := 60_000
  const HourMs: int := 3_600_000
  const DayMs: int := 86_400_000

  /** `daysUntil(target)`: `Math.ceil((target - now) / day)`. */
  function DaysUntil(target: int, now: int): (d: int)
    ensures (d - 1) * DayMs < target - now <= d * DayMs
  {
    (target - now + DayMs - 1) / DayMs
  }

  /** `daysAgo(t)`: `Math.floor((now - t) / day)`. */
  function DaysAgo(t: int, now: int): (d: int)
    ensures d * DayMs <= now - t < (d + 1) * DayMs
  {
    (now - t) / DayMs
  }

  /** Ceiling of the remaining time is minus the floor of the elapsed time. */
  lemma DaysUntilIsMinusDaysAgo(t: int, now: int)
    ensures DaysUntil(t, now) == -DaysAgo(t, now)
  {
  }

  /** Two and a half days ahead reads as 3; less than a day in the past as 0. */
  lemma DaysUntilExamples(now: int)
    ensures DaysUntil(now + 5 * DayMs / 2, now) == 3
    ensures forall t :: now - DayMs < t <= now ==> DaysUntil(t, now) == 0
  {
  }

  /** The branch of `formatRelativeTime` that fires for an elapsed time. */
  datatype Bucket = JustNow | Minutes(n: nat) | Hours(n: nat) | Days(n: nat) | Older

  /** The if-chain of `formatRelativeTime` on the floored minute, hour and day
      counts: exactly one bucket applies, and the count it carries is the
      floored quotient for that unit. */
  function Bucketize(diffMs: int): (b: Bucket)
    ensures b.JustNow? <==> diffMs < MinuteMs
    ensures b.Minutes? <==> MinuteMs <= diffMs < HourMs
    ensures b.Hours? <==> HourMs <= diffMs < DayMs
    ensures b.Days? <==> DayMs <= diffMs < 7 * DayMs
    ensures b.Older? <==> 7 * DayMs <= diffMs
    ensures b.Minutes? ==> 1 <= b.n < 60 && b.n * MinuteMs <= diffMs < (b.n + 1) * MinuteMs
    ensures b.Hours? ==> 1 <= b.n < 24 && b.n * HourMs <= diffMs < (b.n + 1) * HourMs
    ensures b.Days? ==> 1 <= b.n < 7 && b.n * DayMs <= diffMs < (b.n + 1) * DayMs
  {
    var mins := diffMs / MinuteMs;
    var hours := diffMs / HourMs;
    var days := diffMs / DayMs;
    if mins < 1 then JustNow
    else if mins < 60 then Minutes(mins)
    else if hours < 24 then Hours(hours)
    else if days < 7 then Days(days)
    else Older
  }

  /** The text of a decimal digit. */
  function DigitChar(d: nat): (c: char)
    requires d < 10
    ensures '0' <= c <= '9' && c as int - '0' as int == d
  {
    "0123456789"[d]
  }

  /** `${n}` for a non-negative integer. */
  function NatToDecimal(n: nat): (s: string)
    ensures |s| >= 1
    ensures forall i :: 0 <= i < |s| ==> '0' <= s[i] <= '9'
    ensures |s| > 1 ==> s[0] != '0'
    decreases n
  {
    if n < 10 then [DigitChar(n)] else NatToDecimal(n / 10) + [DigitChar(n % 10)]
  }

  /** The value of a string of decimal digits. */
  function DecimalValue(s: string): nat
    requires forall i :: 0 <= i < |s| ==> '0' <= s[i] <= '9'
  {
    if s == [] then 0
    else 10 * DecimalValue(s[..|s| - 1]) + (s[|s| - 1] as int - '0' as int)
  }

  /** Reading back the printed number gives the number. */
  lemma {:induction false} DecimalRoundTrip(n: nat)
    ensures DecimalValue(NatToDecimal(n)) == n
    decreases n
  {
    if n >= 10 {
      var s := NatToDecimal(n);
      assert s[..|s| - 1] == NatToDecimal(n / 10);
      DecimalRoundTrip(n / 10);
    }
  }

  /** `${n} ${unit}${n === 1 ? '' : 's'} ago`. */
  function AgoPhrase(n: nat, unit: string): (r: string)
    ensures |r| > |unit| + 5 && r[|r| - 4..] == " ago"
  {
    NatToDecimal(n) + " " + unit + (if n == 1 then "" else "s") + " ago"
  }

  predicate EndsWith(s: string, suffix: string)
  {
    |suffix| <= |s| && s[|s| - |suffix|..] == suffix
  }

  /** The phrase starts with the count, followed by a space, and takes the
      plural "s" exactly when the count is not one (for a unit that does not
      itself end in "s"). */
  lemma AgoPhraseShape(n: nat, unit: string)
    requires unit != [] && unit[|unit| - 1] != 's'
    ensures var k := |NatToDecimal(n)|;
            var r := AgoPhrase(n, unit);
            k < |r| && DecimalValue(r[..k]) == n && r[k] == ' '
    ensures EndsWith(AgoPhrase(n, unit), "s ago") <==> n != 1
  {
    var k := |NatToDecimal(n)|;
    var r := AgoPhrase(n, unit);
    assert r[..k] == NatToDecimal(n);
    DecimalRoundTrip(n);
    if n == 1 {
      assert r == "1 " + unit + " ago";
      assert r[|r| - 5] == unit[|unit| - 1];
    } else {
      assert r == NatToDecimal(n) + " " + unit + "s ago";
    }
  }

  /** What `formatRelativeTime` returns: a phrase, or, from seven days on, the
      locale date of the timestamp (`formatDate`, not part of this model). */
  datatype RelativeTime = Phrase(text: string) | FormattedDate(t: int)

  /** `formatRelativeTime(t)` evaluated at `now`. */
  function FormatRelativeTime(t: int, now: int): (r: RelativeTime)
    ensures r == Phrase("Just now") <==> now - t < MinuteMs
    ensures r.FormattedDate? <==> now - t >= 7 * DayMs
    ensures r.FormattedDate? ==> r.t == t
  {
    match Bucketize(now - t)
    case JustNow => Phrase("Just now")
    case Minutes(n) => Phrase(AgoPhrase(n, "minute"))
    case Hours(n) => Phrase(AgoPhrase(n, "hour"))
    case Days(n) => Phrase(AgoPhrase(n, "day"))
    case Older => FormattedDate(t)
  }

  /** Every future timestamp reads "Just now". */
  lemma FutureIsJustNow(t: int, now: int)
    requires t > now
    ensures FormatRelativeTime(t, now) == Phrase("Just now")
  {
  }

  /** Between one minute and one hour the phrase counts whole elapsed
      minutes; up to a day, whole hours; up to seven days, whole days. With
      AgoPhraseShape: the count is printed first and the unit is singular
      exactly when the count is one. */
  lemma RelativePhraseCounts(t: int, now: int)
    ensures MinuteMs <= now - t < HourMs ==>
              FormatRelativeTime(t, now) == Phrase(AgoPhrase((now - t) / MinuteMs, "minute"))
    ensures HourMs <= now - t < DayMs ==>
              FormatRelativeTime(t, now) == Phrase(AgoPhrase((now - t) / HourMs, "hour"))
    ensures DayMs <= now - t < 7 * DayMs ==>
              FormatRelativeTime(t, now) == Phrase(AgoPhrase((now - t) / DayMs, "day"))
  {
  }
}
