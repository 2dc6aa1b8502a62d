/**
 * `timeSince`: how long ago a poll was created, in the largest calendar unit whose
 * whole count is positive ("3 days ago"), or "just now" under a minute.
 */
module Age {

  datatype Unit = Year | Month | Day | Hour | Minute

  /** The unit lengths in seconds (a year of 365 days, a month of 30). */
  function UnitSeconds(u: Unit): nat
  {
    match u
    case Year => 31536000
    case Month => 2592000
    case Day => 86400
    case Hour => 3600
    case Minute => 60
  }

  function UnitLabel(u: Unit): string
  {
    match u
    case Year => "year"
    case Month => "month"
    case Day => "day"
    case Hour => "hour"
    case Minute => "minute"
  }

  /** The `intervals` table, longest unit first. */
  const Intervals: seq<Unit> := [Year, Month, Day, Hour, Minute]

  /** Where a unit sits in the table; a longer unit sits earlier. */
  function Position(u: Unit): (k: nat)
    ensures k < |Intervals| && Intervals[k] == u
    ensures forall j :: 0 <= j < |Intervals| && UnitSeconds(Intervals[j]) < UnitSeconds(u) ==> k < j
  {
    match u
    case Year => 0
    case Month => 1
    case Day => 2
    case Hour => 3
    case Minute => 4
  }

  /** The outcome of `timeSince` before it is rendered as text. */
  datatype Elapsed = JustNow | Ago(count: nat, unit: Unit)

  /** `Math.floor(Date.now() / 1000) - timestamp`; Dafny's `/` by a positive divisor floors. */
  function AgeSeconds(nowMs: int, timestamp: int): int
  {
    nowMs / 1000 - timestamp
  }

  function DigitChar(d: nat): char
    requires d < 10
  {
    "0123456789"[d]
  }

  /** The decimal text of a number, as a template literal renders it. */
  function NatToString(n: nat): (r: string)
    ensures |r| >= 1
    ensures forall i :: 0 <= i < |r| ==> '0' <= r[i] <= '9'
    ensures n > 0 ==> r[0] != '0'
  {
    if n < 10 then [DigitChar(n)] else NatToString(n / 10) + [DigitChar(n % 10)]
  }

  /** Reads decimal digits back as a number. */
  function ParseDigits(s: string): nat
    requires forall i :: 0 <= i < |s| ==> '0' <= s[i] <= '9'
  {
    if s == [] then 0 else 10 * ParseDigits(s[..|s| - 1]) + (s[|s| - 1] as int - '0' as int)
  }

  /** The rendered count names the count: different counts never share a text. */
  lemma {:induction false} NatToStringRoundTrip(n: nat)
    ensures ParseDigits(NatToString(n)) == n
  {
    if n >= 10 {
      NatToStringRoundTrip(n / 10);
      var r := NatToString(n);
      assert r[..|r| - 1] == NatToString(n / 10);
    }
  }

  /** The template `${count} ${label}${count !== 1 ? 's' : ''} ago`, or 'just now'. */
  function Describe(e: Elapsed): string
  {
    match e
    case JustNow => "just now"
    case Ago(count, unit) =>
      NatToString(count) + " " + UnitLabel(unit) + (if count != 1 then "s" else "") + " ago"
  }

  /**
   * The loop over `intervals` with its early return. The result is "just now" exactly
   * when the age is under a minute (negative ages included); otherwise it names the
   * floor count of the chosen unit, that count is at least one, and the age falls short
   * of every longer unit.
   */
  method TimeSince(nowMs: int, timestamp: int) returns (e: Elapsed, text: string)
    ensures text == Describe(e)
    ensures e.JustNow? <==> AgeSeconds(nowMs, timestamp) < 60
    ensures e.Ago? ==> e.count >= 1 && e.count == AgeSeconds(nowMs, timestamp) / UnitSeconds(e.unit)
    ensures e.Ago? ==> forall u :: UnitSeconds(u) > UnitSeconds(e.unit) ==>
      AgeSeconds(nowMs, timestamp) < UnitSeconds(u)
  {
    var seconds := nowMs / 1000 - timestamp;
    var k := 0;
    while k < |Intervals|
      invariant 0 <= k <= |Intervals|
      invariant forall j :: 0 <= j < k ==> seconds < UnitSeconds(Intervals[j])
    {
      var count := seconds / UnitSeconds(Intervals[k]);
      if count > 0 {
        forall u | UnitSeconds(u) > UnitSeconds(Intervals[k])
          ensures seconds < UnitSeconds(u)
        {
          assert Intervals[Position(u)] == u;
        }
        e := Ago(count, Intervals[k]);
        text := Describe(e);
        return;
      }
      k := k + 1;
    }
    assert Intervals[4] == Minute;
    e := JustNow;
    text := "just now";
  }
}
