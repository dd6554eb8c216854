/** `getRelativeTime` (src/utils/time.ts): how long ago a Unix timestamp (seconds) was,
    in whole seconds, minutes, hours or days. The clock reading `now` (also in seconds) is a
    parameter. */
module RelativeTime {
  import opened JsText

  const SecondsPerMinute := 60
  const SecondsPerHour := 3600
  const SecondsPerDay := 86400

  /** The bucket a timestamp falls into, with its count. */
  datatype Ago =
    | JustNow
    | SecondsAgo(seconds: int)
    | MinutesAgo(minutes: int)
    | HoursAgo(hours: int)
    | DaysAgo(days: int)

  /** The buckets from the most recent to the oldest. */
  function Rank(a: Ago): nat {
    match a
    case JustNow => 0
    case SecondsAgo(_) => 1
    case MinutesAgo(_) => 2
    case HoursAgo(_) => 3
    case DaysAgo(_) => 4
  }

  /** `getRelativeTime(timestamp)` with `Math.floor(Date.now() / 1000)` replaced by `now`.
      A zero timestamp (the falsy `0n`) is "just now" whatever the clock says; otherwise the
      difference picks exactly one bucket, negative differences (timestamps in the future)
      included in the seconds bucket. */
  function GetRelativeTime(timestamp: int, now: int): (r: Ago)
    ensures timestamp == 0 <==> r == JustNow
    ensures r.SecondsAgo? ==> r.seconds == now - timestamp && r.seconds < 60
    ensures r.MinutesAgo? ==>
              1 <= r.minutes <= 59
              && r.minutes * SecondsPerMinute <= now - timestamp < (r.minutes + 1) * SecondsPerMinute
    ensures r.HoursAgo? ==>
              1 <= r.hours <= 23
              && r.hours * SecondsPerHour <= now - timestamp < (r.hours + 1) * SecondsPerHour
    ensures r.DaysAgo? ==>
              r.days >= 1
              && r.days * SecondsPerDay <= now - timestamp < (r.days + 1) * SecondsPerDay
  {
    if timestamp == 0 then JustNow
    else
      var diff := now - timestamp;
      if diff < 60 then SecondsAgo(diff)
      else if diff < 3600 then MinutesAgo(diff / 60)
      else if diff < 86400 then HoursAgo(diff / 3600)
      else DaysAgo(diff / 86400)
  }

  /** Which bucket a non-zero timestamp lands in is decided by the difference alone, and the
      four ranges cover every difference without overlapping. */
  lemma BucketOfDifference(timestamp: int, now: int)
    requires timestamp != 0
    ensures var r := GetRelativeTime(timestamp, now); var diff := now - timestamp;
      && (r.SecondsAgo? <==> diff < 60)
      && (r.MinutesAgo? <==> 60 <= diff < 3600)
      && (r.HoursAgo? <==> 3600 <= diff < 86400)
      && (r.DaysAgo? <==> diff >= 86400)
  {
  }

  /** An older timestamp never lands in a more recent bucket, and within one bucket it never
      shows a smaller count. */
  lemma OlderIsNeverNewer(t1: int, t2: int, now: int)
    requires t1 != 0 && t2 != 0 && t2 <= t1
    ensures Rank(GetRelativeTime(t1, now)) <= Rank(GetRelativeTime(t2, now))
    ensures var a := GetRelativeTime(t1, now); var b := GetRelativeTime(t2, now);
      Rank(a) == Rank(b) ==> Count(a) <= Count(b)
  {
    var d1 := now - t1;
    var d2 := now - t2;
    assert d1 <= d2;
  }

  /** The number a bucket prints (zero for "just now"). */
  function Count(a: Ago): int {
    match a
    case JustNow => 0
    case SecondsAgo(s) => s
    case MinutesAgo(m) => m
    case HoursAgo(h) => h
    case DaysAgo(d) => d
  }

  /** The text shown, as the template literals print it. */
  function Text(a: Ago): string {
    match a
    case JustNow => "Just now"
    case SecondsAgo(s) => IntToDecimal(s) + " seconds ago"
    case MinutesAgo(m) => IntToDecimal(m) + " minutes ago"
    case HoursAgo(h) => IntToDecimal(h) + " hours ago"
    case DaysAgo(d) => IntToDecimal(d) + " days ago"
  }

  /** The position of the first space in a text (its length when there is none). */
  function IndexOfSpace(t: string): nat {
    if t == [] || t[0] == ' ' then 0 else 1 + IndexOfSpace(t[1..])
  }

  /** A space-free head followed by a space: the first space sits right after the head. */
  lemma {:induction false} IndexOfSpaceAfterHead(x: string, s1: string)
    requires forall k :: 0 <= k < |x| ==> x[k] != ' '
    requires s1 != [] && s1[0] == ' '
    ensures IndexOfSpace(x + s1) == |x|
  {
    if x != [] {
      assert (x + s1)[1..] == x[1..] + s1;
      IndexOfSpaceAfterHead(x[1..], s1);
    }
  }

  /** Two texts made of a space-free head and a tail starting with a space are equal only
      when heads and tails are. */
  lemma SplitAtSpace(x: string, s1: string, y: string, s2: string)
    requires forall k :: 0 <= k < |x| ==> x[k] != ' '
    requires forall k :: 0 <= k < |y| ==> y[k] != ' '
    requires s1 != [] && s1[0] == ' ' && s2 != [] && s2[0] == ' '
    requires x + s1 == y + s2
    ensures x == y && s1 == s2
  {
    IndexOfSpaceAfterHead(x, s1);
    IndexOfSpaceAfterHead(y, s2);
    assert x == (x + s1)[..|x|] && y == (y + s2)[..|y|];
    assert s1 == (x + s1)[|x|..] && s2 == (y + s2)[|y|..];
  }

  /** The text shown determines the bucket and its count: no two different results of
      `getRelativeTime` read alike. */
  lemma TextInjective(a: Ago, b: Ago)
    requires Text(a) == Text(b)
    ensures a == b
  {
    if !a.JustNow? && !b.JustNow? {
      var x := IntToDecimal(Count(a));
      var y := IntToDecimal(Count(b));
      var s1 := Text(a)[|x|..];
      var s2 := Text(b)[|y|..];
      assert Text(a) == x + s1 && Text(b) == y + s2;
      SplitAtSpace(x, s1, y, s2);
      IntToDecimalInjective(Count(a), Count(b));
    }
  }
}
