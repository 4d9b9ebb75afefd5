/** `formatTimeAgo` of the notification dropdown: the age of a notification
    in whole seconds, minutes, hours or days. Times are milliseconds since
    the epoch; the clock reading is a parameter, and a timestamp that does
    not parse as a date is `None` (its time is NaN, which fails every
    comparison). */
module TimeAgo {

  import opened Common
  import opened Text

  /** `Math.floor((now - ts) / 1000)`: the elapsed whole seconds, rounded
      down, also when the timestamp is in the future. */
  function Elapsed(nowMs: int, tsMs: int): (s: int)
    ensures 1000 * s <= nowMs - tsMs < 1000 * s + 1000
  {
    (nowMs - tsMs) / 1000
  }

  /** The template `${n}<unit> ago`. */
  function Ago(n: nat, unit: char): (r: string)
    ensures |r| > 5 && r[|r| - 4..] == " ago"
  {
    var d := NatToString(n);
    assert (d + [unit] + " ago")[|d| + 1..] == " ago";
    d + [unit] + " ago"
  }

  function FormatTimeAgo(nowMs: int, ts: Option<int>): (r: string)
    ensures r == "just now" <==> ts.Some? && Elapsed(nowMs, ts.value) < 60
    ensures r != "just now" ==> |r| > 5 && r[|r| - 4..] == " ago"
  {
    if ts.None? then "NaNd ago"
    else
      var s := Elapsed(nowMs, ts.value);
      if s < 60 then "just now"
      else if s < 3600 then Ago(s / 60, 'm')
      else if s < 86400 then Ago(s / 3600, 'h')
      else Ago(s / 86400, 'd')
  }

  /** A timestamp in the future, or less than a minute old, reads "just now". */
  lemma FutureIsJustNow(nowMs: int, tsMs: int)
    requires tsMs > nowMs - 60000
    ensures FormatTimeAgo(nowMs, Some(tsMs)) == "just now"
  {
  }

  /** Between a minute and an hour: the number shown is the whole minutes
      elapsed, from 1 to 59, and reads back as that number. */
  lemma MinutesAgo(nowMs: int, tsMs: int) returns (m: nat)
    requires 60 <= Elapsed(nowMs, tsMs) < 3600
    ensures 1 <= m <= 59 && 60000 * m <= nowMs - tsMs < 60000 * m + 60000
    ensures FormatTimeAgo(nowMs, Some(tsMs)) == NatToString(m) + "m ago"
    ensures DigitsValue(NatToString(m)) == m
  {
    var s := Elapsed(nowMs, tsMs);
    m := s / 60;
    DigitsValueOfNatToString(m);
  }

  /** Between an hour and a day: the whole hours elapsed, from 1 to 23. */
  lemma HoursAgo(nowMs: int, tsMs: int) returns (h: nat)
    requires 3600 <= Elapsed(nowMs, tsMs) < 86400
    ensures 1 <= h <= 23 && 3600000 * h <= nowMs - tsMs < 3600000 * h + 3600000
    ensures FormatTimeAgo(nowMs, Some(tsMs)) == NatToString(h) + "h ago"
    ensures DigitsValue(NatToString(h)) == h
  {
    var s := Elapsed(nowMs, tsMs);
    h := s / 3600;
    DigitsValueOfNatToString(h);
  }

  /** A day or more: the whole days elapsed, at least 1. */
  lemma DaysAgo(nowMs: int, tsMs: int) returns (d: nat)
    requires Elapsed(nowMs, tsMs) >= 86400
    ensures d >= 1 && 86400000 * d <= nowMs - tsMs < 86400000 * d + 86400000
    ensures FormatTimeAgo(nowMs, Some(tsMs)) == NatToString(d) + "d ago"
    ensures DigitsValue(NatToString(d)) == d
  {
    var s := Elapsed(nowMs, tsMs);
    d := s / 86400;
    DigitsValueOfNatToString(d);
  }

  /** A timestamp that is not a date falls through every comparison to the
      last branch and reads "NaNd ago". */
  lemma InvalidDateReadsNaN(nowMs: int)
    ensures FormatTimeAgo(nowMs, None) == "NaNd ago"
    ensures FormatTimeAgo(nowMs, None) != "just now"
  {
  }
}
