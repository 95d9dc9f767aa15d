/**
 * Time arithmetic of the scheduler. Instants are microseconds since the Unix
 * epoch (Python's `datetime` resolution). The deployment zone, Asia/Jakarta,
 * is a fixed UTC+7 with no daylight saving, so a local day is always 86400 s.
 */
module Schedule {
  import opened Wrappers

  const SECOND: int := 1_000_000
  const MINUTE: int := 60 * SECOND
  const HOUR: int := 60 * MINUTE
  const DAY: int := 24 * HOUR
  const JAKARTA_OFFSET: int := 7 * HOUR

  /** Microseconds since local midnight of instant `t`. */
  function LocalTimeOfDay(t: int): (c: int)
    ensures 0 <= c < DAY
  {
    (t + JAKARTA_OFFSET) % DAY
  }

  /** Days since 1970-01-01 of the local date of instant `t`. */
  function LocalDay(t: int): int {
    (t + JAKARTA_OFFSET) / DAY
  }

  function HourOf(t: int): int { LocalTimeOfDay(t) / HOUR }
  function MinuteOf(t: int): int { LocalTimeOfDay(t) % HOUR / MINUTE }
  function SecondOf(t: int): int { LocalTimeOfDay(t) % MINUTE / SECOND }
  function MicrosecondOf(t: int): int { LocalTimeOfDay(t) % SECOND }

  /** What `datetime.replace(hour=h, minute=m)` and `datetime.time(h, m)` accept. */
  predicate ValidClock(h: int, m: int) {
    0 <= h < 24 && 0 <= m < 60
  }

  /**
   * What CPython's `datetime` converts to a C `int` when it reads the hour
   * and minute; outside this range `replace` and `time` raise OverflowError
   * before they check the range of a clock time.
   */
  predicate FitsCInt(x: int) {
    -0x8000_0000 <= x < 0x8000_0000
  }

  /** Microseconds from local midnight to h:m:00.000000. */
  function WallClock(h: int, m: int): int {
    h * HOUR + m * MINUTE
  }

  lemma LocalSplit(t: int)
    ensures t + JAKARTA_OFFSET == LocalDay(t) * DAY + LocalTimeOfDay(t)
  {
  }

  /**
   * The fire instant of a one-shot alarm set at instant `now` for local h:m
   * (bot.py:138-141, repeated at bot.py:251-253): today at h:m:00.000000,
   * one day later when that is not after `now`; None where `replace` raises.
   */
  function OnceTarget(now: int, h: int, m: int): (r: Option<int>)
    ensures r.Some? <==> ValidClock(h, m)
    ensures r.Some? ==> LocalTimeOfDay(r.value) == WallClock(h, m)
    ensures r.Some? ==> now < r.value <= now + DAY
    ensures r.Some? ==> LocalDay(r.value) == LocalDay(now) + (if WallClock(h, m) <= LocalTimeOfDay(now) then 1 else 0)
  {
    if ValidClock(h, m) then
      LocalSplit(now);
      var today := now - LocalTimeOfDay(now) + WallClock(h, m);
      var target := if today <= now then today + DAY else today;
      assert target + JAKARTA_OFFSET == (LocalDay(now) + (if today <= now then 1 else 0)) * DAY + WallClock(h, m);
      DivModUnique(target + JAKARTA_OFFSET, LocalDay(now) + (if today <= now then 1 else 0), WallClock(h, m));
      Some(target)
    else
      None
  }

  lemma DivModUnique(x: int, q: int, c: int)
    requires 0 <= c < DAY && x == q * DAY + c
    ensures x / DAY == q && x % DAY == c
  {
  }

  /** The one-shot target reads, on the local clock, as exactly h:m:00.000000. */
  lemma OnceTargetFields(now: int, h: int, m: int)
    requires ValidClock(h, m)
    ensures var t := OnceTarget(now, h, m).value;
      HourOf(t) == h && MinuteOf(t) == m && SecondOf(t) == 0 && MicrosecondOf(t) == 0
  {
    var c := WallClock(h, m);
    assert c / HOUR == h && c % HOUR == m * MINUTE;
    assert c % HOUR / MINUTE == m;
    assert c % MINUTE == 0 && c % SECOND == 0;
  }

  /** No instant after `now` at local h:m comes before the one-shot target. */
  lemma OnceTargetEarliest(now: int, h: int, m: int, t: int)
    requires ValidClock(h, m)
    requires now < t && LocalTimeOfDay(t) == WallClock(h, m)
    ensures OnceTarget(now, h, m).value <= t
  {
    var r := OnceTarget(now, h, m).value;
    LocalSplit(t);
    LocalSplit(r);
    assert t - r == (LocalDay(t) - LocalDay(r)) * DAY;
  }

  /**
   * `/sekali 15:00` at 2024-01-01 14:00 WIB (07:00 UTC) fires the same day at
   * 15:00 WIB; sent at 16:00 WIB it fires on 2024-01-02 at 15:00 WIB.
   */
  lemma OnceScenarios()
    ensures OnceTarget(1_704_092_400 * SECOND, 15, 0) == Some(1_704_096_000 * SECOND)
    ensures OnceTarget(1_704_099_600 * SECOND, 15, 0) == Some(1_704_182_400 * SECOND)
  {
    DivModUnique(1_704_092_400 * SECOND + JAKARTA_OFFSET, 19723, 14 * HOUR);
    DivModUnique(1_704_099_600 * SECOND + JAKARTA_OFFSET, 19723, 16 * HOUR);
  }

  /**
   * The `days` tuple passed to the daily scheduler (bot.py:157-160, 262-265):
   * the five day numbers 0 to 4 for "workdays", all seven numbers 0 to 6
   * otherwise. Which weekday each number stands for is the job-queue
   * library's convention, which is not part of this model.
   */
  function DaysFilter(kind: string): (days: seq<int>)
    ensures forall i :: 0 <= i < |days| ==> 0 <= days[i] <= 6
    ensures forall d :: 0 <= d <= 4 ==> d in days
    ensures kind == "workdays" <==> 5 !in days
    ensures kind == "workdays" <==> 6 !in days
  {
    if kind == "workdays" then [0, 1, 2, 3, 4] else [0, 1, 2, 3, 4, 5, 6]
  }
}
