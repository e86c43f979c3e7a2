/** The freshness test of `__check_data`. Instants are microseconds on one
    clock; the difference of two instants is normalised like Python's
    `timedelta`, and the test reads only its `seconds` component. */
module Staleness {
  import opened Records

  const MicrosPerSecond: int := 1_000_000
  const MicrosPerDay: int := 86_400_000_000

  /** A normalised `timedelta`: whole days (possibly negative), then the
      seconds and microseconds left over, both non-negative. */
  datatype TimeDelta = TimeDelta(days: int, seconds: int, microseconds: int)

  /** `now - stamp` for two datetimes. */
  function Difference(now: int, stamp: int): (d: TimeDelta)
    ensures 0 <= d.seconds < 86_400 && 0 <= d.microseconds < MicrosPerSecond
    ensures d.days * MicrosPerDay + d.seconds * MicrosPerSecond + d.microseconds == now - stamp
  {
    var us := now - stamp;
    TimeDelta(us / MicrosPerDay, (us % MicrosPerDay) / MicrosPerSecond, us % MicrosPerSecond)
  }

  /** The normal form is unique: any split of the same duration into days,
      in-range seconds and in-range microseconds is the one `Difference` gives. */
  lemma DifferenceUnique(now: int, stamp: int, d: TimeDelta)
    requires 0 <= d.seconds < 86_400 && 0 <= d.microseconds < MicrosPerSecond
    requires d.days * MicrosPerDay + d.seconds * MicrosPerSecond + d.microseconds == now - stamp
    ensures d == Difference(now, stamp)
  {
    var e := Difference(now, stamp);
    var rest := d.seconds * MicrosPerSecond + d.microseconds;
    var rest' := e.seconds * MicrosPerSecond + e.microseconds;
    assert 0 <= rest < MicrosPerDay && 0 <= rest' < MicrosPerDay;
    assert (d.days - e.days) * MicrosPerDay == rest' - rest;
    MultipleBounds(d.days - e.days, MicrosPerDay);
    assert (d.seconds - e.seconds) * MicrosPerSecond == e.microseconds - d.microseconds;
    MultipleBounds(d.seconds - e.seconds, MicrosPerSecond);
  }

  /** A non-zero multiple of `m` is at least `m` away from zero. */
  lemma MultipleBounds(q: int, m: int)
    requires m > 0
    ensures q >= 1 ==> q * m >= m
    ensures q <= -1 ==> q * m <= -m
  {
  }

  /** `self._cache_date is None or (now - self._cache_date).seconds > 60`. */
  predicate NeedsUpdate(cacheDate: Option<int>, now: int)
  {
    cacheDate.None? || Difference(now, cacheDate.value).seconds > 60
  }

  /** Within a day of the last update, the data is stale exactly from 61
      whole seconds on. */
  lemma StaleWithinDay(stamp: int, now: int)
    requires 0 <= now - stamp < MicrosPerDay
    ensures NeedsUpdate(Some(stamp), now) <==> now - stamp >= 61 * MicrosPerSecond
  {
    var d := Difference(now, stamp);
    DifferenceUnique(now, stamp, TimeDelta(0, d.seconds, d.microseconds));
  }

  /** Only the seconds component is read, so the answer repeats every day. */
  lemma StalenessRepeatsDaily(stamp: int, now: int, k: int)
    ensures NeedsUpdate(Some(stamp), now + k * MicrosPerDay) == NeedsUpdate(Some(stamp), now)
  {
    var d := Difference(now, stamp);
    DifferenceUnique(now + k * MicrosPerDay, stamp, d.(days := d.days + k));
  }

  /** Data a day and 30 seconds old counts as fresh. */
  lemma DayOldDataIsFresh(stamp: int)
    ensures !NeedsUpdate(Some(stamp), stamp + MicrosPerDay + 30 * MicrosPerSecond)
  {
    StalenessRepeatsDaily(stamp, stamp + 30 * MicrosPerSecond, 1);
    StaleWithinDay(stamp, stamp + 30 * MicrosPerSecond);
  }

  /** A last update one second in the future (the clock was set back) makes
      the data stale: the difference is minus one day plus 86399 seconds. */
  lemma FutureStampIsStale(stamp: int)
    ensures NeedsUpdate(Some(stamp), stamp - MicrosPerSecond)
  {
    DifferenceUnique(stamp - MicrosPerSecond, stamp, TimeDelta(-1, 86_399, 0));
  }
}
