/**
 * Minute arithmetic on instants (backend/src/routes/insights.js, lines 15-27 and 95-98).
 * An instant is a whole number of milliseconds since the Unix epoch, in UTC.
 */
module Minutes {

  /** Milliseconds in one minute. */
  const MinuteMs: int := 60000

  /**
   * floorToMinute: the start of the UTC minute that contains `d`
   * (the seconds and milliseconds fields are set to zero).
   */
  function FloorToMinute(d: int): (r: int)
    ensures r <= d < r + MinuteMs
    ensures r % MinuteMs == 0
  {
    d - d % MinuteMs
  }

  /**
   * ceilToMinute: `d` itself when it lies on a minute boundary, otherwise the start of the
   * following minute.
   */
  function CeilToMinute(d: int): (r: int)
    ensures d <= r < d + MinuteMs
    ensures r % MinuteMs == 0
  {
    var floored := FloorToMinute(d);
    if d > floored then floored + MinuteMs else floored
  }

  /** The two ensures of FloorToMinute determine it: any minute boundary within the minute before `d` is it. */
  lemma FloorToMinuteUnique(d: int, m: int)
    requires m % MinuteMs == 0 && m <= d < m + MinuteMs
    ensures m == FloorToMinute(d)
  {
  }

  /**
   * floorToMinute(d) <= d <= ceilToMinute(d); the two differ by nothing exactly when `d`
   * lies on a minute boundary, and by one minute otherwise.
   */
  lemma FloorCeilGap(d: int)
    ensures FloorToMinute(d) <= d <= CeilToMinute(d)
    ensures CeilToMinute(d) - FloorToMinute(d) == if d % MinuteMs == 0 then 0 else MinuteMs
  {
  }

  /** Both roundings leave an instant on a minute boundary unchanged, and only such an instant. */
  lemma RoundingFixesBoundaries(d: int)
    ensures FloorToMinute(d) == d <==> d % MinuteMs == 0
    ensures CeilToMinute(d) == d <==> d % MinuteMs == 0
  {
  }

  /** Math.floor(x / 60000) on a whole number of milliseconds (Dafny's division floors for a positive divisor). */
  function MinutesFloor(x: int): (r: int)
    ensures r * MinuteMs <= x < r * MinuteMs + MinuteMs
  {
    x / MinuteMs
  }

  /** Math.ceil(x / 60000) on a whole number of milliseconds. */
  function MinutesCeil(x: int): (r: int)
    ensures r * MinuteMs - MinuteMs < x <= r * MinuteMs
  {
    -((-x) / MinuteMs)
  }

  /** The instant that labels minute bucket `i` of a report starting at `startUtc`. */
  function MinuteAt(startUtc: int, i: int): (r: int)
    ensures r - startUtc == i * MinuteMs
  {
    startUtc + i * MinuteMs
  }
}
