/** Go's int64 instants: truncated division, UnixNano wrap-around, and the two
    encodings of time that the metrics code stores (milliseconds in the TSDB,
    nanoseconds in the cursor file). An instant is an unbounded count of
    nanoseconds since the Unix epoch. */
module GoTime {

  const NANOS_PER_MILLI := 1_000_000
  const NANOS_PER_SECOND := 1_000_000_000
  const MIN_INT64 := -0x8000_0000_0000_0000
  const MAX_INT64 := 0x7FFF_FFFF_FFFF_FFFF
  /** time.Time{}: the first instant of year 1. */
  const ZERO_TIME := -62_135_596_800 * NANOS_PER_SECOND

  predicate IsInt64(x: int) {
    MIN_INT64 <= x <= MAX_INT64
  }

  /** Two's-complement reading of the low 64 bits. */
  function Wrap64(x: int): int {
    (x - MIN_INT64) % 0x1_0000_0000_0000_0000 + MIN_INT64
  }

  /** Go's `/`: rounds toward zero. */
  function Quot(a: int, b: int): int
    requires b > 0
  {
    if a >= 0 then a / b else -((-a) / b)
  }

  /** Go's `%`: takes the sign of the dividend. */
  function Rem(a: int, b: int): int
    requires b > 0
  {
    if a >= 0 then a % b else -((-a) % b)
  }

  /** time.Unix(sec, nsec); nsec may be negative, the instant is the sum. */
  function Unix(sec: int, nsec: int): int {
    sec * NANOS_PER_SECOND + nsec
  }

  function UnixNano(instant: int): int {
    Wrap64(instant)
  }

  function ToDbTime(instant: int): int {
    Quot(UnixNano(instant), NANOS_PER_MILLI)
  }

  predicate IsSentinel(t: int) {
    t == 0 || t == MIN_INT64 || t == MAX_INT64
  }

  function FromDbTime(t: int): int {
    if IsSentinel(t) then ZERO_TIME
    else Unix(Quot(t, 1000), Rem(t, 1000) * NANOS_PER_MILLI)
  }

  lemma MillisBack(t: int)
    ensures Quot(t * NANOS_PER_MILLI, NANOS_PER_MILLI) == t
  {
  }

  lemma FromDbTimeIsMillis(t: int)
    requires !IsSentinel(t)
    ensures FromDbTime(t) == t * NANOS_PER_MILLI
  {
  }

  lemma QuotIsSmall(a: int, b: int)
    requires b > 0
    ensures a >= 0 ==> 0 <= b * Quot(a, b) <= a
    ensures a <= 0 ==> a <= b * Quot(a, b) <= 0
  {
  }

  /** The millisecond encoding of an int64 reading survives the trip through
      time.Time exactly when the reading is not one of the three sentinels and
      its nanosecond count still fits in 64 bits; a sentinel becomes the start of
      year 1. */
  lemma DbTimeRoundTrip(t: int)
    requires IsInt64(t)
    ensures
      var sentinel := t == 0 || t == -0x8000_0000_0000_0000 || t == 0x7FFF_FFFF_FFFF_FFFF;
      && (ToDbTime(FromDbTime(t)) == t <==> !sentinel && IsInt64(t * 1_000_000))
      && FromDbTime(t) == if sentinel then -62_135_596_800_000_000_000 else t * 1_000_000
  {
    if IsSentinel(t) {
      assert UnixNano(ZERO_TIME) == -6_795_364_578_871_345_152;
    } else {
      FromDbTimeIsMillis(t);
      if IsInt64(t * NANOS_PER_MILLI) {
        MillisBack(t);
      } else {
        QuotIsSmall(UnixNano(t * NANOS_PER_MILLI), NANOS_PER_MILLI);
      }
    }
  }

  /** What the cursor file records, and what NewRemoteWrite reads back from it. */
  function SavedCursor(instant: int): int {
    UnixNano(instant)
  }

  function LoadedCursor(saved: int): int {
    Unix(Quot(saved, NANOS_PER_SECOND), Rem(saved, NANOS_PER_SECOND))
  }

  /** A restart resumes at exactly the instant that was saved, for every
      instant whose nanosecond count fits in 64 bits, before or after 1970. */
  lemma CursorRoundTrip(instant: int)
    ensures LoadedCursor(SavedCursor(instant)) == instant <==> IsInt64(instant)
  {
  }

  /** A sample newer than the cursor is not cut off by the millisecond
      truncation of the window bounds, even when the cursor is not aligned. */
  lemma WindowBoundsKeepSample(t: int, after: int, start: int, end: int)
    requires 0 <= t && after < t * NANOS_PER_MILLI <= end
    requires start <= after + NANOS_PER_MILLI || start <= t * NANOS_PER_MILLI
    requires IsInt64(start) && IsInt64(end)
    ensures ToDbTime(start) <= t <= ToDbTime(end)
  {
  }
}
