/** Conversion between timestamps, which count from 1970, and dates, which count from 2001. */
module Dates {
  /** Seconds from the start of 1970 to the start of 2001. */
  const SINCE_1970: int := 978_307_200
  const GIGA: int := 1_000_000_000
  const MIN64: int := -0x8000_0000_0000_0000
  const MAX64: int := 0x7FFF_FFFF_FFFF_FFFF

  datatype Timestamp = NoTimestamp | Timestamp(seconds: int, nanoseconds: int)

  /** A time interval in seconds since the start of 2001, with exact reals for the finite ones. */
  datatype Interval = NaN | PlusInfinity | MinusInfinity | Finite(value: real)

  datatype Date = NoDate | Date(interval: Interval)

  /** What the constructor of a timestamp asserts, and its integer widths. */
  predicate ValidTimestamp(ts: Timestamp) {
    ts.Timestamp? ==>
      && MIN64 <= ts.seconds <= MAX64 && -GIGA < ts.nanoseconds < GIGA
      && ((ts.seconds >= 0 && ts.nanoseconds >= 0) || (ts.seconds <= 0 && ts.nanoseconds <= 0))
  }

  /** Nanoseconds since the start of 1970. */
  function Nanos(ts: Timestamp): int
    requires ts.Timestamp?
  {
    ts.seconds * GIGA + ts.nanoseconds
  }

  newtype int64 = i: int | -0x8000_0000_0000_0000 <= i <= 0x7FFF_FFFF_FFFF_FFFF

  newtype int32 = i: int | -0x8000_0000 <= i <= 0x7FFF_FFFF

  /** Conversion of a floating point number to an integer. */
  function Trunc(r: real): int {
    if r >= 0.0 then r.Floor else -((-r).Floor)
  }

  /** The one timestamp with a given number of nanoseconds whose parts agree in sign. */
  function Split(nanos: int): Timestamp {
    if nanos >= 0 then Timestamp(nanos / GIGA, nanos % GIGA) else Timestamp(-((-nanos) / GIGA), -((-nanos) % GIGA))
  }

  predicate ClampedHigh(t: real) {
    t >= (MAX64 - SINCE_1970) as real
  }

  predicate ClampedLow(t: real) {
    t - SINCE_1970 as real < MIN64 as real
  }

  /** The date truncated to nanoseconds, or the nearest extreme for dates that are clamped. */
  function TimestampFor(date: Date): Timestamp {
    match date
    case NoDate => NoTimestamp
    case Date(NaN) => Timestamp(0, 0)
    case Date(PlusInfinity) => Timestamp(MAX64, GIGA - 1)
    case Date(MinusInfinity) => Timestamp(MIN64, -GIGA + 1)
    case Date(Finite(t)) =>
      if ClampedHigh(t) then Timestamp(MAX64, GIGA - 1)
      else if ClampedLow(t) then Timestamp(MIN64, -GIGA + 1)
      else Split(Trunc(t * GIGA as real) + SINCE_1970 * GIGA)
  }

  function DateFor(ts: Timestamp): Date {
    if ts.NoTimestamp? then NoDate
    else Date(Finite((ts.seconds - SINCE_1970) as real + ts.nanoseconds as real / GIGA as real))
  }

  /**
   * The conversion as it is computed, each step in the integer width it is computed in: whole
   * seconds first, then the rest as nanoseconds, then the shift by whole seconds, then one second
   * borrowed if the signs differ.
   */
  method ConvertDate(date: Date) returns (ts: Timestamp)
    ensures ts == TimestampFor(date) && ValidTimestamp(ts)
  {
    if date.NoDate? {
      return NoTimestamp;
    }
    var interval := date.interval;
    if interval.NaN? {
      return Timestamp(0, 0);
    }
    if interval.PlusInfinity? || (interval.Finite? && interval.value >= (MAX64 - SINCE_1970) as real) {
      return Timestamp(MAX64, GIGA - 1);
    }
    if interval.MinusInfinity? || interval.value - SINCE_1970 as real < MIN64 as real {
      return Timestamp(MIN64, -GIGA + 1);
    }
    var t := interval.value;
    TruncInParts(t);
    TruncInRange(t);
    var seconds := Trunc(t) as int64;
    var nanoseconds := Trunc((t - seconds as int as real) * GIGA as real) as int32;
    seconds := seconds + SINCE_1970 as int64;
    if nanoseconds < 0 && seconds > 0 {
      nanoseconds := nanoseconds + GIGA as int32;
      seconds := seconds - 1;
    }
    ts := Timestamp(seconds as int, nanoseconds as int);
    SplitUnique(ts);
  }

  /** Truncating to seconds and then the rest to nanoseconds truncates to nanoseconds. */
  lemma TruncInParts(t: real)
    ensures var s := Trunc(t);
            var n := Trunc((t - s as real) * GIGA as real);
            s * GIGA + n == Trunc(t * GIGA as real) && -GIGA < n < GIGA && (t >= 0.0 ==> s >= 0 && n >= 0)
              && (t <= 0.0 ==> s <= 0 && n <= 0)
  {
  }

  /** What is not clamped stays in range, before and after the shift. */
  lemma TruncInRange(t: real)
    requires !ClampedHigh(t) && !ClampedLow(t)
    ensures MIN64 + SINCE_1970 <= Trunc(t) < MAX64 - SINCE_1970
  {
  }

  /** A timestamp whose parts agree in sign is determined by its nanoseconds. */
  lemma SplitUnique(ts: Timestamp)
    requires ts.Timestamp? && ValidTimestamp(ts)
    ensures Split(Nanos(ts)) == ts
  {
  }

  lemma SplitSpec(nanos: int)
    ensures var ts := Split(nanos);
            && Nanos(ts) == nanos && -GIGA < ts.nanoseconds < GIGA
            && ((ts.seconds >= 0 && ts.nanoseconds >= 0) || (ts.seconds <= 0 && ts.nanoseconds <= 0))
  {
  }

  /** Timestamps are ordered by seconds, then nanoseconds. */
  predicate AtMost(a: Timestamp, b: Timestamp)
    requires a.Timestamp? && b.Timestamp?
  {
    a.seconds < b.seconds || (a.seconds == b.seconds && a.nanoseconds <= b.nanoseconds)
  }

  // ---- fixed points in time ----

  /** The years with a leap day. */
  predicate IsLeap(year: nat) {
    year % 4 == 0 && (year % 100 == 0 ==> year % 400 == 0)
  }

  /** The days from the start of 1970 to the start of a year. */
  function DaysTo(year: nat): nat
    requires year >= 1970
  {
    if year == 1970 then 0 else DaysTo(year - 1) + if IsLeap(year - 1) then 366 else 365
  }

  /** The start of 2001 is the date zero, as many days after the start of 1970 as the calendar says. */
  lemma StartOf2001()
    ensures TimestampFor(Date(Finite(0.0))) == Timestamp(DaysTo(2001) * 24 * 60 * 60, 0)
    ensures DateFor(Timestamp(DaysTo(2001) * 24 * 60 * 60, 0)) == Date(Finite(0.0))
    ensures DateFor(Timestamp(0, 0)) == Date(Finite(-(DaysTo(2001) * 24 * 60 * 60) as real))
  {
    assert DaysTo(1980) == 3652;
    assert DaysTo(1990) == 7305;
    assert DaysTo(2001) == 11323;
    assert (0.0 * GIGA as real) == 0.0;
  }

  /** No date is no timestamp; a date that is not a number counts as 1970, and infinite ones as the extremes. */
  lemma SpecialDates()
    ensures TimestampFor(NoDate) == NoTimestamp && DateFor(NoTimestamp) == NoDate
    ensures TimestampFor(Date(NaN)) == Timestamp(0, 0)
    ensures TimestampFor(Date(PlusInfinity)) == Timestamp(MAX64, GIGA - 1)
    ensures TimestampFor(Date(MinusInfinity)) == Timestamp(MIN64, -GIGA + 1)
  {
  }

  // ---- round trips ----

  /** The timestamps whose dates are not clamped on the way back. */
  predicate Unclamped(ts: Timestamp)
    requires ts.Timestamp?
  {
    ts.seconds < MAX64 && Nanos(ts) >= (MIN64 + 2 * SINCE_1970) * GIGA
  }

  /**
   * Converting to a date and back gives the same timestamp exactly if there is none, if its date
   * is not clamped, or if it is one of the two that clamping gives.
   */
  lemma RoundTrip(ts: Timestamp)
    requires ValidTimestamp(ts)
    ensures TimestampFor(DateFor(ts)) == ts <==>
              || ts.NoTimestamp? || Unclamped(ts)
              || ts == Timestamp(MAX64, GIGA - 1) || ts == Timestamp(MIN64, -GIGA + 1)
  {
  }

  /** The clamp of early dates subtracts where it should add: this representable time does not survive. */
  lemma EarlyDateIsLost()
    ensures var ts := Timestamp(MIN64 + SINCE_1970, 0);
            ValidTimestamp(ts) && TimestampFor(DateFor(ts)) == Timestamp(MIN64, -GIGA + 1)
  {
  }

  // ---- accuracy and order ----

  /** A date that is not clamped is truncated towards 2001 by less than a nanosecond. */
  lemma WithinOneNanosecond(t: real)
    requires !ClampedHigh(t) && !ClampedLow(t)
    ensures var ts := TimestampFor(Date(Finite(t)));
            && ts.Timestamp?
            && -1.0 < (t + SINCE_1970 as real) * GIGA as real - Nanos(ts) as real < 1.0
            && (t >= 0.0 ==> Nanos(ts) as real <= (t + SINCE_1970 as real) * GIGA as real)
            && (t <= 0.0 ==> Nanos(ts) as real >= (t + SINCE_1970 as real) * GIGA as real)
  {
  }

  /** Later dates never give earlier timestamps, across both clamps. */
  lemma DatesKeepOrder(t: real, u: real)
    requires t <= u
    ensures TimestampFor(Date(Finite(t))).Timestamp? && TimestampFor(Date(Finite(u))).Timestamp?
    ensures AtMost(TimestampFor(Date(Finite(t))), TimestampFor(Date(Finite(u))))
  {
  }
}
