/**
 * The trading-session gate `is_us_market_open`: a pure predicate over the
 * weekday and the wall-clock time of day in US/Eastern.
 */
module MarketClock {

  /** A time of day with the resolution of Python's `datetime`. */
  datatype ClockTime = ClockTime(hour: int, minute: int, second: int, micro: int)
  {
    predicate Valid() {
      0 <= hour < 24 && 0 <= minute < 60 && 0 <= second < 60 && 0 <= micro < 1_000_000
    }

    /** Microseconds since midnight. */
    function Micros(): int {
      ((hour * 60 + minute) * 60 + second) * 1_000_000 + micro
    }
  }

  /** A daily session with inclusive opening and closing instants. */
  datatype Session = Session(open: ClockTime, close: ClockTime)

  /** 09:30:00 to 16:00:00, the window of most scanners. */
  const Regular := Session(ClockTime(9, 30, 0, 0), ClockTime(16, 0, 0, 0))

  /** 09:25:00 to 16:15:00, the window of the throttled two-hour crossover scanner. */
  const Extended := Session(ClockTime(9, 25, 0, 0), ClockTime(16, 15, 0, 0))

  /**
   * `a <= b` for two datetimes that share date and time zone, as Python
   * decides it: hour first, then minute, second and microsecond.
   */
  predicate NotAfter(a: ClockTime, b: ClockTime) {
    || a.hour < b.hour
    || (a.hour == b.hour && a.minute < b.minute)
    || (a.hour == b.hour && a.minute == b.minute && a.second < b.second)
    || (a.hour == b.hour && a.minute == b.minute && a.second == b.second && a.micro <= b.micro)
  }

  /** Python's `weekday()` numbering: Monday is 0, Saturday 5, Sunday 6. */
  predicate IsWeekend(weekday: int) {
    weekday in [5, 6]
  }

  /** `is_us_market_open`: closed at weekends, otherwise open inside the inclusive window. */
  predicate IsOpen(s: Session, weekday: int, now: ClockTime)
    ensures s.open.Valid() && s.close.Valid() && now.Valid() ==>
      (IsOpen(s, weekday, now) <==> weekday != 5 && weekday != 6 && s.open.Micros() <= now.Micros() <= s.close.Micros())
  {
    if IsWeekend(weekday) then false
    else NotAfter(s.open, now) && NotAfter(now, s.close)
  }

  /** Field-wise comparison of clock times agrees with comparing microseconds since midnight. */
  lemma NotAfterIffMicros(a: ClockTime, b: ClockTime)
    requires a.Valid() && b.Valid()
    ensures NotAfter(a, b) <==> a.Micros() <= b.Micros()
  {
  }

  /** Whenever the regular window is open, so is the extended one. */
  lemma RegularWithinExtended(weekday: int, now: ClockTime)
    requires now.Valid()
    ensures IsOpen(Regular, weekday, now) ==> IsOpen(Extended, weekday, now)
  {
  }

  /** Both bounds are inclusive to the microsecond, and Saturday is closed at noon. */
  lemma RegularBoundaries()
    ensures IsOpen(Regular, 0, ClockTime(9, 30, 0, 0))
    ensures !IsOpen(Regular, 0, ClockTime(9, 29, 59, 999_999))
    ensures IsOpen(Regular, 4, ClockTime(16, 0, 0, 0))
    ensures !IsOpen(Regular, 4, ClockTime(16, 0, 0, 1))
    ensures !IsOpen(Regular, 5, ClockTime(12, 0, 0, 0))
    ensures IsOpen(Extended, 2, ClockTime(16, 15, 0, 0)) && !IsOpen(Regular, 2, ClockTime(16, 15, 0, 0))
  {
  }
}
