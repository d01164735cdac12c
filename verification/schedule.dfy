/** The market-hours gate: is the US equity market open at a given local time?
    Time-zone conversion is not modelled; the caller supplies the weekday and
    wall-clock time already expressed in US/Eastern. */
module Schedule {

  const MicrosPerSecond: int := 1_000_000

  /** Day of week as Python's `datetime.weekday()` numbers it: 0 = Monday, 6 = Sunday. */
  type Weekday = w: int | 0 <= w <= 6

  /** A wall-clock time of day with microsecond precision, as a `datetime` carries it. */
  datatype ClockTime = ClockTime(hour: int, minute: int, second: int, micro: int) {

    predicate Valid() {
      && 0 <= hour < 24
      && 0 <= minute < 60
      && 0 <= second < 60
      && 0 <= micro < MicrosPerSecond
    }

    /** Microseconds since local midnight. */
    function Micros(): (r: int) {
      ((hour * 60 + minute) * 60 + second) * MicrosPerSecond + micro
    }
  }

  /** 09:30:00.000000, the opening bell. */
  const OpenTime: ClockTime := ClockTime(9, 30, 0, 0)
  /** 16:00:00.000000, the closing bell. */
  const CloseTime: ClockTime := ClockTime(16, 0, 0, 0)

  /** Field-by-field comparison, the order in which two datetimes of the same date compare. */
  predicate NotAfter(a: ClockTime, b: ClockTime) {
    || a.hour < b.hour
    || (a.hour == b.hour && a.minute < b.minute)
    || (a.hour == b.hour && a.minute == b.minute && a.second < b.second)
    || (a.hour == b.hour && a.minute == b.minute && a.second == b.second && a.micro <= b.micro)
  }

  /** The market is open on Monday to Friday between the two bells, both inclusive. */
  function IsMarketOpen(day: Weekday, now: ClockTime): (r: bool)
    requires now.Valid()
    ensures day >= 5 ==> !r
    ensures day < 5 ==> (r <==> NotAfter(OpenTime, now) && NotAfter(now, CloseTime))
  {
    NotAfterIsMicrosOrder(OpenTime, now);
    NotAfterIsMicrosOrder(now, CloseTime);
    day < 5 && OpenTime.Micros() <= now.Micros() <= CloseTime.Micros()
  }

  /** Within one field, a larger value outweighs everything in the smaller fields. */
  lemma CarryBound(hi1: int, hi2: int, lo1: int, lo2: int, base: int)
    requires 0 < base
    requires 0 <= lo1 < base && 0 <= lo2 < base
    requires hi1 < hi2
    ensures hi1 * base + lo1 < hi2 * base + lo2
  {
    var d := hi2 - hi1;
    assert d >= 1;
    assert d * base >= base by {
      assert d * base == (d - 1) * base + base;
      assert (d - 1) * base >= 0;
    }
    assert hi2 * base == hi1 * base + d * base;
  }

  /** Comparing the fields in order is the same as comparing microseconds since midnight. */
  lemma NotAfterIsMicrosOrder(a: ClockTime, b: ClockTime)
    requires a.Valid() && b.Valid()
    ensures NotAfter(a, b) <==> a.Micros() <= b.Micros()
  {
    var am := a.hour * 60 + a.minute;
    var bm := b.hour * 60 + b.minute;
    var asec := am * 60 + a.second;
    var bsec := bm * 60 + b.second;
    assert 0 <= am && 0 <= bm;
    assert 0 <= asec && 0 <= bsec;
    if a.hour != b.hour {
      if a.hour < b.hour {
        CarryBound(a.hour, b.hour, a.minute, b.minute, 60);
      } else {
        CarryBound(b.hour, a.hour, b.minute, a.minute, 60);
      }
    }
    if am != bm {
      if am < bm {
        CarryBound(am, bm, a.second, b.second, 60);
      } else {
        CarryBound(bm, am, b.second, a.second, 60);
      }
    }
    if asec != bsec {
      if asec < bsec {
        CarryBound(asec, bsec, a.micro, b.micro, MicrosPerSecond);
      } else {
        CarryBound(bsec, asec, b.micro, a.micro, MicrosPerSecond);
      }
    }
  }

  /** Concrete boundaries: the bells themselves are open, one microsecond outside is not. */
  lemma MarketHoursBoundaries()
    ensures IsMarketOpen(2, ClockTime(10, 0, 0, 0))
    ensures IsMarketOpen(0, ClockTime(9, 30, 0, 0))
    ensures IsMarketOpen(4, ClockTime(16, 0, 0, 0))
    ensures !IsMarketOpen(2, ClockTime(16, 0, 0, 1))
    ensures !IsMarketOpen(2, ClockTime(16, 0, 1, 0))
    ensures !IsMarketOpen(2, ClockTime(9, 29, 59, 999_999))
    ensures !IsMarketOpen(5, ClockTime(10, 0, 0, 0))
    ensures !IsMarketOpen(6, ClockTime(12, 0, 0, 0))
  {
  }
}
