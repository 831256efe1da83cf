/** Half-open UTC ranges over integer seconds, and the IMAP date search that is
    derived from them (src/heron/core/timeutil.py). */
module Ranges {

  const DAY := 86400

  datatype DateRange = DateRange(start: int, end: int)
  {
    predicate Contains(t: int) {
      start <= t < end
    }
  }

  /** A range that the constructor accepts: it is never empty. */
  type Range = r: DateRange | r.start < r.end witness DateRange(0, 1)

  /** The range padded by one day on each side. */
  function Widened(r: Range): Range {
    DateRange(r.start - DAY, r.end + DAY)
  }

  /** The calendar day of an instant seen at `zone` seconds east of UTC.
      Division by a positive constant is floor division here. */
  function CalendarDay(t: int, zone: int): int {
    (t + zone) / DAY
  }

  /** What SINCE/BEFORE (section 6.4.4 of RFC 3501) select for a range: the dates are
      printed in UTC, the server compares them with the message's own calendar date. */
  predicate SearchMatches(r: Range, t: int, zone: int) {
    var wide := Widened(r);
    CalendarDay(wide.start, 0) <= CalendarDay(t, zone) < CalendarDay(wide.end, 0)
  }

  /** The zones for which the padded search misses nothing. */
  predicate ZoneTolerated(r: Range, zone: int) {
    -DAY - r.start % DAY <= zone <= DAY - r.end % DAY
  }

  lemma {:induction false} SearchFindsInRange(r: Range, t: int, zone: int)
    requires r.Contains(t) && ZoneTolerated(r, zone)
    ensures SearchMatches(r, t, zone)
  {
    DayOrder(r.start - DAY - r.start % DAY, t + zone);
    DayOrder(t + zone, r.end + DAY - r.end % DAY - 1);
    assert (r.start - DAY - r.start % DAY) / DAY == r.start / DAY - 1;
    assert (r.end + DAY - r.end % DAY - 1) / DAY == r.end / DAY;
  }

  lemma {:induction false} DayOrder(a: int, b: int)
    requires a <= b
    ensures a / DAY <= b / DAY
  {
  }

  /** The search is complete exactly for the tolerated zones; outside them the first or
      the last instant of the range is missed. */
  lemma {:induction false} SearchCompleteIff(r: Range, zone: int)
    ensures ZoneTolerated(r, zone) <==> forall t :: r.Contains(t) ==> SearchMatches(r, t, zone)
    ensures zone < -DAY - r.start % DAY ==> !SearchMatches(r, r.start, zone)
    ensures zone > DAY - r.end % DAY ==> !SearchMatches(r, r.end - 1, zone)
  {
    if ZoneTolerated(r, zone) {
      forall t | r.Contains(t) ensures SearchMatches(r, t, zone) {
        SearchFindsInRange(r, t, zone);
      }
    } else if zone < -DAY - r.start % DAY {
      assert r.Contains(r.start);
      DayOrder(r.start + zone, r.start - DAY - r.start % DAY - 1);
    } else {
      assert r.Contains(r.end - 1);
      DayOrder(r.end + DAY - r.end % DAY, r.end - 1 + zone);
    }
  }

  /** A range that ends at a UTC midnight tolerates every zone up to a day away. */
  lemma {:induction false} MidnightEndToleratesAllZones(r: Range, zone: int)
    requires r.end % DAY == 0 && -DAY <= zone <= DAY
    ensures ZoneTolerated(r, zone)
  {
  }

  /** Not every real zone is tolerated: a day that ends at 11:00 UTC (local midnight at
      UTC-11) loses a message that a server at UTC+14 dates two calendar days later. */
  lemma {:induction false} FarZoneMissesMessage()
    ensures exists r: Range, t, zone ::
              r.Contains(t) && -12 * 3600 <= zone <= 14 * 3600 && !SearchMatches(r, t, zone)
  {
    var r: Range := DateRange(11 * 3600, DAY + 11 * 3600);
    assert r.Contains(r.end - 1) && !SearchMatches(r, r.end - 1, 14 * 3600);
  }
}
