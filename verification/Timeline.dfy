/** What the timeline counts, in terms of instants: the local day and hour of a message, and the
    agreement of the timeline with the range query (src/heron/analysis/activity.py,
    src/heron/core/activity_storage.py, src/heron/core/storage.py). */
module Timeline {
  import opened Activity
  import opened Ranges
  import opened StorageText
  import opened Wrappers
  import Alerts
  import LocalDays

  // ------------------------------------------------------------------ local days and hours

  /** The row's date parses, and its instant falls on one of these local calendar days. */
  predicate FallsOn(r: Row, startDay: int, endDay: int, offset: Offset) {
    var c := Parse(r.date);
    c.Some? && startDay <= CalendarDay(Instant(c.value), offset(Instant(c.value))) <= endDay
  }

  lemma {:induction false} OnDaysIff(r: Row, startDay: int, endDay: int, offset: Offset)
    ensures OnDays(r, startDay, endDay, offset) <==> FallsOn(r, startDay, endDay, offset)
  {
  }

  /** The zone's midnight of this day is when the offset's calendar day begins. */
  ghost predicate DayBegins(offset: Offset, zone: LocalDays.Zone, day: int) {
    forall t :: CalendarDay(t, offset(t)) >= day <==> t >= Instant(zone(day))
  }

  /** For a fixed offset local midnight is that many seconds before UTC midnight. */
  lemma {:induction false} FixedOffsetBegins(offset: Offset, east: int, zone: LocalDays.Zone, day: int)
    requires (forall t :: offset(t) == east) && Instant(zone(day)) == day * DAY - east
    ensures DayBegins(offset, zone, day)
  {
    forall t ensures CalendarDay(t, offset(t)) >= day <==> t >= Instant(zone(day)) {
      DayFrom(t + east, day);
    }
  }

  lemma {:induction false} DayFrom(local: int, day: int)
    ensures local / DAY >= day <==> local >= day * DAY
  {
  }

  /** A row is on the requested days if and only if its instant is in their UTC range. */
  lemma {:induction false} OnDaysInRange(r: Row, startDay: int, endDay: int, offset: Offset, zone: LocalDays.Zone)
    requires Parse(r.date).Some? && DayBegins(offset, zone, startDay) && DayBegins(offset, zone, endDay + 1)
    ensures OnDays(r, startDay, endDay, offset) <==>
            Instant(zone(startDay)) <= Instant(Parse(r.date).value) < Instant(zone(endDay + 1))
  {
    var t := Instant(Parse(r.date).value);
    assert CalendarDay(t, offset(t)) >= startDay <==> t >= Instant(zone(startDay));
    assert CalendarDay(t, offset(t)) >= endDay + 1 <==> t >= Instant(zone(endDay + 1));
  }

  /** With a fixed offset the requested days are a plain span of seconds. */
  lemma {:induction false} FixedOffsetOnDays(r: Row, startDay: int, endDay: int, offset: Offset, east: int)
    requires Parse(r.date).Some? && forall t :: offset(t) == east
    ensures OnDays(r, startDay, endDay, offset) <==>
            startDay * DAY - east <= Instant(Parse(r.date).value) < (endDay + 1) * DAY - east
  {
    DayFrom(Instant(Parse(r.date).value) + east, startDay);
    DayFrom(Instant(Parse(r.date).value) + east, endDay + 1);
  }

  /** And where the zone's midnights are those of that offset, it is the range that
      `LocalDateRange` gives. */
  lemma {:induction false} FixedOffsetDays(r: Row, startDay: int, endDay: int, offset: Offset, east: int,
                                           zone: LocalDays.Zone)
    requires Parse(r.date).Some? && forall t :: offset(t) == east
    requires Instant(zone(startDay)) == startDay * DAY - east && Instant(zone(endDay + 1)) == (endDay + 1) * DAY - east
    requires LocalDays.LocalDateRange(startDay, endDay, zone).Ok?
    ensures var span := LocalDays.LocalDateRange(startDay, endDay, zone).value;
            OnDays(r, startDay, endDay, offset) <==>
            Instant(span.start) <= Instant(Parse(r.date).value) < Instant(span.end)
  {
    LocalDays.RangeIs(startDay, endDay, zone);
    FixedOffsetOnDays(r, startDay, endDay, offset, east);
  }

  /** With a fixed offset, hour bucket `hour` of one day counts exactly the instants of that hour
      of local time. */
  lemma {:induction false} HourBucketIff(r: Row, kind: Kind, day: int, hour: nat, offset: Offset, east: int)
    requires forall t :: offset(t) == east
    requires Parse(r.date).Some? && hour < 24
    ensures var t := Instant(Parse(r.date).value);
            InSlots(kind, day, day, offset, hour, hour + 1)(r) <==>
            IsKind(r, kind) && day * DAY - east + 3600 * hour <= t < day * DAY - east + 3600 * (hour + 1)
  {
    var local := Instant(Parse(r.date).value) + east;
    HourOf(local, day, hour);
  }

  lemma {:induction false} HourOf(local: int, day: int, hour: nat)
    requires hour < 24
    ensures local / DAY == day && local % DAY / 3600 == hour <==>
            day * DAY + 3600 * hour <= local < day * DAY + 3600 * (hour + 1)
  {
  }

  /** In a view of several days bucket `k` counts the `k`th local day. */
  lemma {:induction false} DayBucketIff(r: Row, kind: Kind, startDay: int, endDay: int, k: nat, offset: Offset)
    requires startDay < endDay && k <= endDay - startDay
    ensures InSlots(kind, startDay, endDay, offset, k, k + 1)(r) <==>
            IsKind(r, kind) && FallsOn(r, startDay + k, startDay + k, offset)
  {
  }

  // ------------------------------------------------------------------ the totals

  function MailOn(startDay: int, endDay: int, offset: Offset): Row -> bool {
    r => FallsOn(r, startDay, endDay, offset)
  }

  function AnalysedOn(startDay: int, endDay: int, offset: Offset): Row -> bool {
    (r: Row) => r.verdict != None && FallsOn(r, startDay, endDay, offset)
  }

  function JudgedOn(verdict: Alerts.Verdict, startDay: int, endDay: int, offset: Offset): Row -> bool {
    (r: Row) => r.verdict == Some(verdict) && FallsOn(r, startDay, endDay, offset)
  }

  /** The totals of an activity count rows by local day and stored verdict. */
  lemma {:induction false} TotalsCount(rows: seq<Row>, startDay: int, endDay: int, offset: Offset, r: Result<Activity,
                                       ActivityError>)
    requires IsActivity(rows, startDay, endDay, offset, r) && r.Ok?
    ensures r.value.emails == Count(rows, MailOn(startDay, endDay, offset))
    ensures r.value.analysed == Count(rows, AnalysedOn(startDay, endDay, offset))
    ensures r.value.suspicious == Count(rows, JudgedOn(Alerts.Suspicious, startDay, endDay, offset))
    ensures r.value.phishing == Count(rows, JudgedOn(Alerts.Phishing, startDay, endDay, offset))
  {
    CountSame(rows, OfKind(AnyMail, startDay, endDay, offset), MailOn(startDay, endDay, offset));
    CountSame(rows, OfKind(AnalysedMail, startDay, endDay, offset), AnalysedOn(startDay, endDay, offset));
    CountSame(rows, OfKind(SuspiciousMail, startDay, endDay, offset), JudgedOn(Alerts.Suspicious, startDay, endDay, offset));
    CountSame(rows, OfKind(PhishingMail, startDay, endDay, offset), JudgedOn(Alerts.Phishing, startDay, endDay, offset));
  }

  // ------------------------------------------------------------------ agreement with the range query

  /** The same stored emails, as the timeline and as the range query read them. */
  predicate SameRows(rows: seq<Row>, stored: seq<LocalDays.Row>) {
    |rows| == |stored|
    && forall i :: 0 <= i < |rows| ==> rows[i].account == stored[i].account && rows[i].date == stored[i].date
  }

  lemma {:induction false} MatchingLast(rows: seq<LocalDays.Row>, last: LocalDays.Row, account: nat, start: string,
                                        end: string)
    ensures LocalDays.Matching(rows + [last], account, start, end)
            == LocalDays.Matching(rows, account, start, end) + if LocalDays.InSpan(last, account, start, end) then [last] else []
  {
    if rows == [] {
      assert rows + [last] == [last];
    } else {
      MatchingLast(rows[1..], last, account, start, end);
      assert (rows + [last])[1..] == rows[1..] + [last];
    }
  }

  lemma {:induction false} CountMatches(rows: seq<Row>, stored: seq<LocalDays.Row>, account: nat, p: Row -> bool,
                                        start: string, end: string)
    requires SameRows(rows, stored)
    requires forall i :: 0 <= i < |rows| && rows[i].account == account ==>
               (p(rows[i]) <==> LocalDays.InSpan(stored[i], account, start, end))
    ensures Count(Where(rows, OwnedBy(Some(account))), p) == |LocalDays.Matching(stored, account, start, end)|
  {
    if rows != [] {
      var n := |rows| - 1;
      CountMatches(rows[..n], stored[..n], account, p, start, end);
      assert stored == stored[..n] + [stored[n]];
      MatchingLast(stored[..n], stored[n], account, start, end);
      CountAppend(Where(rows[..n], OwnedBy(Some(account))), rows[n], p);
    }
  }

  lemma {:induction false} SpanByInstant(stored: LocalDays.Row, account: nat, start: Timestamp, end: Timestamp)
    requires Parse(stored.date).Some?
    ensures LocalDays.InSpan(stored, account, Print(start), Print(end)) <==>
            stored.account == account && Instant(start) <= Instant(Parse(stored.date).value) < Instant(end)
  {
    ParsePrint(start);
    ParsePrint(end);
    ParsedOrder(stored.date, Print(start));
    ParsedOrder(stored.date, Print(end));
  }

  /** The emails total of an account's timeline is the number of emails that the range query
      returns for the same local days, when the account's dates parse. */
  lemma {:induction false} TimelineAgreesWithQuery(rows: seq<Row>, stored: seq<LocalDays.Row>, account: nat,
                                                   startDay: int, endDay: int, offset: Offset, zone: LocalDays.Zone,
                                                   r: Result<Activity, ActivityError>, answer: seq<LocalDays.Row>)
    requires SameRows(rows, stored)
    requires forall i :: 0 <= i < |rows| && rows[i].account == account ==> Parse(rows[i].date).Some?
    requires DayBegins(offset, zone, startDay) && DayBegins(offset, zone, endDay + 1)
    requires LocalDays.LocalDateRange(startDay, endDay, zone).Ok?
    requires LocalDays.Answers(answer, stored, account, LocalDays.LocalDateRange(startDay, endDay, zone).value)
    requires IsActivity(Where(rows, OwnedBy(Some(account))), startDay, endDay, offset, r) && r.Ok?
    ensures r.value.emails == |answer|
  {
    var span := LocalDays.LocalDateRange(startDay, endDay, zone).value;
    var p := OfKind(AnyMail, startDay, endDay, offset);
    forall i | 0 <= i < |rows| && rows[i].account == account
      ensures p(rows[i]) <==> LocalDays.InSpan(stored[i], account, Print(span.start), Print(span.end))
    {
      OnDaysInRange(rows[i], startDay, endDay, offset, zone);
      SpanByInstant(stored[i], account, span.start, span.end);
    }
    CountMatches(rows, stored, account, p, Print(span.start), Print(span.end));
    LocalDays.AnswerLength(answer, stored, account, span);
  }

  /** Without an account the timeline is that of all mail. */
  lemma {:induction false} AllAccounts(rows: seq<Row>)
    ensures Where(rows, OwnedBy(None)) == rows
  {
    if rows != [] { AllAccounts(rows[..|rows| - 1]); }
  }
}
