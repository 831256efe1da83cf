/** Counting mail per local hour or day (src/heron/analysis/activity.py and
    src/heron/core/activity_storage.py). A time zone is its offset, in seconds east of UTC, as a
    function of the instant. */
module Activity {
  import Alerts
  import opened Ranges
  import opened StorageText
  import opened Wrappers

  const MAX_DAYS := 366

  type Offset = int -> int

  datatype Row = Row(account: nat, date: string, verdict: Option<Alerts.Verdict>)

  datatype Counts = Counts(emails: nat, suspicious: nat, phishing: nat)

  datatype Activity = Activity(hourly: bool, emails: nat, analysed: nat, suspicious: nat, phishing: nat, buckets: seq<Counts>)

  datatype ActivityError = EndBeforeStart | TooManyDays

  // ------------------------------------------------------------------ counting

  function Count(rows: seq<Row>, p: Row -> bool): nat {
    if rows == [] then 0 else Count(rows[..|rows| - 1], p) + if p(rows[|rows| - 1]) then 1 else 0
  }

  lemma {:induction false} CountSplits(rows: seq<Row>, p: Row -> bool, q: Row -> bool, s: Row -> bool)
    requires forall r :: p(r) <==> (q(r) || s(r))
    requires forall r :: !(q(r) && s(r))
    ensures Count(rows, p) == Count(rows, q) + Count(rows, s)
  {
    if rows != [] { CountSplits(rows[..|rows| - 1], p, q, s); }
  }

  lemma {:induction false} CountSame(rows: seq<Row>, p: Row -> bool, q: Row -> bool)
    requires forall r :: p(r) <==> q(r)
    ensures Count(rows, p) == Count(rows, q)
  {
    if rows != [] { CountSame(rows[..|rows| - 1], p, q); }
  }

  lemma {:induction false} CountNone(rows: seq<Row>, p: Row -> bool)
    requires forall r :: !p(r)
    ensures Count(rows, p) == 0
  {
    if rows != [] { CountNone(rows[..|rows| - 1], p); }
  }

  lemma {:induction false} CountStep(rows: seq<Row>, i: nat, p: Row -> bool)
    requires i < |rows|
    ensures Count(rows[..i + 1], p) == Count(rows[..i], p) + if p(rows[i]) then 1 else 0
  {
    assert rows[..i + 1][..i] == rows[..i];
  }

  // ------------------------------------------------------------------ days, hours, kinds

  /** The local time of a row, if its date parses. */
  function LocalTime(r: Row, offset: Offset): Option<int> {
    match Parse(r.date)
    case None => None
    case Some(c) => Some(Instant(c) + offset(Instant(c)))
  }

  datatype Kind = AnyMail | AnalysedMail | SuspiciousMail | PhishingMail

  predicate IsKind(r: Row, kind: Kind) {
    match kind
    case AnyMail => true
    case AnalysedMail => r.verdict.Some?
    case SuspiciousMail => r.verdict == Some(Alerts.Suspicious)
    case PhishingMail => r.verdict == Some(Alerts.Phishing)
  }

  predicate OnDays(r: Row, startDay: int, endDay: int, offset: Offset) {
    var local := LocalTime(r, offset);
    local.Some? && startDay <= local.value / DAY <= endDay
  }

  /** Rows of one kind on some local days. */
  function OfKind(kind: Kind, startDay: int, endDay: int, offset: Offset): Row -> bool {
    r => IsKind(r, kind) && OnDays(r, startDay, endDay, offset)
  }

  /** The bucket of a row on the requested days: the hour of a single day, or the day. */
  function Slot(r: Row, startDay: int, hourly: bool, offset: Offset): int
    requires LocalTime(r, offset).Some?
  {
    var local := LocalTime(r, offset).value;
    if hourly then local % DAY / 3600 else local / DAY - startDay
  }

  function InSlots(kind: Kind, startDay: int, endDay: int, offset: Offset, first: int, last: int): Row -> bool {
    r => IsKind(r, kind) && OnDays(r, startDay, endDay, offset)
         && first <= Slot(r, startDay, startDay == endDay, offset) < last
  }

  /** What one bucket counts. */
  function Bucket(rows: seq<Row>, startDay: int, endDay: int, offset: Offset, slot: int): Counts {
    Counts(Count(rows, InSlots(AnyMail, startDay, endDay, offset, slot, slot + 1)),
           Count(rows, InSlots(SuspiciousMail, startDay, endDay, offset, slot, slot + 1)),
           Count(rows, InSlots(PhishingMail, startDay, endDay, offset, slot, slot + 1)))
  }

  function SlotCount(startDay: int, endDay: int): nat
    requires startDay <= endDay
  {
    if startDay == endDay then 24 else endDay - startDay + 1
  }

  function Total(rows: seq<Row>, kind: Kind, startDay: int, endDay: int, offset: Offset): nat {
    Count(rows, OfKind(kind, startDay, endDay, offset))
  }

  /** What the activity of some local days is: each total counts rows directly, without buckets. */
  ghost predicate IsActivity(rows: seq<Row>, startDay: int, endDay: int, offset: Offset, r: Result<Activity, ActivityError>) {
    if endDay < startDay then r == Err(EndBeforeStart)
    else if endDay - startDay + 1 > MAX_DAYS then r == Err(TooManyDays)
    else
      && r.Ok? && r.value.hourly == (startDay == endDay)
      && r.value.emails == Total(rows, AnyMail, startDay, endDay, offset)
      && r.value.analysed == Total(rows, AnalysedMail, startDay, endDay, offset)
      && r.value.suspicious == Total(rows, SuspiciousMail, startDay, endDay, offset)
      && r.value.phishing == Total(rows, PhishingMail, startDay, endDay, offset)
      && |r.value.buckets| == SlotCount(startDay, endDay)
      && forall b :: 0 <= b < |r.value.buckets| ==> r.value.buckets[b] == Bucket(rows, startDay, endDay, offset, b)
  }

  // ------------------------------------------------------------------ the loop

  lemma {:induction false} SlotInRange(r: Row, startDay: int, endDay: int, offset: Offset)
    requires OnDays(r, startDay, endDay, offset)
    ensures startDay <= endDay && 0 <= Slot(r, startDay, startDay == endDay, offset) < SlotCount(startDay, endDay)
  {
  }

  function Plus(c: Counts, r: Row): Counts {
    Counts(c.emails + 1, c.suspicious + (if IsKind(r, SuspiciousMail) then 1 else 0),
           c.phishing + if IsKind(r, PhishingMail) then 1 else 0)
  }

  lemma {:induction false} BucketStep(rows: seq<Row>, i: nat, startDay: int, endDay: int, offset: Offset, slot: int)
    requires i < |rows|
    ensures var r := rows[i];
            Bucket(rows[..i + 1], startDay, endDay, offset, slot)
            == if OnDays(r, startDay, endDay, offset) && Slot(r, startDay, startDay == endDay, offset) == slot
               then Plus(Bucket(rows[..i], startDay, endDay, offset, slot), r)
               else Bucket(rows[..i], startDay, endDay, offset, slot)
  {
    CountStep(rows, i, InSlots(AnyMail, startDay, endDay, offset, slot, slot + 1));
    CountStep(rows, i, InSlots(SuspiciousMail, startDay, endDay, offset, slot, slot + 1));
    CountStep(rows, i, InSlots(PhishingMail, startDay, endDay, offset, slot, slot + 1));
  }

  method CountRows(rows: seq<Row>, startDay: int, endDay: int, offset: Offset)
      returns (counts: seq<Counts>, analysed: nat)
    requires startDay <= endDay
    ensures |counts| == SlotCount(startDay, endDay)
    ensures forall b :: 0 <= b < |counts| ==> counts[b] == Bucket(rows, startDay, endDay, offset, b)
    ensures analysed == Total(rows, AnalysedMail, startDay, endDay, offset)
  {
    var hourly := startDay == endDay;
    counts := seq(SlotCount(startDay, endDay), _ => Counts(0, 0, 0));
    analysed := 0;
    assert rows[..0] == [];
    for i := 0 to |rows|
      invariant |counts| == SlotCount(startDay, endDay)
      invariant forall b :: 0 <= b < |counts| ==> counts[b] == Bucket(rows[..i], startDay, endDay, offset, b)
      invariant analysed == Total(rows[..i], AnalysedMail, startDay, endDay, offset)
    {
      var r := rows[i];
      CountStep(rows, i, OfKind(AnalysedMail, startDay, endDay, offset));
      forall b { BucketStep(rows, i, startDay, endDay, offset, b); }
      if OnDays(r, startDay, endDay, offset) {
        SlotInRange(r, startDay, endDay, offset);
        var slot := Slot(r, startDay, hourly, offset);
        counts := counts[slot := Plus(counts[slot], r)];
        if r.verdict.Some? {
          analysed := analysed + 1;
        }
      }
    }
    assert rows[..|rows|] == rows;
  }

  /** The buckets partition the rows on the requested days. */
  lemma {:induction false} SlotsAddUp(rows: seq<Row>, kind: Kind, startDay: int, endDay: int, offset: Offset, n: nat)
    ensures Count(rows, InSlots(kind, startDay, endDay, offset, 0, n + 1))
            == Count(rows, InSlots(kind, startDay, endDay, offset, 0, n))
               + Count(rows, InSlots(kind, startDay, endDay, offset, n, n + 1))
  {
    CountSplits(rows, InSlots(kind, startDay, endDay, offset, 0, n + 1),
                InSlots(kind, startDay, endDay, offset, 0, n), InSlots(kind, startDay, endDay, offset, n, n + 1));
  }

  lemma {:induction false} AllSlots(rows: seq<Row>, kind: Kind, startDay: int, endDay: int, offset: Offset)
    requires startDay <= endDay
    ensures Count(rows, InSlots(kind, startDay, endDay, offset, 0, 0)) == 0
    ensures Count(rows, InSlots(kind, startDay, endDay, offset, 0, SlotCount(startDay, endDay)))
            == Total(rows, kind, startDay, endDay, offset)
  {
    CountNone(rows, InSlots(kind, startDay, endDay, offset, 0, 0));
    var n := SlotCount(startDay, endDay);
    forall r ensures InSlots(kind, startDay, endDay, offset, 0, n)(r) <==> OfKind(kind, startDay, endDay, offset)(r) {
      if OnDays(r, startDay, endDay, offset) { SlotInRange(r, startDay, endDay, offset); }
    }
    CountSame(rows, InSlots(kind, startDay, endDay, offset, 0, n), OfKind(kind, startDay, endDay, offset));
  }

  method SumBuckets(rows: seq<Row>, startDay: int, endDay: int, offset: Offset, buckets: seq<Counts>)
      returns (sum: Counts)
    requires startDay <= endDay && |buckets| == SlotCount(startDay, endDay)
    requires forall b :: 0 <= b < |buckets| ==> buckets[b] == Bucket(rows, startDay, endDay, offset, b)
    ensures sum.emails == Total(rows, AnyMail, startDay, endDay, offset)
    ensures sum.suspicious == Total(rows, SuspiciousMail, startDay, endDay, offset)
    ensures sum.phishing == Total(rows, PhishingMail, startDay, endDay, offset)
  {
    sum := Counts(0, 0, 0);
    AllSlots(rows, AnyMail, startDay, endDay, offset);
    AllSlots(rows, SuspiciousMail, startDay, endDay, offset);
    AllSlots(rows, PhishingMail, startDay, endDay, offset);
    for b := 0 to |buckets|
      invariant sum.emails == Count(rows, InSlots(AnyMail, startDay, endDay, offset, 0, b))
      invariant sum.suspicious == Count(rows, InSlots(SuspiciousMail, startDay, endDay, offset, 0, b))
      invariant sum.phishing == Count(rows, InSlots(PhishingMail, startDay, endDay, offset, 0, b))
    {
      SlotsAddUp(rows, AnyMail, startDay, endDay, offset, b);
      SlotsAddUp(rows, SuspiciousMail, startDay, endDay, offset, b);
      SlotsAddUp(rows, PhishingMail, startDay, endDay, offset, b);
      sum := Counts(sum.emails + buckets[b].emails, sum.suspicious + buckets[b].suspicious,
                    sum.phishing + buckets[b].phishing);
    }
  }

  method BuildActivity(rows: seq<Row>, startDay: int, endDay: int, offset: Offset)
      returns (r: Result<Activity, ActivityError>)
    ensures IsActivity(rows, startDay, endDay, offset, r)
    ensures r.Err? <==> endDay < startDay || endDay - startDay >= 366
    ensures r.Ok? ==> |r.value.buckets| == if startDay == endDay then 24 else endDay - startDay + 1
  {
    if endDay < startDay {
      return Err(EndBeforeStart);
    }
    if endDay - startDay + 1 > MAX_DAYS {
      return Err(TooManyDays);
    }
    var counts, analysed := CountRows(rows, startDay, endDay, offset);
    var sum := SumBuckets(rows, startDay, endDay, offset, counts);
    r := Ok(Activity(startDay == endDay, sum.emails, analysed, sum.suspicious, sum.phishing, counts));
  }

  // ------------------------------------------------------------------ conservation

  /** Suspicious and phishing mail is analysed, analysed mail is mail. */
  lemma {:induction false} VerdictsNest(rows: seq<Row>, startDay: int, endDay: int, offset: Offset)
    ensures Total(rows, SuspiciousMail, startDay, endDay, offset) + Total(rows, PhishingMail, startDay, endDay, offset)
            <= Total(rows, AnalysedMail, startDay, endDay, offset) <= Total(rows, AnyMail, startDay, endDay, offset)
  {
    var any, analysed := OfKind(AnyMail, startDay, endDay, offset), OfKind(AnalysedMail, startDay, endDay, offset);
    var suspicious := OfKind(SuspiciousMail, startDay, endDay, offset);
    var phishing := OfKind(PhishingMail, startDay, endDay, offset);
    CountSplits(rows, any, analysed, r => any(r) && !analysed(r));
    CountSplits(rows, r => suspicious(r) || phishing(r), suspicious, phishing);
    CountSplits(rows, analysed, r => suspicious(r) || phishing(r), r => analysed(r) && !(suspicious(r) || phishing(r)));
  }

  /** Splitting a range of days adds up, for every kind of mail. */
  lemma {:induction false} DaysAddUp(rows: seq<Row>, kind: Kind, a: int, b: int, c: int, offset: Offset)
    requires a <= b + 1 <= c + 1
    ensures Total(rows, kind, a, c, offset) == Total(rows, kind, a, b, offset) + Total(rows, kind, b + 1, c, offset)
  {
    CountSplits(rows, OfKind(kind, a, c, offset), OfKind(kind, a, b, offset), OfKind(kind, b + 1, c, offset));
  }

  lemma {:induction false} BucketIsDay(rows: seq<Row>, kind: Kind, startDay: int, endDay: int, day: int, offset: Offset)
    requires startDay <= day <= endDay && startDay < endDay
    ensures Count(rows, InSlots(kind, startDay, endDay, offset, day - startDay, day - startDay + 1))
            == Total(rows, kind, day, day, offset)
  {
    CountSame(rows, InSlots(kind, startDay, endDay, offset, day - startDay, day - startDay + 1),
              OfKind(kind, day, day, offset));
  }

  /** The totals of a day shown by hour are that day's bucket in every wider view. */
  lemma {:induction false} HourlyTotalIsDayBucket(rows: seq<Row>, startDay: int, endDay: int, day: int,
                                                  offset: Offset, wide: Result<Activity, ActivityError>,
                                                  narrow: Result<Activity, ActivityError>)
    requires startDay <= day <= endDay && startDay < endDay && endDay - startDay < MAX_DAYS
    requires IsActivity(rows, startDay, endDay, offset, wide) && IsActivity(rows, day, day, offset, narrow)
    ensures narrow.Ok? && narrow.value.hourly && wide.Ok?
    ensures wide.value.buckets[day - startDay]
            == Counts(narrow.value.emails, narrow.value.suspicious, narrow.value.phishing)
  {
    BucketIsDay(rows, AnyMail, startDay, endDay, day, offset);
    BucketIsDay(rows, SuspiciousMail, startDay, endDay, day, offset);
    BucketIsDay(rows, PhishingMail, startDay, endDay, day, offset);
  }

  // ------------------------------------------------------------------ the prefetched window

  predicate OfAccount(r: Row, account: Option<nat>) {
    account.None? || account.value == r.account
  }

  function OwnedBy(account: Option<nat>): Row -> bool {
    r => OfAccount(r, account)
  }

  predicate InWindow(r: Row, account: Option<nat>, start: string, end: string) {
    !Less(r.date, start) && Less(r.date, end) && OfAccount(r, account)
  }

  /** The rows that satisfy a predicate, in order. */
  function Where(rows: seq<Row>, p: Row -> bool): seq<Row> {
    if rows == [] then [] else
    Where(rows[..|rows| - 1], p) + if p(rows[|rows| - 1]) then [rows[|rows| - 1]] else []
  }

  function FetchActivityRows(rows: seq<Row>, account: Option<nat>, start: string, end: string): seq<Row> {
    Where(rows, r => InWindow(r, account, start, end))
  }

  lemma {:induction false} CountWhere(rows: seq<Row>, keep: Row -> bool, also: Row -> bool, p: Row -> bool)
    requires forall r :: p(r) && also(r) ==> keep(r)
    requires forall r :: keep(r) ==> also(r)
    ensures Count(Where(rows, keep), p) == Count(Where(rows, also), p)
  {
    if rows != [] {
      CountWhere(rows[..|rows| - 1], keep, also, p);
      CountAppend(Where(rows[..|rows| - 1], keep), rows[|rows| - 1], p);
      CountAppend(Where(rows[..|rows| - 1], also), rows[|rows| - 1], p);
    }
  }

  lemma {:induction false} CountAppend(rows: seq<Row>, r: Row, p: Row -> bool)
    ensures Count(rows + [r], p) == Count(rows, p) + (if p(r) then 1 else 0)
    ensures rows + [] == rows
  {
    assert (rows + [r])[..|rows|] == rows;
  }

  /** Offsets of at most a day. */
  ghost predicate WithinADay(offset: Offset) {
    forall t :: -DAY <= offset(t) <= DAY
  }

  /** The texts of the window: midnight a day before the first day, and two days after the last. */
  predicate IsWindow(startDay: int, endDay: int, first: Timestamp, last: Timestamp) {
    Instant(first) == (startDay - 1) * DAY && Instant(last) == (endDay + 2) * DAY
  }

  /** Every row on the requested days lies in the window. */
  lemma {:induction false} WindowHoldsDays(r: Row, startDay: int, endDay: int, offset: Offset, first: Timestamp,
                                           last: Timestamp)
    requires WithinADay(offset) && IsWindow(startDay, endDay, first, last) && OnDays(r, startDay, endDay, offset)
    ensures !Less(r.date, Print(first)) && Less(r.date, Print(last))
  {
    ParsePrint(first);
    ParsePrint(last);
    ParsedOrder(r.date, Print(first));
    ParsedOrder(r.date, Print(last));
    var t := Instant(Parse(r.date).value);
    assert -DAY <= offset(t) <= DAY;
    DayBounds(t + offset(t), startDay, endDay);
  }

  lemma {:induction false} DayBounds(local: int, startDay: int, endDay: int)
    ensures startDay <= local / DAY <= endDay <==> startDay * DAY <= local < (endDay + 1) * DAY
  {
  }

  /** The window drops no row on the requested days, for a fixed offset, if and only if the
      offset is at most a day. */
  lemma {:induction false} WindowExact(startDay: int, endDay: int, zone: int)
    requires startDay <= endDay
    ensures -DAY <= zone <= DAY <==>
            forall t :: startDay <= CalendarDay(t, zone) <= endDay ==> (startDay - 1) * DAY <= t < (endDay + 2) * DAY
  {
    forall t ensures startDay <= CalendarDay(t, zone) <= endDay <==> startDay * DAY <= t + zone < (endDay + 1) * DAY {
      DayBounds(t + zone, startDay, endDay);
    }
    if zone > DAY {
      assert startDay <= CalendarDay(startDay * DAY - zone, zone) <= endDay;
    } else if zone < -DAY {
      assert startDay <= CalendarDay((endDay + 1) * DAY - 1 - zone, zone) <= endDay;
    }
  }

  lemma {:induction false} TotalFromWindow(rows: seq<Row>, account: Option<nat>, kind: Kind, startDay: int,
                                           endDay: int, offset: Offset, first: Timestamp, last: Timestamp)
    requires WithinADay(offset) && IsWindow(startDay, endDay, first, last)
    ensures Total(FetchActivityRows(rows, account, Print(first), Print(last)), kind, startDay, endDay, offset)
            == Total(Where(rows, OwnedBy(account)), kind, startDay, endDay, offset)
  {
    forall r | OnDays(r, startDay, endDay, offset) { WindowHoldsDays(r, startDay, endDay, offset, first, last); }
    CountWhere(rows, r => InWindow(r, account, Print(first), Print(last)), OwnedBy(account),
               OfKind(kind, startDay, endDay, offset));
  }

  lemma {:induction false} BucketFromWindow(rows: seq<Row>, account: Option<nat>, startDay: int, endDay: int,
                                            offset: Offset, first: Timestamp, last: Timestamp, slot: int)
    requires WithinADay(offset) && IsWindow(startDay, endDay, first, last)
    ensures Bucket(FetchActivityRows(rows, account, Print(first), Print(last)), startDay, endDay, offset, slot)
            == Bucket(Where(rows, OwnedBy(account)), startDay, endDay, offset, slot)
  {
    forall r | OnDays(r, startDay, endDay, offset) { WindowHoldsDays(r, startDay, endDay, offset, first, last); }
    var keep, also := r => InWindow(r, account, Print(first), Print(last)), OwnedBy(account);
    CountWhere(rows, keep, also, InSlots(AnyMail, startDay, endDay, offset, slot, slot + 1));
    CountWhere(rows, keep, also, InSlots(SuspiciousMail, startDay, endDay, offset, slot, slot + 1));
    CountWhere(rows, keep, also, InSlots(PhishingMail, startDay, endDay, offset, slot, slot + 1));
  }

  /** The activity of the fetched window is the activity of all the account's mail. */
  method ActivityFor(rows: seq<Row>, account: Option<nat>, startDay: int, endDay: int, offset: Offset,
                     first: Timestamp, last: Timestamp) returns (r: Result<Activity, ActivityError>)
    requires WithinADay(offset) && IsWindow(startDay, endDay, first, last)
    ensures IsActivity(Where(rows, OwnedBy(account)), startDay, endDay, offset, r)
  {
    if endDay < startDay {
      return Err(EndBeforeStart);
    }
    var fetched := FetchActivityRows(rows, account, Print(first), Print(last));
    r := BuildActivity(fetched, startDay, endDay, offset);
    forall kind: Kind { TotalFromWindow(rows, account, kind, startDay, endDay, offset, first, last); }
    forall slot: int { BucketFromWindow(rows, account, startDay, endDay, offset, first, last, slot); }
  }
}
