/** Local calendar days as UTC ranges (src/heron/core/timeutil.py), and the emails in a range
    (src/heron/core/storage.py). The time zone is the function from local days to the UTC time of
    their midnights. */
module LocalDays {
  import opened StorageText
  import opened Wrappers

  type Zone = int -> Timestamp

  /** A half-open range of instants; the constructor refuses an empty one. */
  datatype Span = Span(start: Timestamp, end: Timestamp)

  datatype RangeError = EndDayBeforeStartDay | StartNotBeforeEnd

  function MakeSpan(start: Timestamp, end: Timestamp): Result<Span, RangeError> {
    if Instant(start) >= Instant(end) then Err(StartNotBeforeEnd) else Ok(Span(start, end))
  }

  function LocalDayRange(day: int, zone: Zone): Result<Span, RangeError> {
    MakeSpan(zone(day), zone(day + 1))
  }

  function LocalDateRange(startDay: int, endDay: int, zone: Zone): Result<Span, RangeError> {
    if endDay < startDay then Err(EndDayBeforeStartDay) else
    match (LocalDayRange(startDay, zone), LocalDayRange(endDay, zone))
    case (Err(e), _) => Err(e)
    case (_, Err(e)) => Err(e)
    case (Ok(first), Ok(last)) => MakeSpan(first.start, last.end)
  }

  ghost predicate MidnightsIncrease(zone: Zone) {
    forall i, j :: i < j ==> Instant(zone(i)) < Instant(zone(j))
  }

  /** Where every midnight is later than the one before, every request gets its range. */
  lemma {:induction false} EveryDayHasARange(startDay: int, endDay: int, zone: Zone)
    requires MidnightsIncrease(zone)
    ensures LocalDateRange(startDay, endDay, zone)
            == if endDay < startDay then Err(EndDayBeforeStartDay) else Ok(Span(zone(startDay), zone(endDay + 1)))
  {
  }

  /** A range runs from the midnight of the first day to the midnight after the last. */
  lemma {:induction false} RangeIs(startDay: int, endDay: int, zone: Zone)
    requires LocalDateRange(startDay, endDay, zone).Ok?
    ensures LocalDateRange(startDay, endDay, zone).value == Span(zone(startDay), zone(endDay + 1))
    ensures startDay <= endDay && Instant(zone(startDay)) < Instant(zone(endDay + 1))
  {
  }

  // ------------------------------------------------------------------ emails in a range

  /** A stored email; `date` is its INTERNALDATE as storage text. */
  datatype Row = Row(id: nat, account: nat, date: string)

  predicate InSpan(row: Row, account: nat, start: string, end: string) {
    row.account == account && !Less(row.date, start) && Less(row.date, end)
  }

  function Matching(rows: seq<Row>, account: nat, start: string, end: string): seq<Row> {
    if rows == [] then [] else
    (if InSpan(rows[0], account, start, end) then [rows[0]] else []) + Matching(rows[1..], account, start, end)
  }

  ghost predicate Ordered(rows: seq<Row>) {
    forall i, j :: 0 <= i < j < |rows| ==> !Less(rows[j].date, rows[i].date)
  }

  /** An answer of the query: the matching rows, oldest first. Rows with equal dates may come in
      any order. */
  ghost predicate Selects(answer: seq<Row>, rows: seq<Row>, account: nat, start: string, end: string) {
    Ordered(answer) && multiset(answer) == multiset(Matching(rows, account, start, end))
  }

  ghost predicate Answers(answer: seq<Row>, rows: seq<Row>, account: nat, span: Span) {
    Selects(answer, rows, account, Print(span.start), Print(span.end))
  }

  function Insert(row: Row, rows: seq<Row>): seq<Row> {
    if rows == [] || !Less(rows[0].date, row.date) then [row] + rows else [rows[0]] + Insert(row, rows[1..])
  }

  lemma {:induction false} InsertKeeps(row: Row, rows: seq<Row>)
    ensures multiset(Insert(row, rows)) == multiset(rows) + multiset{row}
  {
    if rows != [] && Less(rows[0].date, row.date) {
      InsertKeeps(row, rows[1..]);
      assert rows == [rows[0]] + rows[1..];
    }
  }

  lemma {:induction false} InsertOrders(row: Row, rows: seq<Row>)
    requires Ordered(rows)
    ensures Ordered(Insert(row, rows))
  {
    if rows != [] && Less(rows[0].date, row.date) {
      InsertOrders(row, rows[1..]);
      var rest := Insert(row, rows[1..]);
      InsertKeeps(row, rows[1..]);
      LessOrder(rows[0].date, row.date, row.date);
      forall j | 0 <= j < |rest| ensures !Less(rest[j].date, rows[0].date) {
        assert rest[j] in multiset(rest);
        assert rest[j] == row || rest[j] in rows[1..];
      }
    } else if rows != [] {
      forall j | 0 <= j < |rows| ensures !Less(rows[j].date, row.date) {
        LessOrder(row.date, rows[0].date, rows[j].date);
      }
    }
  }

  /** The query as a sort of the matching rows. */
  method GetEmailsInRange(rows: seq<Row>, account: nat, span: Span) returns (answer: seq<Row>)
    ensures Answers(answer, rows, account, span)
  {
    var start, end := Print(span.start), Print(span.end);
    answer := [];
    for i := |rows| downto 0
      invariant Ordered(answer) && multiset(answer) == multiset(Matching(rows[i..], account, start, end))
    {
      assert rows[i..][1..] == rows[i + 1..];
      if InSpan(rows[i], account, start, end) {
        InsertOrders(rows[i], answer);
        InsertKeeps(rows[i], answer);
        answer := Insert(rows[i], answer);
      }
    }
    assert rows[0..] == rows;
  }

  /** The rows found are those of the account whose date, where it parses, is in the range. */
  lemma {:induction false} MatchesByInstant(rows: seq<Row>, account: nat, span: Span, row: Row)
    requires Parse(row.date).Some?
    ensures row in Matching(rows, account, Print(span.start), Print(span.end)) <==>
            && row in rows && row.account == account
            && Instant(span.start) <= Instant(Parse(row.date).value) < Instant(span.end)
  {
    if rows != [] {
      MatchesByInstant(rows[1..], account, span, row);
      ParsePrint(span.start);
      ParsePrint(span.end);
      ParsedOrder(row.date, Print(span.start));
      ParsedOrder(row.date, Print(span.end));
      assert rows == [rows[0]] + rows[1..];
    }
  }

  /** An answer holds exactly the matching rows. */
  lemma {:induction false} AnswerMembers(answer: seq<Row>, rows: seq<Row>, account: nat, span: Span, row: Row)
    requires Answers(answer, rows, account, span)
    ensures row in answer <==> row in Matching(rows, account, Print(span.start), Print(span.end))
  {
    var found := Matching(rows, account, Print(span.start), Print(span.end));
    assert row in answer <==> row in multiset(answer);
    assert row in found <==> row in multiset(found);
  }

  lemma {:induction false} AnswerLength(answer: seq<Row>, rows: seq<Row>, account: nat, span: Span)
    requires Answers(answer, rows, account, span)
    ensures |answer| == |Matching(rows, account, Print(span.start), Print(span.end))|
  {
    assert |multiset(answer)| == |multiset(Matching(rows, account, Print(span.start), Print(span.end)))|;
  }

  // ------------------------------------------------------------------ tiling

  function IfInSpan(row: Row, account: nat, start: string, end: string): multiset<Row> {
    if InSpan(row, account, start, end) then multiset{row} else multiset{}
  }

  lemma {:induction false} MatchingStep(rows: seq<Row>, account: nat, start: string, end: string)
    requires rows != []
    ensures multiset(Matching(rows, account, start, end))
            == IfInSpan(rows[0], account, start, end) + multiset(Matching(rows[1..], account, start, end))
  {
  }

  lemma {:induction false} MatchingTiles(rows: seq<Row>, account: nat, a: string, b: string, c: string)
    requires Less(a, b) && Less(b, c)
    ensures multiset(Matching(rows, account, a, c))
            == multiset(Matching(rows, account, a, b)) + multiset(Matching(rows, account, b, c))
  {
    if rows != [] {
      MatchingTiles(rows[1..], account, a, b, c);
      MatchingStep(rows, account, a, b);
      MatchingStep(rows, account, b, c);
      MatchingStep(rows, account, a, c);
      Between(rows[0].date, a, b, c);
      assert IfInSpan(rows[0], account, a, c) == IfInSpan(rows[0], account, a, b) + IfInSpan(rows[0], account, b, c);
    }
  }

  /** A date is in the whole if and only if it is in exactly one part. */
  lemma {:induction false} Between(date: string, a: string, b: string, c: string)
    requires Less(a, b) && Less(b, c)
    ensures !Less(date, a) && Less(date, c) <==> ((!Less(date, a) && Less(date, b)) || (!Less(date, b) && Less(date, c)))
  {
    LessOrder(date, b, c);
    LessOrder(b, date, date);
    LessOrder(a, b, date);
  }

  lemma {:induction false} MatchingInSpan(rows: seq<Row>, account: nat, a: string, b: string, row: Row)
    requires row in Matching(rows, account, a, b)
    ensures InSpan(row, account, a, b)
  {
    if !(InSpan(rows[0], account, a, b) && row == rows[0]) { MatchingInSpan(rows[1..], account, a, b, row); }
  }

  lemma {:induction false} PartsJoin(rows: seq<Row>, account: nat, x: string, y: string, z: string, first: seq<Row>,
                                     second: seq<Row>)
    requires Less(x, y) && Less(y, z)
    requires Selects(first, rows, account, x, y) && Selects(second, rows, account, y, z)
    ensures Selects(first + second, rows, account, x, z)
    ensures multiset(first) !! multiset(second)
  {
    MatchingTiles(rows, account, x, y, z);
    forall i, j | 0 <= i < |first| && 0 <= j < |second|
      ensures !Less(second[j].date, first[i].date) && first[i] != second[j]
    {
      assert first[i] in multiset(first) && second[j] in multiset(second);
      MatchingSides(rows, account, x, y, z, first[i]);
      MatchingSides(rows, account, x, y, z, second[j]);
      LessOrder(first[i].date, y, second[j].date);
      LessOrder(first[i].date, second[j].date, second[j].date);
    }
    forall r ensures !(r in multiset(first) && r in multiset(second)) { }
  }

  lemma {:induction false} MatchingSides(rows: seq<Row>, account: nat, a: string, b: string, c: string, r: Row)
    ensures r in Matching(rows, account, a, b) ==> Less(r.date, b)
    ensures r in Matching(rows, account, b, c) ==> !Less(r.date, b)
  {
    if r in Matching(rows, account, a, b) { MatchingInSpan(rows, account, a, b, r); }
    if r in Matching(rows, account, b, c) { MatchingInSpan(rows, account, b, c, r); }
  }

  /** Two adjacent ranges and their union. */
  lemma {:induction false} PartsOf(a: int, b: int, c: int, zone: Zone)
    requires LocalDateRange(a, b, zone).Ok? && LocalDateRange(b + 1, c, zone).Ok?
    ensures LocalDateRange(a, b, zone).value == Span(zone(a), zone(b + 1))
    ensures LocalDateRange(b + 1, c, zone).value == Span(zone(b + 1), zone(c + 1))
    ensures LocalDateRange(a, c, zone) == Ok(Span(zone(a), zone(c + 1)))
    ensures Less(Print(zone(a)), Print(zone(b + 1))) && Less(Print(zone(b + 1)), Print(zone(c + 1)))
  {
    TextOrder(zone(a), zone(b + 1));
    TextOrder(zone(b + 1), zone(c + 1));
  }

  /** Days tile: one answer for days a..b followed by one for days b+1..c is an answer for a..c. */
  lemma {:induction false} DaysTile(rows: seq<Row>, account: nat, a: int, b: int, c: int, zone: Zone, first: seq<Row>,
                                    second: seq<Row>)
    requires LocalDateRange(a, b, zone).Ok? && LocalDateRange(b + 1, c, zone).Ok?
    requires Answers(first, rows, account, LocalDateRange(a, b, zone).value)
    requires Answers(second, rows, account, LocalDateRange(b + 1, c, zone).value)
    ensures LocalDateRange(a, c, zone).Ok?
    ensures Answers(first + second, rows, account, LocalDateRange(a, c, zone).value)
    ensures multiset(first) !! multiset(second)
  {
    PartsOf(a, b, c, zone);
    PartsJoin(rows, account, Print(zone(a)), Print(zone(b + 1)), Print(zone(c + 1)), first, second);
  }

  function EarlyPrefix(rows: seq<Row>, mid: string): (k: nat)
    ensures k <= |rows|
  {
    if rows == [] || !Less(rows[0].date, mid) then 0 else 1 + EarlyPrefix(rows[1..], mid)
  }

  lemma {:induction false} EarlyPrefixSplits(rows: seq<Row>, mid: string)
    requires Ordered(rows)
    ensures forall i :: 0 <= i < |rows| ==> (Less(rows[i].date, mid) <==> i < EarlyPrefix(rows, mid))
  {
    if rows != [] {
      if Less(rows[0].date, mid) {
        EarlyPrefixSplits(rows[1..], mid);
        assert forall i :: 0 < i < |rows| ==> rows[i] == rows[1..][i - 1];
      } else {
        forall i | 0 <= i < |rows| ensures !Less(rows[i].date, mid) {
          LessOrder(mid, rows[0].date, rows[i].date);
        }
      }
    }
  }

  lemma {:induction false} SplitMultiset(whole: multiset<Row>, p: multiset<Row>, q: multiset<Row>, x: multiset<Row>,
                                         y: multiset<Row>, mid: string)
    requires p + q == whole == x + y
    requires forall r :: (r in p || r in x ==> Less(r.date, mid)) && (r in q || r in y ==> !Less(r.date, mid))
    ensures p == x && q == y
  {
    forall r: Row ensures p[r] == x[r] && q[r] == y[r] {
      assert p[r] + q[r] == whole[r] == x[r] + y[r];
    }
  }

  lemma {:induction false} SplitOrdered(whole: seq<Row>, mid: string) returns (first: seq<Row>, second: seq<Row>)
    requires Ordered(whole)
    ensures whole == first + second && Ordered(first) && Ordered(second)
    ensures forall r :: (r in multiset(first) ==> Less(r.date, mid)) && (r in multiset(second) ==> !Less(r.date, mid))
  {
    EarlyPrefixSplits(whole, mid);
    var k := EarlyPrefix(whole, mid);
    first, second := whole[..k], whole[k..];
    assert whole == first + second;
    forall r ensures (r in multiset(first) ==> Less(r.date, mid)) && (r in multiset(second) ==> !Less(r.date, mid)) {
    }
  }

  lemma {:induction false} PartsSplit(rows: seq<Row>, account: nat, x: string, y: string, z: string, whole: seq<Row>)
      returns (first: seq<Row>, second: seq<Row>)
    requires Less(x, y) && Less(y, z) && Selects(whole, rows, account, x, z)
    ensures whole == first + second
    ensures Selects(first, rows, account, x, y) && Selects(second, rows, account, y, z)
  {
    var early, late := multiset(Matching(rows, account, x, y)), multiset(Matching(rows, account, y, z));
    MatchingTiles(rows, account, x, y, z);
    first, second := SplitOrdered(whole, y);
    forall r ensures (r in early ==> Less(r.date, y)) && (r in late ==> !Less(r.date, y)) {
      MatchingSides(rows, account, x, y, z, r);
    }
    SplitMultiset(multiset(whole), multiset(first), multiset(second), early, late, y);
  }

  /** Conversely, every answer for the whole is an answer for the first days followed by one for
      the later days. */
  lemma {:induction false} DaysSplit(rows: seq<Row>, account: nat, a: int, b: int, c: int, zone: Zone, whole: seq<Row>)
      returns (first: seq<Row>, second: seq<Row>)
    requires LocalDateRange(a, b, zone).Ok? && LocalDateRange(b + 1, c, zone).Ok? && LocalDateRange(a, c, zone).Ok?
    requires Answers(whole, rows, account, LocalDateRange(a, c, zone).value)
    ensures whole == first + second
    ensures Answers(first, rows, account, LocalDateRange(a, b, zone).value)
    ensures Answers(second, rows, account, LocalDateRange(b + 1, c, zone).value)
  {
    PartsOf(a, b, c, zone);
    first, second := PartsSplit(rows, account, Print(zone(a)), Print(zone(b + 1)), Print(zone(c + 1)), whole);
  }
}
