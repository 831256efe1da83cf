/** Timestamps as storage text, "YYYY-MM-DD HH:MM:SS" in UTC (src/heron/core/timeutil.py). */
module StorageText {
  import opened Ranges
  import opened Wrappers

  // ------------------------------------------------------------------ the calendar

  /** A UTC date and time of day, to the second. */
  datatype Civil = Civil(year: nat, month: nat, day: nat, hour: nat, minute: nat, second: nat)

  predicate IsLeap(year: nat) {
    year % 4 == 0 && (year % 100 != 0 || year % 400 == 0)
  }

  function DaysInMonth(year: nat, month: nat): nat {
    if month == 2 then (if IsLeap(year) then 29 else 28)
    else if month == 4 || month == 6 || month == 9 || month == 11 then 30
    else 31
  }

  function DaysBeforeMonth(year: nat, month: nat): nat {
    if month <= 1 then 0 else DaysBeforeMonth(year, month - 1) + DaysInMonth(year, month - 1)
  }

  function DaysBeforeYear(year: nat): nat {
    if year == 0 then 0 else
    var y := year - 1;
    y * 365 + y / 4 - y / 100 + y / 400
  }

  /** Years are printed with four digits from 1000 on. */
  predicate Valid(c: Civil) {
    && 1000 <= c.year <= 9999 && 1 <= c.month <= 12 && 1 <= c.day <= DaysInMonth(c.year, c.month)
    && c.hour < 24 && c.minute < 60 && c.second < 60
  }

  type Timestamp = c: Civil | Valid(c) witness Civil(1000, 1, 1, 0, 0, 0)

  /** The number of the day, counted from the first day of year 1. */
  function DayNumber(c: Civil): int {
    DaysBeforeYear(c.year) + DaysBeforeMonth(c.year, c.month) + c.day
  }

  function TimeOfDay(c: Civil): int {
    c.hour * 3600 + c.minute * 60 + c.second
  }

  function Instant(c: Civil): int {
    DayNumber(c) * DAY + TimeOfDay(c)
  }

  /** The day number in closed form, without tables; the first day of 1970 is day 719163. */
  lemma {:induction false} DayNumberClosedForm(c: Timestamp)
    ensures DayNumber(c)
            == 365 * (c.year - 1) + (c.year - 1) / 4 - (c.year - 1) / 100 + (c.year - 1) / 400 + c.day
               + if c.month <= 2 then 31 * (c.month - 1)
                 else 59 + (153 * (c.month - 3) + 2) / 5
                      + (if c.year % 4 == 0 && (c.year % 100 != 0 || c.year % 400 == 0) then 1 else 0)
    ensures DayNumber(Civil(1970, 1, 1, 0, 0, 0)) == 719163
  {
    MonthsClosedForm(c.year, c.month);
    MonthsClosedForm(1970, 1);
  }

  lemma {:induction false} MonthsClosedForm(year: nat, month: nat)
    requires 1 <= month <= 12
    ensures DaysBeforeMonth(year, month)
            == if month <= 2 then 31 * (month - 1)
               else 59 + (153 * (month - 3) + 2) / 5 + if IsLeap(year) then 1 else 0
  {
    if month > 1 { MonthsClosedForm(year, month - 1); }
  }

  // ------------------------------------------------------------------ the order of instants

  predicate DateLess(a: Civil, b: Civil) {
    a.year < b.year || (a.year == b.year && (a.month < b.month || (a.month == b.month && a.day < b.day)))
  }

  lemma {:induction false} MultipleStep(y: nat, k: nat)
    requires y > 0 && k in {4, 100, 400}
    ensures y / k == (y - 1) / k + if y % k == 0 then 1 else 0
  {
  }

  lemma {:induction false} Multiples(y: nat)
    ensures y % 400 == 0 ==> y % 100 == 0
    ensures y % 100 == 0 ==> y % 4 == 0
  {
    assert y % 100 == 0 ==> y == 4 * (25 * (y / 100));
    assert y % 400 == 0 ==> y == 100 * (4 * (y / 400));
  }

  lemma {:induction false} YearLength(year: nat)
    requires year > 0
    ensures DaysBeforeYear(year + 1) == DaysBeforeYear(year) + if IsLeap(year) then 366 else 365
  {
    MultipleStep(year, 4);
    MultipleStep(year, 100);
    MultipleStep(year, 400);
    Multiples(year);
  }

  lemma {:induction false} YearOrder(a: nat, b: nat)
    requires 0 < a < b
    ensures DaysBeforeYear(b) >= DaysBeforeYear(a) + if IsLeap(a) then 366 else 365
    decreases b
  {
    YearLength(b - 1);
    if a < b - 1 { YearOrder(a, b - 1); }
  }

  lemma {:induction false} MonthOrder(year: nat, a: nat, b: nat)
    requires 1 <= a < b
    ensures DaysBeforeMonth(year, b) >= DaysBeforeMonth(year, a) + DaysInMonth(year, a)
  {
    if a < b - 1 { MonthOrder(year, a, b - 1); }
  }

  lemma {:induction false} MonthsFillYear(year: nat)
    ensures DaysBeforeMonth(year, 12) + DaysInMonth(year, 12) == if IsLeap(year) then 366 else 365
  {
    var february := DaysInMonth(year, 2);
    assert DaysBeforeMonth(year, 2) == 31 && DaysBeforeMonth(year, 3) == 31 + february;
    assert DaysBeforeMonth(year, 5) == DaysBeforeMonth(year, 4) + 30 == 92 + february;
    assert DaysBeforeMonth(year, 7) == DaysBeforeMonth(year, 6) + 30 == 153 + february;
    assert DaysBeforeMonth(year, 9) == DaysBeforeMonth(year, 8) + 31 == 215 + february;
    assert DaysBeforeMonth(year, 11) == DaysBeforeMonth(year, 10) + 31 == 276 + february;
  }

  /** A later date has a larger day number. */
  lemma {:induction false} DateOrder(a: Timestamp, b: Timestamp)
    requires DateLess(a, b)
    ensures DayNumber(a) < DayNumber(b)
  {
    if a.year < b.year {
      YearOrder(a.year, b.year);
      MonthsFillYear(a.year);
      if a.month < 12 { MonthOrder(a.year, a.month, 12); }
    } else if a.month < b.month {
      MonthOrder(a.year, a.month, b.month);
    }
  }

  predicate FieldsLess(a: Civil, b: Civil) {
    DateLess(a, b)
    || (!DateLess(b, a) && (a.hour < b.hour || (a.hour == b.hour && (a.minute < b.minute
        || (a.minute == b.minute && a.second < b.second)))))
  }

  /** Comparing field by field compares instants. */
  lemma {:induction false} InstantOrder(a: Timestamp, b: Timestamp)
    ensures Instant(a) < Instant(b) <==> FieldsLess(a, b)
    ensures Instant(a) == Instant(b) <==> a == b
  {
    if DateLess(a, b) {
      DateOrder(a, b);
    } else if DateLess(b, a) {
      DateOrder(b, a);
    }
  }

  // ------------------------------------------------------------------ printing

  function DigitChar(d: nat): char
    requires d < 10
  {
    '0' + d as char
  }

  /** The last `width` decimal digits. */
  function Pad(n: nat, width: nat): (s: string)
    ensures |s| == width
  {
    if width == 0 then "" else Pad(n / 10, width - 1) + [DigitChar(n % 10)]
  }

  function Print(c: Civil): string {
    Pad(c.year, 4) + ("-" + (Pad(c.month, 2) + ("-" + (Pad(c.day, 2) + (" "
    + (Pad(c.hour, 2) + (":" + (Pad(c.minute, 2) + (":" + Pad(c.second, 2))))))))))
  }

  /** Text comparison, character by character. */
  predicate Less(a: string, b: string) {
    b != "" && (a == "" || a[0] < b[0] || (a[0] == b[0] && Less(a[1..], b[1..])))
  }

  function Pow10(e: nat): nat {
    if e == 0 then 1 else 10 * Pow10(e - 1)
  }

  lemma {:induction false} LessAfter(p: string, a: string, b: string)
    ensures Less(p + a, p + b) <==> Less(a, b)
  {
    if p == "" {
      assert p + a == a && p + b == b;
    } else {
      LessAfter(p[1..], a, b);
      assert (p + a)[1..] == p[1..] + a && (p + b)[1..] == p[1..] + b;
    }
  }

  /** Numbers of equal width compare as text, then what follows decides. */
  lemma {:induction false} PadOrder(m: nat, n: nat, width: nat, a: string, b: string)
    requires m < Pow10(width) && n < Pow10(width)
    ensures Less(Pad(m, width) + a, Pad(n, width) + b) <==> m < n || (m == n && Less(a, b))
    decreases width
  {
    if width == 0 {
      assert Pad(m, width) + a == a && Pad(n, width) + b == b;
    } else {
      var x, y := [DigitChar(m % 10)] + a, [DigitChar(n % 10)] + b;
      PadOrder(m / 10, n / 10, width - 1, x, y);
      assert Pad(m, width) + a == Pad(m / 10, width - 1) + x;
      assert Pad(n, width) + b == Pad(n / 10, width - 1) + y;
      assert x[1..] == a && y[1..] == b;
    }
  }

  /** Storage texts compare exactly as their instants. */
  lemma {:induction false} TextOrder(a: Timestamp, b: Timestamp)
    ensures Less(Print(a), Print(b)) <==> Instant(a) < Instant(b)
  {
    InstantOrder(a, b);
    assert Pow10(2) == 10 * Pow10(1) == 100 && Pow10(4) == 10 * Pow10(3) == 100 * Pow10(2);
    var a5, b5 := Pad(a.second, 2) + "", Pad(b.second, 2) + "";
    assert a5 == Pad(a.second, 2) && b5 == Pad(b.second, 2);
    PadOrder(a.second, b.second, 2, "", "");
    LessAfter(":", Pad(a.second, 2), Pad(b.second, 2));
    var a4, b4 := Pad(a.minute, 2) + (":" + Pad(a.second, 2)), Pad(b.minute, 2) + (":" + Pad(b.second, 2));
    PadOrder(a.minute, b.minute, 2, ":" + Pad(a.second, 2), ":" + Pad(b.second, 2));
    LessAfter(":", a4, b4);
    var a3, b3 := Pad(a.hour, 2) + (":" + a4), Pad(b.hour, 2) + (":" + b4);
    PadOrder(a.hour, b.hour, 2, ":" + a4, ":" + b4);
    LessAfter(" ", a3, b3);
    var a2, b2 := Pad(a.day, 2) + (" " + a3), Pad(b.day, 2) + (" " + b3);
    PadOrder(a.day, b.day, 2, " " + a3, " " + b3);
    LessAfter("-", a2, b2);
    var a1, b1 := Pad(a.month, 2) + ("-" + a2), Pad(b.month, 2) + ("-" + b2);
    PadOrder(a.month, b.month, 2, "-" + a2, "-" + b2);
    LessAfter("-", a1, b1);
    PadOrder(a.year, b.year, 4, "-" + a1, "-" + b1);
  }

  // ------------------------------------------------------------------ parsing

  predicate IsNumber(s: string) {
    forall i :: 0 <= i < |s| ==> '0' <= s[i] <= '9'
  }

  function NumberOf(s: string): nat
    requires IsNumber(s)
  {
    if s == "" then 0 else NumberOf(s[..|s| - 1]) * 10 + (s[|s| - 1] as int - '0' as int)
  }

  lemma {:induction false} PadNumber(n: nat, width: nat)
    requires n < Pow10(width)
    ensures IsNumber(Pad(n, width)) && NumberOf(Pad(n, width)) == n
    decreases width
  {
    if width > 0 {
      PadNumber(n / 10, width - 1);
      assert Pad(n, width)[..width - 1] == Pad(n / 10, width - 1);
    }
  }

  /** The text has the storage layout: digits with separators in their places. */
  predicate HasLayout(s: string) {
    && |s| == 19 && s[4] == '-' && s[7] == '-' && s[10] == ' ' && s[13] == ':' && s[16] == ':'
    && IsNumber(s[..4]) && IsNumber(s[5..7]) && IsNumber(s[8..10])
    && IsNumber(s[11..13]) && IsNumber(s[14..16]) && IsNumber(s[17..])
  }

  function Fields(s: string): Civil
    requires HasLayout(s)
  {
    Civil(NumberOf(s[..4]), NumberOf(s[5..7]), NumberOf(s[8..10]),
          NumberOf(s[11..13]), NumberOf(s[14..16]), NumberOf(s[17..]))
  }

  function Parse(s: string): Option<Timestamp> {
    if HasLayout(s) && Valid(Fields(s)) then Some(Fields(s)) else None
  }

  lemma {:induction false} Cut(p: string, c: char, rest: string)
    ensures var s := p + ([c] + rest); s[..|p|] == p && s[|p|] == c && s[|p| + 1..] == rest
  {
  }

  /** The layout of a text is that of its pieces. */
  lemma {:induction false} Pieces(s: string, p: string, c: char, rest: string, start: nat)
    requires start <= |s| && s[start..] == p + ([c] + rest)
    ensures |s| == start + |p| + 1 + |rest|
    ensures s[start..start + |p|] == p && s[start + |p|] == c && s[start + |p| + 1..] == rest
  {
    Cut(p, c, rest);
    assert s[start..][..|p|] == s[start..start + |p|];
    assert s[start..][|p| + 1..] == s[start + |p| + 1..];
  }

  /** Printing then parsing gives the same second back. */
  lemma {:induction false} ParsePrint(c: Timestamp)
    ensures Parse(Print(c)) == Some(c)
  {
    var second := Pad(c.second, 2);
    var minute := Pad(c.minute, 2) + (":" + second);
    var hour := Pad(c.hour, 2) + (":" + minute);
    var day := Pad(c.day, 2) + (" " + hour);
    var month := Pad(c.month, 2) + ("-" + day);
    var s := Print(c);
    assert s[0..] == Pad(c.year, 4) + ("-" + month);
    Pieces(s, Pad(c.year, 4), '-', month, 0);
    Pieces(s, Pad(c.month, 2), '-', day, 5);
    Pieces(s, Pad(c.day, 2), ' ', hour, 8);
    Pieces(s, Pad(c.hour, 2), ':', minute, 11);
    Pieces(s, Pad(c.minute, 2), ':', second, 14);
    PadNumbers(c);
  }

  lemma {:induction false} PadNumbers(c: Timestamp)
    ensures IsNumber(Pad(c.year, 4)) && NumberOf(Pad(c.year, 4)) == c.year
    ensures forall n :: n in [c.month, c.day, c.hour, c.minute, c.second] ==>
              IsNumber(Pad(n, 2)) && NumberOf(Pad(n, 2)) == n
  {
    assert Pow10(2) == 10 * Pow10(1) == 100 && Pow10(4) == 10 * Pow10(3) == 100 * Pow10(2);
    PadNumber(c.year, 4);
    forall n | n in [c.month, c.day, c.hour, c.minute, c.second] ensures IsNumber(Pad(n, 2)) && NumberOf(Pad(n, 2)) == n {
      PadNumber(n, 2);
    }
  }

  lemma {:induction false} LastDigit(n: nat, d: nat)
    requires d < 10
    ensures (n * 10 + d) / 10 == n && (n * 10 + d) % 10 == d
  {
  }

  lemma {:induction false} NumberPad(s: string)
    requires IsNumber(s)
    ensures NumberOf(s) < Pow10(|s|) && Pad(NumberOf(s), |s|) == s
  {
    if s != "" {
      var init, last := s[..|s| - 1], s[|s| - 1];
      NumberPad(init);
      LastDigit(NumberOf(init), last as int - '0' as int);
      assert s == init + [last];
    }
  }

  lemma {:induction false} Rejoin(s: string, start: nat, end: nat)
    requires start <= end < |s|
    ensures s[start..] == s[start..end] + ([s[end]] + s[end + 1..])
  {
  }

  /** A text that parses is the text of what it parses to. */
  lemma {:induction false} PrintParse(s: string)
    requires Parse(s).Some?
    ensures Print(Parse(s).value) == s
  {
    NumberPad(s[..4]);
    NumberPad(s[5..7]);
    NumberPad(s[8..10]);
    NumberPad(s[11..13]);
    NumberPad(s[14..16]);
    NumberPad(s[17..]);
    Rejoin(s, 0, 4);
    Rejoin(s, 5, 7);
    Rejoin(s, 8, 10);
    Rejoin(s, 11, 13);
    Rejoin(s, 14, 16);
    assert s == s[0..] && s[0..4] == s[..4];
  }

  /** Texts that parse compare as their instants. */
  lemma {:induction false} ParsedOrder(a: string, b: string)
    requires Parse(a).Some? && Parse(b).Some?
    ensures Less(a, b) <==> Instant(Parse(a).value) < Instant(Parse(b).value)
  {
    PrintParse(a);
    PrintParse(b);
    TextOrder(Parse(a).value, Parse(b).value);
  }

  /** Text comparison is a strict total preorder. */
  lemma {:induction false} LessOrder(a: string, b: string, c: string)
    ensures Less(a, b) ==> !Less(b, a)
    ensures !Less(b, a) && !Less(c, b) ==> !Less(c, a)
    ensures !Less(b, a) && Less(b, c) ==> Less(a, c)
    ensures Less(a, b) && !Less(c, b) ==> Less(a, c)
  {
    if a != "" && b != "" && a[0] == b[0] {
      LessOrder(a[1..], b[1..], if c == "" then "" else c[1..]);
    }
  }
}
