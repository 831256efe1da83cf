/** IPv4 hosts in the loose notations that a browser still opens: one to four parts, each
    decimal, octal or hexadecimal (src/heron/analysis/extractor.py; section 7.4 of RFC 3986). */
module LooseIpv4 {
  import opened Wrappers
  import opened Strings

  // ------------------------------------------------------------------ one number

  function Digit(c: char): (d: nat)
    ensures d <= 16
  {
    if '0' <= c <= '9' then c as int - '0' as int
    else if 'a' <= c <= 'f' then 10 + c as int - 'a' as int
    else if 'A' <= c <= 'F' then 10 + c as int - 'A' as int
    else 16
  }

  predicate AllDigits(s: string, base: nat) {
    forall i :: 0 <= i < |s| ==> Digit(s[i]) < base
  }

  function ValueOf(s: string, base: nat): nat {
    if s == "" then 0 else ValueOf(s[..|s| - 1], base) * base + Digit(s[|s| - 1])
  }

  function ParseNumber(part: string): Option<nat> {
    if |part| >= 2 && part[0] == '0' && part[1] in "xX" && AllDigits(part[2..], 16) then Some(ValueOf(part[2..], 16))
    else if |part| >= 2 && part[0] == '0' && AllDigits(part[1..], 8) then Some(ValueOf(part, 8))
    else if part != "" && AllDigits(part, 10) then Some(ValueOf(part, 10))
    else None
  }

  /** Letter case does not matter. */
  lemma {:induction false} NumberIgnoresCase(part: string)
    ensures ParseNumber(Lower(part)) == ParseNumber(part)
  {
    var low := Lower(part);
    forall c ensures Digit(LowerChar(c)) == Digit(c) { }
    DigitsIgnoreCase(part);
    if |part| >= 2 {
      DigitsIgnoreCase(part[2..]);
      DigitsIgnoreCase(part[1..]);
      assert low[2..] == Lower(part[2..]) && low[1..] == Lower(part[1..]);
      assert low[1] in "xX" <==> part[1] in "xX";
    }
  }

  lemma {:induction false} DigitsIgnoreCase(s: string)
    ensures forall base :: AllDigits(Lower(s), base) <==> AllDigits(s, base)
    ensures forall base :: ValueOf(Lower(s), base) == ValueOf(s, base)
  {
    forall i | 0 <= i < |s| ensures Digit(Lower(s)[i]) == Digit(s[i]) { }
    if s != "" {
      DigitsIgnoreCase(s[..|s| - 1]);
      assert Lower(s)[..|s| - 1] == Lower(s[..|s| - 1]);
    }
  }

  datatype Notation = Decimal | Octal | Hexadecimal

  type Base = b: nat | 2 <= b <= 16 witness 10

  function DigitChar(d: nat): char
    requires d < 16
  {
    if d < 10 then '0' + d as char else 'a' + (d - 10) as char
  }

  function Digits(n: nat, base: Base): (s: string)
    ensures s != ""
  {
    if n < base then [DigitChar(n)] else Digits(n / base, base) + [DigitChar(n % base)]
  }

  /** A number as it is usually written in each notation. */
  function Spell(n: nat, notation: Notation): string {
    match notation
    case Decimal => Digits(n, 10)
    case Octal => "0" + Digits(n, 8)
    case Hexadecimal => "0x" + Digits(n, 16)
  }

  lemma {:induction false} DigitCharRoundTrip(d: nat)
    requires d < 16
    ensures Digit(DigitChar(d)) == d && DigitChar(d) != '.' && (d > 0 ==> DigitChar(d) != '0')
  {
  }

  lemma {:induction false} Quotient(n: nat, base: Base)
    requires n >= base
    ensures 0 < n / base < n && n / base * base + n % base == n && n % base < base
  {
  }

  lemma {:induction false} ValueOfLast(s: string, c: char, base: nat)
    ensures ValueOf(s + [c], base) == ValueOf(s, base) * base + Digit(c)
  {
    assert (s + [c])[..|s + [c]| - 1] == s;
  }

  lemma {:induction false} DigitsValue(n: nat, base: Base)
    ensures AllDigits(Digits(n, base), base) && ValueOf(Digits(n, base), base) == n
    decreases n
  {
    if n < base {
      DigitCharRoundTrip(n);
      ValueOfLast("", DigitChar(n), base);
      assert "" + [DigitChar(n)] == [DigitChar(n)];
    } else {
      Quotient(n, base);
      DigitCharRoundTrip(n % base);
      DigitsValue(n / base, base);
      ValueOfLast(Digits(n / base, base), DigitChar(n % base), base);
    }
  }

  lemma {:induction false} DigitsLead(n: nat, base: Base)
    ensures '.' !in Digits(n, base)
    ensures n > 0 ==> Digits(n, base)[0] != '0'
    ensures n < base ==> |Digits(n, base)| == 1
    decreases n
  {
    if n < base {
      DigitCharRoundTrip(n);
    } else {
      Quotient(n, base);
      DigitCharRoundTrip(n % base);
      DigitsLead(n / base, base);
    }
  }

  lemma {:induction false} LeadingZero(s: string, base: nat)
    ensures ValueOf("0" + s, base) == ValueOf(s, base)
  {
    if s == "" {
      assert ("0" + s)[..0] == "";
    } else {
      LeadingZero(s[..|s| - 1], base);
      assert ("0" + s)[..|s|] == "0" + s[..|s| - 1];
    }
  }

  lemma {:induction false} SpellingParses(n: nat, notation: Notation)
    ensures ParseNumber(Spell(n, notation)) == Some(n)
    ensures '.' !in Spell(n, notation)
  {
    match notation {
      case Decimal =>
        DigitsValue(n, 10);
        DigitsLead(n, 10);
      case Octal =>
        DigitsValue(n, 8);
        DigitsLead(n, 8);
        LeadingZero(Digits(n, 8), 8);
        assert ("0" + Digits(n, 8))[1..] == Digits(n, 8);
        assert Digit('x') == Digit('X') == 16;
      case Hexadecimal =>
        DigitsValue(n, 16);
        DigitsLead(n, 16);
        assert ("0x" + Digits(n, 16))[2..] == Digits(n, 16);
    }
  }

  // ------------------------------------------------------------------ the whole host

  function Pow256(e: nat): (p: nat)
    ensures p > 0
  {
    if e == 0 then 1 else 256 * Pow256(e - 1)
  }

  /** The leading numbers fill one byte each, from the top. */
  function HeadValue(head: seq<nat>): nat
    requires |head| <= 4
  {
    if head == [] then 0
    else HeadValue(head[..|head| - 1]) + head[|head| - 1] * Pow256(4 - |head|)
  }

  predicate Fits(numbers: seq<nat>) {
    1 <= |numbers| <= 4
    && (forall i :: 0 <= i < |numbers| - 1 ==> numbers[i] <= 255)
    && numbers[|numbers| - 1] < Pow256(5 - |numbers|)
  }

  function Address(numbers: seq<nat>): nat
    requires 1 <= |numbers| <= 4
  {
    numbers[|numbers| - 1] + HeadValue(numbers[..|numbers| - 1])
  }

  predicate AllNumbers(parts: seq<string>) {
    forall i :: 0 <= i < |parts| ==> ParseNumber(parts[i]).Some?
  }

  function Numbers(parts: seq<string>): seq<nat>
    requires AllNumbers(parts)
  {
    seq(|parts|, i requires 0 <= i < |parts| => ParseNumber(parts[i]).value)
  }

  function ParseLoose(host: string): Option<nat> {
    var parts := Split(host, '.');
    if 1 <= |parts| <= 4 && AllNumbers(parts) && Fits(Numbers(parts)) then Some(Address(Numbers(parts))) else None
  }

  /** The numbers that `k` parts must denote: a byte for each part but the last. */
  function PartsOf(v: nat, k: nat): seq<nat>
    requires 1 <= k <= 4
  {
    seq(k, i requires 0 <= i < k => if i < k - 1 then v / Pow256(3 - i) % 256 else v % Pow256(5 - k))
  }

  lemma {:induction false} Powers()
    ensures Pow256(0) == 1 && Pow256(1) == 0x100 && Pow256(2) == 0x1_0000
    ensures Pow256(3) == 0x100_0000 && Pow256(4) == 0x1_0000_0000
  {
    assert Pow256(1) == 256 * Pow256(0);
    assert Pow256(2) == 256 * Pow256(1);
    assert Pow256(3) == 256 * Pow256(2);
    assert Pow256(4) == 256 * Pow256(3);
  }

  lemma {:induction false} AddressOf(ns: seq<nat>)
    requires 1 <= |ns| <= 4
    ensures Address(ns) == ns[|ns| - 1] + (if |ns| > 1 then ns[0] * 0x100_0000 else 0)
                           + (if |ns| > 2 then ns[1] * 0x1_0000 else 0) + (if |ns| > 3 then ns[2] * 0x100 else 0)
  {
    Powers();
    if |ns| > 1 {
      assert ns[..1][..0] == [] && HeadValue(ns[..1]) == ns[0] * 0x100_0000;
    }
    if |ns| > 2 {
      assert ns[..2][..1] == ns[..1] && HeadValue(ns[..2]) == HeadValue(ns[..1]) + ns[1] * 0x1_0000;
    }
    if |ns| > 3 {
      assert ns[..3][..2] == ns[..2] && HeadValue(ns[..3]) == HeadValue(ns[..2]) + ns[2] * 0x100;
    }
  }

  /** A number in mixed radix: one byte on top of a rest below `unit`. */
  lemma {:induction false} ByteOnTop(v: nat, a: nat, rest: nat, unit: nat)
    requires unit in {0x100, 0x1_0000, 0x100_0000}
    ensures a <= 255 && rest < unit && v == a * unit + rest
            <==> v < 256 * unit && a == v / unit % 256 && rest == v % unit
  {
  }

  lemma {:induction false} LowerBytes(v: nat)
    ensures v % 0x100_0000 / 0x1_0000 == v / 0x1_0000 % 256
    ensures v % 0x100_0000 % 0x1_0000 == v % 0x1_0000
  {
    var q, r := v / 0x100_0000, v % 0x100_0000;
    assert v == (256 * q) * 0x1_0000 + r;
    Shifted(256 * q, r, 0x1_0000);
    assert (256 * q + r / 0x1_0000) % 256 == r / 0x1_0000;
  }

  lemma {:induction false} LastBytes(v: nat)
    ensures v % 0x1_0000 / 0x100 == v / 0x100 % 256
    ensures v % 0x1_0000 % 0x100 == v % 0x100
  {
    var q, r := v / 0x1_0000, v % 0x1_0000;
    assert v == (256 * q) * 0x100 + r;
    Shifted(256 * q, r, 0x100);
    assert (256 * q + r / 0x100) % 256 == r / 0x100;
  }

  lemma {:induction false} Shifted(q: nat, r: nat, unit: nat)
    requires unit in {0x100, 0x1_0000}
    ensures (q * unit + r) / unit == q + r / unit && (q * unit + r) % unit == r % unit
  {
  }

  lemma {:induction false} ThreeParts(v: nat, a: nat, b: nat, rest: nat)
    ensures a <= 255 && b <= 255 && rest < 0x1_0000 && v == a * 0x100_0000 + b * 0x1_0000 + rest
            <==> v < 0x1_0000_0000 && a == v / 0x100_0000 % 256 && b == v / 0x1_0000 % 256 && rest == v % 0x1_0000
  {
    LowerBytes(v);
    ByteOnTop(v, a, b * 0x1_0000 + rest, 0x100_0000);
    ByteOnTop(v % 0x100_0000, b, rest, 0x1_0000);
  }

  lemma {:induction false} FourParts(v: nat, a: nat, b: nat, c: nat, d: nat)
    ensures a <= 255 && b <= 255 && c <= 255 && d < 0x100 && v == a * 0x100_0000 + b * 0x1_0000 + c * 0x100 + d
            <==> v < 0x1_0000_0000 && a == v / 0x100_0000 % 256 && b == v / 0x1_0000 % 256
                 && c == v / 0x100 % 256 && d == v % 0x100
  {
    LastBytes(v);
    ThreeParts(v, a, b, c * 0x100 + d);
    ByteOnTop(v % 0x1_0000, c, d, 0x100);
  }

  lemma {:induction false} PartsAt(v: nat, k: nat, i: nat)
    requires 1 <= k <= 4 && i < k
    ensures PartsOf(v, k)[i] == if i < k - 1 then v / Pow256(3 - i) % 256 else v % Pow256(5 - k)
  {
  }

  lemma {:induction false} OnePartIs(ns: seq<nat>, v: nat)
    requires |ns| == 1
    ensures ns == PartsOf(v, 1) <==> ns[0] == v % Pow256(4)
  {
    PartsAt(v, 1, 0);
    assert ns == [ns[0]];
  }

  lemma {:induction false} TwoPartsAre(ns: seq<nat>, v: nat)
    requires |ns| == 2
    ensures ns == PartsOf(v, 2) <==> ns[0] == v / Pow256(3) % 256 && ns[1] == v % Pow256(3)
  {
    PartsAt(v, 2, 0);
    PartsAt(v, 2, 1);
    assert ns == [ns[0], ns[1]];
  }

  lemma {:induction false} ThreePartsAre(ns: seq<nat>, v: nat)
    requires |ns| == 3
    ensures ns == PartsOf(v, 3) <==>
            ns[0] == v / Pow256(3) % 256 && ns[1] == v / Pow256(2) % 256 && ns[2] == v % Pow256(2)
  {
    PartsAt(v, 3, 0);
    PartsAt(v, 3, 1);
    PartsAt(v, 3, 2);
    assert ns == [ns[0], ns[1], ns[2]];
  }

  lemma {:induction false} FourPartsAre(ns: seq<nat>, v: nat)
    requires |ns| == 4
    ensures ns == PartsOf(v, 4) <==>
            ns[0] == v / Pow256(3) % 256 && ns[1] == v / Pow256(2) % 256 && ns[2] == v / Pow256(1) % 256
            && ns[3] == v % Pow256(1)
  {
    PartsAt(v, 4, 0);
    PartsAt(v, 4, 1);
    PartsAt(v, 4, 2);
    PartsAt(v, 4, 3);
    assert ns == [ns[0], ns[1], ns[2], ns[3]];
  }

  /** Numbers that fit are exactly the parts of the address they make, which has 32 bits. */
  lemma {:induction false} FittingParts(ns: seq<nat>, v: nat)
    requires 1 <= |ns| <= 4
    ensures Fits(ns) && Address(ns) == v <==> v < 0x1_0000_0000 && ns == PartsOf(v, |ns|)
  {
    Powers();
    AddressOf(ns);
    if |ns| == 1 {
      OnePartIs(ns, v);
    } else if |ns| == 2 {
      TwoPartsAre(ns, v);
      ByteOnTop(v, ns[0], ns[1], 0x100_0000);
    } else if |ns| == 3 {
      ThreePartsAre(ns, v);
      ThreeParts(v, ns[0], ns[1], ns[2]);
    } else {
      FourPartsAre(ns, v);
      FourParts(v, ns[0], ns[1], ns[2], ns[3]);
    }
  }

  /** A host is accepted with a value if and only if the value has 32 bits and each part, in
      whatever notation, denotes its bytes; so all spellings of an address agree. */
  lemma {:induction false} AcceptedIff(host: string, v: nat)
    ensures var parts := Split(host, '.');
            ParseLoose(host) == Some(v) <==>
            && v < 0x1_0000_0000
            && |parts| <= 4
            && forall i :: 0 <= i < |parts| ==> ParseNumber(parts[i]) == Some(PartsOf(v, |parts|)[i])
  {
    var parts := Split(host, '.');
    if |parts| <= 4 && AllNumbers(parts) {
      FittingParts(Numbers(parts), v);
    }
  }

  function Spellings(numbers: seq<nat>, notations: seq<Notation>): seq<string>
    requires |numbers| == |notations|
  {
    seq(|numbers|, i requires 0 <= i < |numbers| => Spell(numbers[i], notations[i]))
  }

  /** Any 32-bit value, written in one to four parts, each in its own notation, parses back. */
  lemma {:induction false} SpelledParsesBack(v: nat, notations: seq<Notation>)
    requires v < 0x1_0000_0000 && 1 <= |notations| <= 4
    ensures ParseLoose(Join(Spellings(PartsOf(v, |notations|), notations), '.')) == Some(v)
  {
    var numbers := PartsOf(v, |notations|);
    var parts := Spellings(numbers, notations);
    forall i | 0 <= i < |parts| ensures '.' !in parts[i] && ParseNumber(parts[i]) == Some(numbers[i]) {
      SpellingParses(numbers[i], notations[i]);
    }
    SplitJoin(parts, '.');
    AcceptedIff(Join(parts, '.'), v);
  }

  lemma {:induction false} SplitIgnoresCase(s: string)
    ensures |Split(Lower(s), '.')| == |Split(s, '.')|
    ensures forall i :: 0 <= i < |Split(s, '.')| ==> Split(Lower(s), '.')[i] == Lower(Split(s, '.')[i])
  {
    if s != "" {
      SplitIgnoresCase(s[1..]);
      assert Lower(s)[1..] == Lower(s[1..]) && (LowerChar(s[0]) == '.' <==> s[0] == '.');
    }
  }

  /** Hosts that differ in letter case only are the same address, or none. */
  lemma {:induction false} HostIgnoresCase(host: string)
    ensures ParseLoose(Lower(host)) == ParseLoose(host)
  {
    var low, parts := Split(Lower(host), '.'), Split(host, '.');
    SplitIgnoresCase(host);
    forall i | 0 <= i < |parts| ensures ParseNumber(low[i]) == ParseNumber(parts[i]) { NumberIgnoresCase(parts[i]); }
    if AllNumbers(parts) { assert Numbers(low) == Numbers(parts); }
  }
}
