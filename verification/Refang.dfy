/** Refanging undoes defanging (src/heron/analysis/extractor.py). */
module Refang {
  import opened Defang

  // ------------------------------------------------------------------ the rewriting

  /** A colon follows, plain or after "[". */
  predicate BeforeColon(s: string) {
    Starts(s, ":") || Starts(s, "[:")
  }

  /** The letters that match "s" in any case; one of them is the long s. */
  predicate IsLetterS(c: char) {
    c == 's' || c == 'S' || c as int == 0x17F
  }

  predicate SchemeEnds(s: string) {
    BeforeColon(s) || (s != "" && IsLetterS(s[0]) && BeforeColon(s[1..]))
  }

  /** Undoes "hxxp" at word boundaries; `word` says which characters make words. */
  function ShowHttp(s: string, word: char -> bool, boundary: bool): string {
    if s == "" then ""
    else if boundary && StartsWord(s, "hxxp") && SchemeEnds(s[4..]) then "http" + ShowHttp(s[4..], word, false)
    else [s[0]] + ShowHttp(s[1..], word, !word(s[0]))
  }

  function ShowFtp(s: string, word: char -> bool, boundary: bool): string {
    if s == "" then ""
    else if boundary && StartsWord(s, "fxp") && BeforeColon(s[3..]) then "ftp" + ShowFtp(s[3..], word, false)
    else [s[0]] + ShowFtp(s[1..], word, !word(s[0]))
  }

  function ShowDots(s: string): string {
    Replace(Replace(Replace(s, "[.]", "."), "(.)", "."), "{.}", ".")
  }

  function WithoutBrackets(s: string): string {
    var colons := Replace(Replace(s, SEP, "://"), "[:]", ":");
    Replace(Replace(ShowDots(colons), "[@]", "@"), "[at]", "@")
  }

  function Refanged(s: string, word: char -> bool): string {
    WithoutBrackets(ShowFtp(ShowHttp(s, word, true), word, true))
  }

  lemma {:induction false} ShowHttpSame(s: string, word: char -> bool, boundary: bool)
    requires !HasWord(s, "hxxp")
    ensures ShowHttp(s, word, boundary) == s
  {
    if s != "" { ShowHttpSame(s[1..], word, !word(s[0])); }
  }

  lemma {:induction false} ShowFtpSame(s: string, word: char -> bool, boundary: bool)
    requires !HasWord(s, "fxp")
    ensures ShowFtp(s, word, boundary) == s
  {
    if s != "" { ShowFtpSame(s[1..], word, !word(s[0])); }
  }

  lemma {:induction false} HideHttpSame(s: string)
    requires !HasWord(s, "http")
    ensures HideHttp(s) == s
  {
    if s != "" { HideHttpSame(s[1..]); }
  }

  // ------------------------------------------------------------------ the brackets come off again

  lemma {:induction false} SeparatorsComeOff(s: string)
    requires '[' !in s
    ensures Replace(Replace(s, "://", SEP), SEP, "://") == s
    decreases |s|
  {
    if s == "" {
    } else if Starts(s, "://") {
      SeparatorsComeOff(s[3..]);
      ReplaceHere(Replace(s[3..], "://", SEP), SEP, "://");
      assert s == "://" + s[3..];
    } else {
      SeparatorsComeOff(s[1..]);
      ReplaceOther(s[0], Replace(s[1..], "://", SEP), SEP, "://");
      assert s == [s[0]] + s[1..] && s[0] in s;
    }
  }

  /** Like `BracketAuthority`, with or without the dots. */
  function BracketSome(s: string, dots: bool): string {
    if s == "" || IsDelimiter(s[0]) then s
    else (if (s[0] == '.' && dots) || s[0] == '@' then ['[', s[0], ']'] else [s[0]]) + BracketSome(s[1..], dots)
  }

  lemma {:induction false} BracketSomeIsAuthority(s: string)
    ensures BracketSome(s, true) == BracketAuthority(s)
  {
    if s != "" && !IsDelimiter(s[0]) { BracketSomeIsAuthority(s[1..]); }
  }

  lemma {:induction false} BracketSomeChars(s: string, dots: bool, c: char)
    requires c !in s && !IsBracket(c)
    ensures c !in BracketSome(s, dots)
  {
    if s != "" && !IsDelimiter(s[0]) { BracketSomeChars(s[1..], dots, c); }
  }

  /** A bracketed character is not another pattern. */
  lemma {:induction false} ReplaceTriple(c: char, s: string, pattern: string, value: string)
    requires |pattern| >= 2 && pattern[0] == '[' && pattern[1] != c && c != '['
    ensures Replace(['[', c, ']'] + s, pattern, value) == ['[', c, ']'] + Replace(s, pattern, value)
  {
    var tail := [c] + ([']'] + s);
    assert ['[', c, ']'] + s == ['['] + tail && (['['] + tail)[1..] == tail;
    assert !Starts(['['] + tail, pattern) by { StartsSecond(['['] + tail, pattern); }
    ReplaceOther(c, [']'] + s, pattern, value);
    ReplaceOther(']', s, pattern, value);
  }

  lemma {:induction false} StartsSecond(s: string, w: string)
    requires |w| >= 2
    ensures Starts(s, w) ==> s[1] == w[1]
  {
  }

  lemma {:induction false} UnseparateAuthority(s: string)
    requires '[' !in s
    ensures Replace(BracketAuthority(Replace(s, "://", SEP)), SEP, "://") == BracketAuthority(s)
    decreases |s|
  {
    if s == "" || IsDelimiter(s[0]) || Starts(s, "://") {
      SeparatorsComeOff(s);
      AuthorityStops(s);
      SeparatedAuthorityStops(s);
    } else {
      UnseparateAuthority(s[1..]);
      var rest := Replace(s[1..], "://", SEP);
      assert ([s[0]] + rest)[1..] == rest;
      assert s[0] in s;
      if s[0] == '.' || s[0] == '@' {
        ReplaceTriple(s[0], BracketAuthority(rest), SEP, "://");
      } else {
        ReplaceOther(s[0], BracketAuthority(rest), SEP, "://");
      }
    }
  }

  lemma {:induction false} AuthorityStops(s: string)
    requires s == "" || IsDelimiter(s[0]) || Starts(s, "://")
    ensures BracketAuthority(s) == s
  {
    if Starts(s, "://") {
      AuthorityCons(':', s[1..]);
      assert s == [':'] + s[1..] && s[1] == '/';
    }
  }

  lemma {:induction false} SeparatedAuthorityStops(s: string)
    requires s == "" || IsDelimiter(s[0]) || Starts(s, "://")
    ensures BracketAuthority(Replace(s, "://", SEP)) == Replace(s, "://", SEP)
  {
    if Starts(s, "://") {
      AuthorityStopsAfterSeparator(Replace(s[3..], "://", SEP));
    } else if s != "" {
      StartsFirst(s, "://");
    }
  }

  lemma {:induction false} AuthorityStopsAfterSeparator(s: string)
    ensures BracketAuthority(SEP + s) == SEP + s
  {
    var tail := "//]" + s;
    AuthorityCons(':', tail);
    AuthorityCons('[', [':'] + tail);
    assert SEP + s == ['['] + ([':'] + tail);
  }

  lemma {:induction false} AuthorityCons(c: char, s: string)
    requires !IsDelimiter(c) && c != '.' && c != '@'
    ensures BracketAuthority([c] + s) == [c] + BracketAuthority(s)
  {
    assert ([c] + s)[1..] == s;
  }

  lemma {:induction false} DotsComeOff(s: string)
    requires '[' !in s
    ensures Replace(BracketSome(s, true), "[.]", ".") == BracketSome(s, false)
  {
    if s == "" || IsDelimiter(s[0]) {
      ReplaceSkip(s, "", "[.]", ".");
      assert s + "" == s;
    } else {
      DotsComeOff(s[1..]);
      var rest := BracketSome(s[1..], true);
      assert s[0] in s;
      if s[0] == '.' {
        ReplaceHere(rest, "[.]", ".");
      } else if s[0] == '@' {
        ReplaceTriple('@', rest, "[.]", ".");
      } else {
        ReplaceOther(s[0], rest, "[.]", ".");
      }
    }
  }

  lemma {:induction false} AtSignsComeOff(s: string)
    requires '[' !in s
    ensures Replace(BracketSome(s, false), "[@]", "@") == s
  {
    if s == "" || IsDelimiter(s[0]) {
      ReplaceSkip(s, "", "[@]", "@");
      assert s + "" == s;
    } else {
      AtSignsComeOff(s[1..]);
      var rest := BracketSome(s[1..], false);
      assert s[0] in s && s == [s[0]] + s[1..];
      if s[0] == '@' {
        ReplaceHere(rest, "[@]", "@");
      } else {
        ReplaceOther(s[0], rest, "[@]", "@");
      }
    }
  }

  lemma {:induction false} NoColonBrackets(s: string)
    requires '[' !in s
    ensures Replace(BracketSome(s, true), "[:]", ":") == BracketSome(s, true)
  {
    if s == "" || IsDelimiter(s[0]) {
      ReplaceSkip(s, "", "[:]", ":");
      assert s + "" == s;
    } else {
      NoColonBrackets(s[1..]);
      var rest := BracketSome(s[1..], true);
      assert s[0] in s;
      if s[0] == '.' || s[0] == '@' {
        ReplaceTriple(s[0], rest, "[:]", ":");
      } else {
        ReplaceOther(s[0], rest, "[:]", ":");
      }
    }
  }

  // ------------------------------------------------------------------ the round trip

  /** The text after the scheme that survives: no opening bracket, no scheme word. */
  predicate Plain(rest: string) {
    '[' !in rest && '(' !in rest && '{' !in rest
    && !HasWord(rest, "http") && !HasWord(rest, "hxxp") && !HasWord(rest, "fxp")
  }

  datatype Scheme = Http | Https | Ftp
  {
    function Name(): string {
      match this case Http => "http" case Https => "https" case Ftp => "ftp"
    }

    function HiddenName(): string {
      match this case Http => "hxxp" case Https => "hxxps" case Ftp => "fxp"
    }
  }

  lemma {:induction false} HttpHides(after: string)
    requires !HasWord(after, "http")
    ensures HideFtp(HideHttp("http" + after)) == "hxxp" + after
  {
    var url := "http" + after;
    assert url[4..] == after;
    assert forall i :: 0 <= i < 4 ==> url[i] == "http"[i];
    HideHttpSame(after);
    assert ("hxxp" + after)[0] == 'h';
  }

  lemma {:induction false} FtpHides(after: string)
    requires !HasWord(after, "http") && Starts(after, "://")
    ensures HideFtp(HideHttp("ftp" + after)) == "fxp" + after
  {
    var url := "ftp" + after;
    HasWordSkip("ftp", after, "http");
    HideHttpSame(url);
    assert url[3..] == after;
    assert forall i :: 0 <= i < 3 ==> url[i] == "ftp"[i];
  }

  lemma {:induction false} HttpsHides(after: string)
    requires !HasWord(after, "http")
    ensures HideFtp(HideHttp("https" + after)) == "hxxps" + after
  {
    HasWordSkip("s", after, "http");
    HttpHides("s" + after);
    Https(after);
  }

  lemma {:induction false} Https(after: string)
    ensures "https" + after == "http" + ("s" + after)
    ensures "hxxps" + after == "hxxp" + ("s" + after)
  {
  }

  lemma {:induction false} SchemeHides(scheme: Scheme, rest: string)
    requires !HasWord(rest, "http")
    ensures HideFtp(HideHttp(scheme.Name() + ("://" + rest))) == scheme.HiddenName() + ("://" + rest)
  {
    HasWordSkip("://", rest, "http");
    match scheme {
      case Http => HttpHides("://" + rest);
      case Https => HttpsHides("://" + rest);
      case Ftp => FtpHides("://" + rest);
    }
  }

  lemma {:induction false} Associate(a: string, b: string, c: string)
    ensures a + b + c == a + (b + c)
  {
  }

  lemma {:induction false} PartitionAt(p: string, sep: string, t: string)
    requires sep != "" && sep[0] !in p
    ensures Partition(p + sep + t, sep) == (p, sep, t)
  {
    var s := p + sep + t;
    if p == "" {
      assert s == sep + t && s[|sep|..] == t;
    } else {
      PartitionAt(p[1..], sep, t);
      assert s[1..] == p[1..] + sep + t && p == [p[0]] + p[1..];
      StartsFirst(s, sep);
      assert s[0] == p[0] && p[0] in p;
    }
  }

  /** What follows the separator in a defanged URL. */
  function Tail(rest: string): string {
    BracketAuthority(Replace(rest, "://", SEP))
  }

  lemma {:induction false} DefangedForm(scheme: Scheme, rest: string, tail: string)
    requires !HasWord(rest, "http") && tail == Tail(rest)
    ensures Defanged(scheme.Name() + ("://" + rest))
            == scheme.HiddenName() + SEP + tail
  {
    var hidden, plain := scheme.HiddenName(), Replace(rest, "://", SEP);
    SchemeHides(scheme, rest);
    ReplaceSkip(hidden, "://" + rest, "://", SEP);
    ReplaceHere(rest, "://", SEP);
    Associate(hidden, SEP, plain);
    PartitionAt(hidden, SEP, plain);
  }

  lemma {:induction false} WordsStayAway(rest: string, tail: string, w: string)
    requires NoBracket(w) && !HasWord(rest, w) && tail == Tail(rest)
    ensures !HasWord(tail, w)
  {
    var s := Replace(rest, "://", SEP);
    SeparatorsInserted(rest);
    AuthorityInserted(s);
    if HasWord(BracketAuthority(s), w) { WordKept(s, BracketAuthority(s), w); }
    if HasWord(s, w) { WordKept(rest, s, w); }
  }

  lemma {:induction false} HttpShows(after: string, word: char -> bool)
    requires SchemeEnds(after) && !HasWord(after, "hxxp") && !HasWord(after, "fxp")
    ensures ShowFtp(ShowHttp("hxxp" + after, word, true), word, true) == "http" + after
  {
    var text := "hxxp" + after;
    assert text[4..] == after;
    assert forall i :: 0 <= i < 4 ==> text[i] == "hxxp"[i];
    ShowHttpSame(after, word, false);
    HasWordSkip("http", after, "fxp");
    ShowFtpSame("http" + after, word, true);
  }

  lemma {:induction false} FtpShows(after: string, word: char -> bool)
    requires BeforeColon(after) && !HasWord(after, "hxxp") && !HasWord(after, "fxp")
    ensures ShowFtp(ShowHttp("fxp" + after, word, true), word, true) == "ftp" + after
  {
    var text := "fxp" + after;
    HasWordSkip("fxp", after, "hxxp");
    ShowHttpSame(text, word, true);
    assert text[3..] == after;
    assert forall i :: 0 <= i < 3 ==> text[i] == "fxp"[i];
    ShowFtpSame(after, word, false);
  }

  lemma {:induction false} AfterScheme(tail: string)
    requires !HasWord(tail, "hxxp") && !HasWord(tail, "fxp")
    ensures !HasWord(SEP + tail, "hxxp") && !HasWord(SEP + tail, "fxp") && BeforeColon(SEP + tail)
  {
    HasWordSkip(SEP, tail, "hxxp");
    HasWordSkip(SEP, tail, "fxp");
  }

  lemma {:induction false} HttpsShows(after: string, word: char -> bool)
    requires BeforeColon(after) && !HasWord(after, "hxxp") && !HasWord(after, "fxp")
    ensures ShowFtp(ShowHttp("hxxps" + after, word, true), word, true) == "https" + after
  {
    HasWordSkip("s", after, "hxxp");
    HasWordSkip("s", after, "fxp");
    assert ("s" + after)[1..] == after;
    HttpShows("s" + after, word);
    Https(after);
  }

  lemma {:induction false} SchemeShows(scheme: Scheme, tail: string, word: char -> bool)
    requires !HasWord(tail, "hxxp") && !HasWord(tail, "fxp")
    ensures ShowFtp(ShowHttp(scheme.HiddenName() + (SEP + tail), word, true), word, true) == scheme.Name() + (SEP + tail)
  {
    AfterScheme(tail);
    match scheme {
      case Http => HttpShows(SEP + tail, word);
      case Https => HttpsShows(SEP + tail, word);
      case Ftp => FtpShows(SEP + tail, word);
    }
  }

  lemma {:induction false} BracketsOff(scheme: Scheme, rest: string, tail: string)
    requires Plain(rest) && tail == Tail(rest)
    ensures WithoutBrackets(scheme.Name() + (SEP + tail))
            == scheme.Name() + ("://" + rest)
  {
    SeparatorsOff(scheme, rest);
    BracketsComeOff(scheme.Name() + "://", rest);
    Associate(scheme.Name(), "://", rest);
  }

  lemma {:induction false} SeparatorsOff(scheme: Scheme, rest: string)
    requires '[' !in rest
    ensures Replace(scheme.Name() + (SEP + Tail(rest)), SEP, "://")
            == scheme.Name() + "://" + BracketSome(rest, true)
  {
    var tail := Tail(rest);
    ReplaceSkip(scheme.Name(), SEP + tail, SEP, "://");
    ReplaceHere(tail, SEP, "://");
    UnseparateAuthority(rest);
    BracketSomeIsAuthority(rest);
    Associate(scheme.Name(), "://", BracketAuthority(rest));
  }

  lemma {:induction false} BracketsComeOff(p: string, rest: string)
    requires Plain(rest) && '[' !in p && '(' !in p && '{' !in p
    ensures var colons := Replace(p + BracketSome(rest, true), "[:]", ":");
            Replace(Replace(ShowDots(colons), "[@]", "@"), "[at]", "@") == p + rest
  {
    ReplaceSkip(p, BracketSome(rest, true), "[:]", ":");
    NoColonBrackets(rest);
    ReplaceSkip(p, BracketSome(rest, true), "[.]", ".");
    DotsComeOff(rest);
    var some := BracketSome(rest, false);
    BracketSomeChars(rest, false, '(');
    BracketSomeChars(rest, false, '{');
    ReplaceAbsent(p + some, "(.)", ".");
    ReplaceAbsent(p + some, "{.}", ".");
    ReplaceSkip(p, some, "[@]", "@");
    AtSignsComeOff(rest);
    ReplaceAbsent(p + rest, "[at]", "@");
  }

  lemma {:induction false} ReplaceAbsent(s: string, pattern: string, value: string)
    requires pattern != "" && pattern[0] !in s
    ensures Replace(s, pattern, value) == s
  {
    ReplaceSkip(s, "", pattern, value);
    assert s + "" == s;
  }

  lemma {:induction false} RefangForm(scheme: Scheme, tail: string, word: char -> bool)
    requires !HasWord(tail, "hxxp") && !HasWord(tail, "fxp")
    ensures Refanged(scheme.HiddenName() + SEP + tail, word) == WithoutBrackets(scheme.Name() + (SEP + tail))
  {
    Associate(scheme.HiddenName(), SEP, tail);
    SchemeShows(scheme, tail, word);
  }

  lemma {:induction false} DefangedTail(scheme: Scheme, rest: string) returns (tail: string)
    requires Plain(rest)
    ensures Defanged(scheme.Name() + ("://" + rest)) == scheme.HiddenName() + SEP + tail
    ensures !HasWord(tail, "hxxp") && !HasWord(tail, "fxp")
    ensures WithoutBrackets(scheme.Name() + (SEP + tail)) == scheme.Name() + ("://" + rest)
  {
    tail := Tail(rest);
    DefangedForm(scheme, rest, tail);
    WordsStayAway(rest, tail, "hxxp");
    WordsStayAway(rest, tail, "fxp");
    BracketsOff(scheme, rest, tail);
  }

  /** Refanging restores every URL with a lower-case scheme and a plain rest. */
  lemma {:induction false} RefangDefang(scheme: Scheme, rest: string, word: char -> bool)
    requires Plain(rest)
    ensures Refanged(Defanged(scheme.Name() + ("://" + rest)), word) == scheme.Name() + ("://" + rest)
  {
    var tail := DefangedTail(scheme, rest);
    RefangForm(scheme, tail, word);
  }
}
