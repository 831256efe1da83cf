/** Defanging and refanging URLs (src/heron/analysis/extractor.py). */
module Defang {
  import opened Strings

  // ------------------------------------------------------------------ text primitives

  predicate Starts(s: string, w: string) {
    |w| <= |s| && s[..|w|] == w
  }

  /** `s` starts with the lower-case word `w` in any letter case. */
  predicate StartsWord(s: string, w: string) {
    |w| <= |s| && forall i :: 0 <= i < |w| ==> LowerChar(s[i]) == w[i]
  }

  predicate HasWord(s: string, w: string) {
    StartsWord(s, w) || (s != "" && HasWord(s[1..], w))
  }

  lemma {:induction false} HasWordAnywhere(s: string, w: string)
    ensures HasWord(s, w) <==> exists i :: 0 <= i <= |s| && StartsWord(s[i..], w)
  {
    assert s[0..] == s;
    if s != "" {
      HasWordAnywhere(s[1..], w);
      forall i | 0 <= i < |s| ensures s[1..][i..] == s[i + 1..] { }
      if i :| 0 <= i <= |s| && StartsWord(s[i..], w) {
        if i > 0 { assert s[1..][i - 1..] == s[i..]; }
      }
    }
  }

  lemma {:induction false} StartsFirst(s: string, w: string)
    requires w != ""
    ensures Starts(s, w) ==> s[0] == w[0]
  {
  }

  /** Python's `str.replace`: leftmost, without overlaps. */
  function Replace(s: string, pattern: string, value: string): string
    requires pattern != ""
  {
    if s == "" then ""
    else if Starts(s, pattern) then value + Replace(s[|pattern|..], pattern, value)
    else [s[0]] + Replace(s[1..], pattern, value)
  }

  /** The text before the first separator, the separator, the text after it. */
  function Partition(s: string, sep: string): (r: (string, string, string))
    ensures r.0 + r.1 + r.2 == s
  {
    if Starts(s, sep) then ("", sep, s[|sep|..])
    else if s == "" then ("", "", "")
    else
      var (p, q, r) := Partition(s[1..], sep);
      ([s[0]] + p, q, r)
  }

  // ------------------------------------------------------------------ defanging

  function HideHttp(s: string): string {
    if s == "" then ""
    else if StartsWord(s, "http") then "hxxp" + HideHttp(s[4..])
    else [s[0]] + HideHttp(s[1..])
  }

  function HideFtp(s: string): string {
    if StartsWord(s, "ftp") && Starts(s[3..], "://") then "fxp" + s[3..] else s
  }

  predicate IsDelimiter(c: char) {
    c == '/' || c == '?' || c == '#'
  }

  /** Dots and at signs in brackets, up to the first delimiter. */
  function BracketAuthority(s: string): string {
    if s == "" || IsDelimiter(s[0]) then s
    else (if s[0] == '.' || s[0] == '@' then ['[', s[0], ']'] else [s[0]]) + BracketAuthority(s[1..])
  }

  const SEP := "[://]"

  function Hidden(url: string): string {
    Replace(HideFtp(HideHttp(url)), "://", SEP)
  }

  function Defanged(url: string): string {
    var (prefix, sep, rest) := Partition(Hidden(url), SEP);
    if sep == "" then BracketAuthority(Hidden(url)) else prefix + sep + BracketAuthority(rest)
  }

  lemma {:induction false} ReplaceOther(c: char, s: string, pattern: string, value: string)
    requires pattern != "" && c != pattern[0]
    ensures Replace([c] + s, pattern, value) == [c] + Replace(s, pattern, value)
  {
    assert ([c] + s)[1..] == s;
  }

  lemma {:induction false} ReplaceHere(s: string, pattern: string, value: string)
    requires pattern != ""
    ensures Replace(pattern + s, pattern, value) == value + Replace(s, pattern, value)
  {
    assert (pattern + s)[|pattern|..] == s;
  }

  lemma {:induction false} ReplaceSkip(p: string, s: string, pattern: string, value: string)
    requires pattern != "" && pattern[0] !in p
    ensures Replace(p + s, pattern, value) == p + Replace(s, pattern, value)
  {
    if p == "" {
      assert p + s == s;
    } else {
      ReplaceSkip(p[1..], s, pattern, value);
      assert (p + s)[1..] == p[1..] + s;
      assert (p + s)[0] == p[0] && p[0] in p;
      StartsFirst(p + s, pattern);
    }
  }

  function BothPasses(s: string): string {
    Replace(Replace(s, ".", "[.]"), "@", "[@]")
  }

  lemma {:induction false} BothPassesCons(c: char, s: string)
    ensures BothPasses([c] + s) == (if c == '.' || c == '@' then ['[', c, ']'] else [c]) + BothPasses(s)
  {
    var inner := Replace(s, ".", "[.]");
    if c == '.' {
      ReplaceHere(s, ".", "[.]");
      ReplaceSkip("[.]", inner, "@", "[@]");
    } else {
      ReplaceOther(c, s, ".", "[.]");
      if c == '@' {
        ReplaceHere(inner, "@", "[@]");
      } else {
        ReplaceOther(c, inner, "@", "[@]");
      }
    }
  }

  lemma {:induction false} AuthorityStep(c: char, s: string)
    requires !IsDelimiter(c)
    ensures BracketAuthority([c] + s) == (if c == '.' || c == '@' then ['[', c, ']'] else [c]) + BracketAuthority(s)
  {
    assert ([c] + s)[1..] == s;
  }

  lemma {:induction false} BracketedInTwoPasses(s: string, t: string)
    requires forall i :: 0 <= i < |s| ==> !IsDelimiter(s[i])
    requires t == "" || IsDelimiter(t[0])
    ensures BothPasses(s) + t == BracketAuthority(s + t)
  {
    if s == "" {
      assert s + t == t;
    } else {
      var c, rest := s[0], s[1..];
      BracketedInTwoPasses(rest, t);
      BothPassesCons(c, rest);
      AuthorityStep(c, rest + t);
      assert s == [c] + rest && s + t == [c] + (rest + t);
    }
  }

  /** The position of a character, or the length. */
  function FindChar(s: string, c: char): (i: nat)
    ensures i <= |s| && (forall j :: 0 <= j < i ==> s[j] != c) && (i < |s| ==> s[i] == c)
  {
    if s == "" || s[0] == c then 0 else 1 + FindChar(s[1..], c)
  }

  method FindBoundary(rest: string) returns (boundary: nat)
    ensures boundary <= |rest|
    ensures forall j :: 0 <= j < boundary ==> !IsDelimiter(rest[j])
    ensures boundary < |rest| ==> IsDelimiter(rest[boundary])
  {
    var delimiters := "/?#";
    boundary := |rest|;
    for i := 0 to |delimiters|
      invariant boundary <= |rest|
      invariant forall j, k :: 0 <= j < boundary && 0 <= k < i ==> rest[j] != delimiters[k]
      invariant boundary < |rest| ==> IsDelimiter(rest[boundary])
    {
      var position := FindChar(rest, delimiters[i]);
      if position < |rest| && position < boundary {
        boundary := position;
      }
    }
    forall j | 0 <= j < boundary ensures !IsDelimiter(rest[j]) {
      assert rest[j] != delimiters[0] && rest[j] != delimiters[1] && rest[j] != delimiters[2];
    }
  }

  lemma {:induction false} BracketedAtBoundary(s: string, boundary: nat)
    requires boundary <= |s| && (boundary < |s| ==> IsDelimiter(s[boundary]))
    requires forall j :: 0 <= j < boundary ==> !IsDelimiter(s[j])
    ensures BothPasses(s[..boundary]) + s[boundary..] == BracketAuthority(s)
  {
    BracketedInTwoPasses(s[..boundary], s[boundary..]);
    assert s[..boundary] + s[boundary..] == s;
  }

  method DefangUrl(url: string) returns (defanged: string)
    ensures defanged == Defanged(url)
  {
    var out := Hidden(url);
    var (prefix, sep, rest) := Partition(out, SEP);
    if sep == "" {
      prefix, rest := "", out;
    }
    var boundary := FindBoundary(rest);
    BracketedAtBoundary(rest, boundary);
    var authority := BothPasses(rest[..boundary]);
    defanged := prefix + sep + (authority + rest[boundary..]);
  }

  // ------------------------------------------------------------------ nothing clickable is left

  lemma {:induction false} StartsWordCons(c: char, s: string, w: string)
    requires w != ""
    ensures StartsWord([c] + s, w) <==> LowerChar(c) == w[0] && StartsWord(s, w[1..])
  {
    var cs := [c] + s;
    assert forall i :: 0 <= i < |s| ==> cs[i + 1] == s[i];
    if StartsWord(cs, w) {
      assert forall i :: 0 <= i < |w[1..]| ==> LowerChar(s[i]) == LowerChar(cs[i + 1]) && w[1..][i] == w[i + 1];
    }
    if LowerChar(c) == w[0] && StartsWord(s, w[1..]) {
      forall i | 0 <= i < |w| ensures LowerChar(cs[i]) == w[i] {
        if i > 0 { assert LowerChar(s[i - 1]) == w[1..][i - 1]; }
      }
    }
  }

  lemma {:induction false} HasWordCons(c: char, s: string, w: string)
    ensures HasWord([c] + s, w) <==> StartsWord([c] + s, w) || HasWord(s, w)
  {
    assert ([c] + s)[1..] == s;
  }

  /** Characters with which the word cannot start. */
  lemma {:induction false} HasWordSkip(p: string, s: string, w: string)
    requires w != "" && forall i :: 0 <= i < |p| ==> LowerChar(p[i]) != w[0]
    ensures HasWord(p + s, w) <==> HasWord(s, w)
  {
    if p == "" {
      assert p + s == s;
    } else {
      HasWordSkip(p[1..], s, w);
      assert p + s == [p[0]] + (p[1..] + s);
      HasWordCons(p[0], p[1..] + s, w);
      StartsWordCons(p[0], p[1..] + s, w);
    }
  }

  lemma {:induction false} HideHttpTail(s: string, w: string)
    requires 'h' !in w && StartsWord(HideHttp(s), w)
    ensures StartsWord(s, w)
  {
    if w != "" && s != "" {
      assert LowerChar(HideHttp(s)[0]) == w[0] && w[0] in w;
      if !StartsWord(s, "http") {
        StartsWordCons(s[0], HideHttp(s[1..]), w);
        HideHttpTail(s[1..], w[1..]);
        StartsWordCons(s[0], s[1..], w);
        assert s == [s[0]] + s[1..];
      }
    }
  }

  lemma {:induction false} HideHttpClean(s: string)
    ensures !HasWord(HideHttp(s), "http")
    decreases |s|
  {
    if s == "" {
    } else if StartsWord(s, "http") {
      HideHttpClean(s[4..]);
      var rest := HideHttp(s[4..]);
      assert HideHttp(s) == ['h'] + ("xxp" + rest);
      HasWordCons('h', "xxp" + rest, "http");
      HasWordSkip("xxp", rest, "http");
      assert (['h'] + ("xxp" + rest))[1] == 'x';
    } else {
      HideHttpClean(s[1..]);
      var rest := HideHttp(s[1..]);
      HasWordCons(s[0], rest, "http");
      StartsWordCons(s[0], rest, "http");
      StartsWordCons(s[0], s[1..], "http");
      assert s == [s[0]] + s[1..];
      if StartsWord(rest, "http"[1..]) {
        HideHttpTail(s[1..], "http"[1..]);
      }
    }
  }

  lemma {:induction false} HideFtpClean(s: string)
    requires !HasWord(s, "http")
    ensures !HasWord(HideFtp(s), "http")
  {
    if HideFtp(s) != s {
      var rest := s[3..];
      assert HideFtp(s) == "fxp" + rest && s == s[..3] + rest;
      HasWordSkip("fxp", rest, "http");
      HasWordSkip(s[..3], rest, "http");
    }
  }

  // ------------------------------------------------------------------ the later steps only insert brackets

  predicate IsBracket(c: char) {
    c == '[' || c == ']'
  }

  /** `t` is `s` with brackets inserted. */
  predicate Inserted(s: string, t: string) {
    if t == "" then s == ""
    else (s != "" && s[0] == t[0] && Inserted(s[1..], t[1..])) || (IsBracket(t[0]) && Inserted(s, t[1..]))
  }

  predicate NoBracket(w: string) {
    forall i :: 0 <= i < |w| ==> !IsBracket(w[i])
  }

  lemma {:induction false} StartKept(s: string, t: string, w: string)
    requires Inserted(s, t) && NoBracket(w) && StartsWord(t, w)
    ensures StartsWord(s, w)
    decreases |t|
  {
    if w != "" {
      assert t == [t[0]] + t[1..];
      StartsWordCons(t[0], t[1..], w);
      assert !IsBracket(t[0]);
      StartKept(s[1..], t[1..], w[1..]);
      StartsWordCons(s[0], s[1..], w);
      assert s == [s[0]] + s[1..];
    }
  }

  /** A word without brackets that shows up after inserting brackets was there before. */
  lemma {:induction false} WordKept(s: string, t: string, w: string)
    requires Inserted(s, t) && NoBracket(w) && HasWord(t, w)
    ensures HasWord(s, w)
    decreases |t|
  {
    if StartsWord(t, w) {
      StartKept(s, t, w);
    } else if s != "" && s[0] == t[0] && Inserted(s[1..], t[1..]) {
      WordKept(s[1..], t[1..], w);
    } else {
      WordKept(s, t[1..], w);
    }
  }

  lemma {:induction false} InsertedSame(p: string, s: string, t: string)
    requires Inserted(s, t)
    ensures Inserted(p + s, p + t)
  {
    if p == "" {
      assert p + s == s && p + t == t;
    } else {
      InsertedSame(p[1..], s, t);
      assert (p + s)[1..] == p[1..] + s && (p + t)[1..] == p[1..] + t;
    }
  }

  lemma {:induction false} InsertedBracket(b: char, s: string, t: string)
    requires Inserted(s, t) && IsBracket(b)
    ensures Inserted(s, [b] + t)
  {
    assert ([b] + t)[1..] == t;
  }

  lemma {:induction false} SeparatorsInserted(s: string)
    ensures Inserted(s, Replace(s, "://", SEP))
    decreases |s|
  {
    if s == "" {
    } else if Starts(s, "://") {
      SeparatorsInserted(s[3..]);
      var rest := Replace(s[3..], "://", SEP);
      InsertedBracket(']', s[3..], rest);
      InsertedSame("://", s[3..], [']'] + rest);
      InsertedBracket('[', "://" + s[3..], "://" + ([']'] + rest));
      assert s == "://" + s[3..] && Replace(s, "://", SEP) == ['['] + ("://" + ([']'] + rest));
    } else {
      SeparatorsInserted(s[1..]);
      InsertedSame([s[0]], s[1..], Replace(s[1..], "://", SEP));
      assert s == [s[0]] + s[1..];
    }
  }

  lemma {:induction false} AuthorityInserted(s: string)
    ensures Inserted(s, BracketAuthority(s))
  {
    if s == "" || IsDelimiter(s[0]) {
      InsertedSame(s, "", "");
      assert s + "" == s;
    } else {
      AuthorityInserted(s[1..]);
      var c, rest := [s[0]], BracketAuthority(s[1..]);
      assert s == c + s[1..];
      if s[0] == '.' || s[0] == '@' {
        InsertedBracket(']', s[1..], rest);
        InsertedSame(c, s[1..], [']'] + rest);
        InsertedBracket('[', s, c + ([']'] + rest));
        assert BracketAuthority(s) == ['['] + (c + ([']'] + rest));
      } else {
        InsertedSame(c, s[1..], rest);
      }
    }
  }

  /** No "http" is left anywhere, in any letter case. */
  lemma {:induction false} NoHttpLeft(url: string)
    ensures forall i :: 0 <= i <= |Defanged(url)| ==> !StartsWord(Defanged(url)[i..], "http")
  {
    var hidden := HideFtp(HideHttp(url));
    HideHttpClean(url);
    HideFtpClean(HideHttp(url));
    var out := Hidden(url);
    SeparatorsInserted(hidden);
    if HasWord(out, "http") { WordKept(hidden, out, "http"); }
    DefangInserts(url);
    if HasWord(Defanged(url), "http") { WordKept(out, Defanged(url), "http"); }
    HasWordAnywhere(Defanged(url), "http");
  }

  lemma {:induction false} DefangInserts(url: string)
    ensures Inserted(Hidden(url), Defanged(url))
  {
    var out := Hidden(url);
    var (prefix, sep, rest) := Partition(out, SEP);
    AuthorityInserted(rest);
    AuthorityInserted(out);
    InsertedSame(prefix + sep, rest, BracketAuthority(rest));
  }

  // ------------------------------------------------------------------ every "://" is bracketed

  /** Every "://" has "[" before it and "]" after it; `inside` says that "[" precedes the text. */
  predicate Bracketed(s: string, inside: bool) {
    s == "" || ((Starts(s, "://") ==> inside && |s| > 3 && s[3] == ']') && Bracketed(s[1..], s[0] == '['))
  }

  lemma {:induction false} BracketedEverywhere(s: string, inside: bool, i: nat)
    requires Bracketed(s, inside) && i <= |s| && Starts(s[i..], "://")
    ensures (if i == 0 then inside else s[i - 1] == '[') && i + 3 < |s| && s[i + 3] == ']'
  {
    if i == 0 {
      assert s[0..] == s;
    } else {
      assert s[1..][i - 1..] == s[i..];
      BracketedEverywhere(s[1..], s[0] == '[', i - 1);
    }
  }

  lemma {:induction false} BracketedCons(c: char, s: string, inside: bool)
    requires c != ':' && Bracketed(s, c == '[')
    ensures Bracketed([c] + s, inside)
  {
    StartsFirst([c] + s, "://");
    assert ([c] + s)[1..] == s;
  }

  lemma {:induction false} BracketedSeparator(s: string, inside: bool)
    requires Bracketed(s, false)
    ensures Bracketed(SEP + s, inside)
  {
    BracketedCons(']', s, false);
    BracketedCons('/', "]" + s, false);
    BracketedCons('/', "/" + ("]" + s), false);
    var tail := "/" + ("/" + ("]" + s));
    assert (":" + tail)[1..] == tail && (":" + tail)[3] == ']';
    BracketedCons('[', ":" + tail, inside);
    assert SEP + s == "[" + (":" + tail);
  }

  lemma {:induction false} SeparatorsBracketed(s: string, inside: bool)
    ensures Bracketed(Replace(s, "://", SEP), inside)
    decreases |s|
  {
    if s == "" {
    } else if Starts(s, "://") {
      SeparatorsBracketed(s[3..], false);
      BracketedSeparator(Replace(s[3..], "://", SEP), inside);
    } else {
      var rest := Replace(s[1..], "://", SEP);
      SeparatorsBracketed(s[1..], s[0] == '[');
      SeparatorKept(s[0], s[1..]);
      assert s == [s[0]] + s[1..] && ([s[0]] + rest)[1..] == rest;
    }
  }

  lemma {:induction false} SeparatorHasNoCase(s: string)
    ensures StartsWord(s, "://") <==> Starts(s, "://")
  {
    if StartsWord(s, "://") {
      assert LowerChar(s[0]) == ':' && LowerChar(s[1]) == '/' && LowerChar(s[2]) == '/';
    }
    if Starts(s, "://") {
      assert forall i :: 0 <= i < 3 ==> s[i] == "://"[i];
    }
  }

  /** Replacing separators makes no new one. */
  lemma {:induction false} SeparatorKept(c: char, s: string)
    ensures Starts([c] + Replace(s, "://", SEP), "://") ==> Starts([c] + s, "://")
  {
    SeparatorsInserted(s);
    var out := Replace(s, "://", SEP);
    SeparatorHasNoCase([c] + out);
    SeparatorHasNoCase([c] + s);
    StartsWordCons(c, out, "://");
    StartsWordCons(c, s, "://");
    if StartsWord(out, "://"[1..]) {
      StartKept(s, out, "://"[1..]);
    }
  }

  lemma {:induction false} AuthorityBracketed(s: string, inside: bool)
    requires Bracketed(s, inside)
    ensures Bracketed(BracketAuthority(s), inside)
  {
    if s != "" && !IsDelimiter(s[0]) {
      AuthorityBracketed(s[1..], s[0] == '[');
      var rest := BracketAuthority(s[1..]);
      if s[0] == '.' || s[0] == '@' {
        BracketedCons(']', rest, false);
        BracketedCons(s[0], "]" + rest, true);
        BracketedCons('[', [s[0]] + ("]" + rest), inside);
        assert BracketAuthority(s) == "[" + ([s[0]] + ("]" + rest));
      } else {
        assert ([s[0]] + rest)[1..] == rest;
        if Starts([s[0]] + rest, "://") {
          assert rest[0] == ([s[0]] + rest)[1] == '/';
          assert rest == s[1..] && [s[0]] + rest == s;
        }
      }
    }
  }

  lemma {:induction false} StartsChar(s: string, w: string, i: nat)
    requires Starts(s, w) && i < |w|
    ensures s[i] == w[i]
  {
  }

  /** Text after "]" can be exchanged. */
  lemma {:induction false} BracketedAfter(p: string, s: string, t: string, inside: bool)
    requires p != "" && p[|p| - 1] == ']' && Bracketed(p + s, inside)
    ensures Bracketed(s, false)
    ensures Bracketed(t, false) ==> Bracketed(p + t, inside)
  {
    assert (p + s)[1..] == p[1..] + s && (p + t)[1..] == p[1..] + t;
    if |p| == 1 {
      assert p[1..] + s == s && p[1..] + t == t;
      StartsFirst(p + t, "://");
    } else {
      BracketedAfter(p[1..], s, t, p[0] == '[');
      if Starts(p + t, "://") {
        StartsChar(p + t, "://", if |p| <= 3 then |p| - 1 else 0);
        assert forall i :: 0 <= i < |p| ==> (p + t)[i] == p[i] == (p + s)[i];
        assert Starts(p + s, "://") by { assert (p + s)[..3] == (p + t)[..3]; }
      }
    }
  }

  /** Every "://" of a defanged URL stands in brackets. */
  lemma {:induction false} SeparatorsStayBracketed(url: string, i: nat)
    requires i <= |Defanged(url)| && Starts(Defanged(url)[i..], "://")
    ensures i > 0 && Defanged(url)[i - 1] == '[' && i + 3 < |Defanged(url)| && Defanged(url)[i + 3] == ']'
  {
    var out := Hidden(url);
    var (prefix, sep, rest) := Partition(out, SEP);
    SeparatorsBracketed(HideFtp(HideHttp(url)), false);
    if sep == "" {
      AuthorityBracketed(out, false);
    } else {
      PartitionFirst(out, SEP);
      BracketedAfter(prefix + sep, rest, BracketAuthority(rest), false);
      AuthorityBracketed(rest, false);
    }
    BracketedEverywhere(Defanged(url), false, i);
  }

  // ------------------------------------------------------------------ the authority

  predicate Contains(s: string, w: string) {
    Starts(s, w) || (s != "" && Contains(s[1..], w))
  }

  /** `Partition` splits at the first separator, if there is one. */
  lemma {:induction false} PartitionFirst(s: string, sep: string)
    requires sep != ""
    ensures var r := Partition(s, sep);
            if Contains(s, sep) then r.1 == sep else r == (s, "", "")
  {
    if !Starts(s, sep) && s != "" {
      PartitionFirst(s[1..], sep);
      assert [s[0]] + s[1..] == s;
    }
  }

  lemma {:induction false} StartsPrefix(p: string, a: string, b: string, w: string)
    requires |p| >= |w|
    ensures Starts(p + a, w) <==> Starts(p + b, w)
  {
    assert (p + a)[..|w|] == p[..|w|] == (p + b)[..|w|];
  }

  /** What follows the separator does not move it. */
  lemma {:induction false} PartitionSame(p: string, sep: string, a: string, b: string)
    requires sep != "" && Partition(p + sep + a, sep) == (p, sep, a)
    ensures Partition(p + sep + b, sep) == (p, sep, b)
  {
    StartsPrefix(p + sep, a, b, sep);
    if p == "" {
      assert p + sep + b == sep + b && (sep + b)[|sep|..] == b;
    } else {
      assert (p + sep + a)[1..] == p[1..] + sep + a && (p + sep + b)[1..] == p[1..] + sep + b;
      assert p == [p[0]] + p[1..];
      PartitionSame(p[1..], sep, a, b);
    }
  }

  /** The text between the first separator (or the start) and the first delimiter after it. */
  function Authority(s: string): string {
    var (prefix, sep, rest) := Partition(s, SEP);
    UpToDelimiter(if sep == "" then s else rest)
  }

  function UpToDelimiter(s: string): string {
    if s == "" || IsDelimiter(s[0]) then "" else [s[0]] + UpToDelimiter(s[1..])
  }

  /** The authority goes up to the first slash, question mark or hash. */
  lemma {:induction false} AuthorityExtent(s: string)
    ensures var a := UpToDelimiter(s);
            && |a| <= |s| && a == s[..|a|] && '/' !in a && '?' !in a && '#' !in a
            && (|a| < |s| ==> s[|a|] == '/' || s[|a|] == '?' || s[|a|] == '#')
  {
    if s != "" && !IsDelimiter(s[0]) {
      AuthorityExtent(s[1..]);
      assert s == [s[0]] + s[1..];
    }
  }

  /** Every dot and at sign has "[" before it and "]" after it. */
  predicate Wrapped(s: string, inside: bool) {
    s == "" || ((s[0] == '.' || s[0] == '@' ==> inside && |s| > 1 && s[1] == ']') && Wrapped(s[1..], s[0] == '['))
  }

  lemma {:induction false} WrappedEverywhere(s: string, inside: bool, i: nat)
    requires Wrapped(s, inside) && i < |s| && (s[i] == '.' || s[i] == '@')
    ensures (if i == 0 then inside else s[i - 1] == '[') && i + 1 < |s| && s[i + 1] == ']'
  {
    if i > 0 { WrappedEverywhere(s[1..], s[0] == '[', i - 1); }
  }

  lemma {:induction false} AuthorityWrapped(s: string, inside: bool)
    ensures Wrapped(UpToDelimiter(BracketAuthority(s)), inside)
  {
    if s != "" && !IsDelimiter(s[0]) {
      AuthorityWrapped(s[1..], s[0] == '[');
      var rest := BracketAuthority(s[1..]);
      var shown := UpToDelimiter(rest);
      if s[0] == '.' || s[0] == '@' {
        AuthorityWrapped(s[1..], false);
        assert BracketAuthority(s) == ['['] + ([s[0]] + ([']'] + rest));
        UpToCons(']', rest);
        UpToCons(s[0], [']'] + rest);
        UpToCons('[', [s[0]] + ([']'] + rest));
        WrappedTriple(s[0], shown, inside);
      } else {
        UpToCons(s[0], rest);
        assert ([s[0]] + shown)[1..] == shown;
      }
    }
  }

  lemma {:induction false} UpToCons(c: char, s: string)
    requires !IsDelimiter(c)
    ensures UpToDelimiter([c] + s) == [c] + UpToDelimiter(s)
  {
    assert ([c] + s)[1..] == s;
  }

  lemma {:induction false} WrappedTriple(c: char, s: string, inside: bool)
    requires c == '.' || c == '@'
    requires Wrapped(s, false)
    ensures Wrapped(['['] + ([c] + ([']'] + s)), inside)
  {
    assert ([']'] + s)[1..] == s;
    assert ([c] + ([']'] + s))[1..] == [']'] + s;
    assert (['['] + ([c] + ([']'] + s)))[1..] == [c] + ([']'] + s);
    assert Wrapped([']'] + s, false);
    assert Wrapped([c] + ([']'] + s), true);
  }

  /** Every dot and every at sign in the authority of a defanged URL stands in brackets. */
  lemma {:induction false} AuthorityIsWrapped(url: string, i: nat)
    requires i < |Authority(Defanged(url))| && Authority(Defanged(url))[i] in ".@"
    ensures var a := Authority(Defanged(url)); i > 0 && a[i - 1] == '[' && i + 1 < |a| && a[i + 1] == ']'
  {
    var out := Hidden(url);
    var (prefix, sep, rest) := Partition(out, SEP);
    PartitionFirst(out, SEP);
    if sep == "" {
      NoSeparatorStays(url);
      PartitionFirst(Defanged(url), SEP);
      AuthorityWrapped(out, false);
    } else {
      PartitionSame(prefix, SEP, rest, BracketAuthority(rest));
      AuthorityWrapped(rest, false);
    }
    WrappedEverywhere(Authority(Defanged(url)), false, i);
  }

  lemma {:induction false} ContainsWord(s: string)
    ensures Contains(s, SEP) ==> HasWord(s, "://")
  {
    if Starts(s, SEP) {
      assert forall j :: 0 <= j < 5 ==> s[j] == SEP[j];
      assert StartsWord(s[1..], "://");
    } else if s != "" {
      ContainsWord(s[1..]);
    }
  }

  lemma {:induction false} BracketedWord(s: string, inside: bool)
    requires Bracketed(s, inside) && HasWord(s, "://") && !(inside && Starts(s, "://"))
    ensures Contains(s, SEP)
  {
    SeparatorHasNoCase(s);
    if Starts(s, "://") {
    } else if s[0] == '[' && Starts(s[1..], "://") {
      assert s[1..][3] == ']' && s[..5] == SEP;
    } else {
      BracketedWord(s[1..], s[0] == '[');
    }
  }

  lemma {:induction false} NoSeparatorStays(url: string)
    requires !Contains(Hidden(url), SEP)
    ensures !Contains(Defanged(url), SEP)
  {
    if Contains(Defanged(url), SEP) {
      ContainsWord(Defanged(url));
      DefangInserts(url);
      WordKept(Hidden(url), Defanged(url), "://");
      SeparatorsBracketed(HideFtp(HideHttp(url)), false);
      BracketedWord(Hidden(url), false);
    }
  }
}
