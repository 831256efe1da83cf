/** What a parsed Authentication-Results header says, in terms of its text: the reading of one
    segment, and of a whole header (src/heron/rules/authentication.py; section 2.2 of RFC 8601). */
module AuthenticationHeader {
  import opened Authentication
  import opened Strings
  import opened Wrappers

  // ------------------------------------------------------------------ characters

  /** The character classes and the lower case, by code point. */
  lemma {:induction false} CharacterClasses(c: char)
    ensures IsLetter(c) <==> 65 <= c as int <= 90 || 97 <= c as int <= 122
    ensures IsWordOrDash(c) <==> IsLetter(c) || 48 <= c as int <= 57 || c as int == 95 || c as int == 45
    ensures IsSpace(c) <==> c as int in {32, 9, 10, 11, 12, 13, 28, 29, 30, 31}
    ensures LowerChar(c) as int == c as int + if 65 <= c as int <= 90 then 32 else 0
  {
  }

  predicate All(s: string, p: char -> bool) {
    forall i :: 0 <= i < |s| ==> p(s[i])
  }

  lemma {:induction false} SpanIs(s: string, rest: string, p: char -> bool)
    requires All(s, p) && (rest == "" || !p(rest[0]))
    ensures SpanLength(s + rest, p) == |s| && (s + rest)[..|s|] == s && (s + rest)[|s|..] == rest
  {
    if s == "" {
      assert s + rest == rest;
    } else {
      SpanIs(s[1..], rest, p);
      assert (s + rest)[1..] == s[1..] + rest;
    }
  }

  lemma {:induction false} SpanSplits(s: string, p: char -> bool)
    ensures var n := SpanLength(s, p); All(s[..n], p) && (n < |s| ==> !p(s[n])) && s == s[..n] + s[n..]
  {
    if s != "" && p(s[0]) {
      SpanSplits(s[1..], p);
      var n := SpanLength(s[1..], p);
      assert s[..n + 1] == [s[0]] + s[1..][..n];
    }
  }

  // ------------------------------------------------------------------ one segment

  /** Spaces, a name, spaces, "=", spaces, a word, and something that does not continue the word. */
  predicate SaysBy(segment: string, name: string, word: string, a: string, b: string, c: string, rest: string) {
    && All(a, IsSpace) && All(b, IsSpace) && All(c, IsSpace)
    && name != "" && IsLetter(name[0]) && All(name, IsWordOrDash)
    && word != "" && All(word, IsLetter) && (rest == "" || !IsLetter(rest[0]))
    && segment == a + (name + (b + ("=" + (c + (word + rest)))))
  }

  ghost predicate Says(segment: string, name: string, word: string) {
    exists a, b, c, rest :: SaysBy(segment, name, word, a, b, c, rest)
  }

  /** The part of a segment after the name. */
  predicate ValueBy(s: string, word: string, b: string, c: string, rest: string) {
    && All(b, IsSpace) && All(c, IsSpace) && word != "" && All(word, IsLetter) && (rest == "" || !IsLetter(rest[0]))
    && s == b + ("=" + (c + (word + rest)))
  }

  lemma {:induction false} SkipIs(a: string, rest: string)
    requires All(a, IsSpace) && (rest == "" || !IsSpace(rest[0]))
    ensures SkipSpaces(a + rest) == rest
  {
    SpanIs(a, rest, IsSpace);
  }

  lemma {:induction false} ValueIsMatched(s: string, word: string, b: string, c: string, rest: string)
    requires ValueBy(s, word, b, c, rest)
    ensures MatchValue(s) == Some(Lower(word)) && s != "" && !IsWordOrDash(s[0])
  {
    var value := word + rest;
    var eq := "=" + (c + value);
    assert s[0] == if b == "" then '=' else b[0];
    SkipIs(b, eq);
    assert eq[1..] == c + value && value[0] == word[0];
    SkipIs(c, value);
    SpanIs(word, rest, IsLetter);
  }

  lemma {:induction false} Skipped(s: string) returns (a: string)
    ensures All(a, IsSpace) && s == a + SkipSpaces(s)
  {
    SpanSplits(s, IsSpace);
    a := s[..SpanLength(s, IsSpace)];
  }

  lemma {:induction false} MatchedValue(s: string) returns (word: string, b: string, c: string, rest: string)
    requires MatchValue(s).Some?
    ensures ValueBy(s, word, b, c, rest) && MatchValue(s) == Some(Lower(word))
  {
    var eq := SkipSpaces(s);
    var value;
    b := Skipped(s);
    c, value := AfterEquals(eq);
    word, rest := LeadingWord(value);
  }

  lemma {:induction false} AfterEquals(eq: string) returns (c: string, value: string)
    requires eq != "" && eq[0] == '='
    ensures All(c, IsSpace) && value == SkipSpaces(eq[1..]) && eq == "=" + (c + value)
  {
    value := SkipSpaces(eq[1..]);
    c := Skipped(eq[1..]);
  }

  lemma {:induction false} LeadingWord(value: string) returns (word: string, rest: string)
    ensures word == value[..SpanLength(value, IsLetter)] && value == word + rest
    ensures All(word, IsLetter) && (rest == "" || !IsLetter(rest[0]))
  {
    SpanSplits(value, IsLetter);
    word, rest := value[..SpanLength(value, IsLetter)], value[SpanLength(value, IsLetter)..];
  }

  lemma {:induction false} SaidIsMatched(segment: string, name: string, word: string, a: string, b: string, c: string,
                                         rest: string)
    requires SaysBy(segment, name, word, a, b, c, rest)
    ensures MatchResult(segment) == Some((Lower(name), Lower(word)))
  {
    var tail := b + ("=" + (c + (word + rest)));
    ValueIsMatched(tail, word, b, c, rest);
    assert (name + tail)[0] == name[0];
    SkipIs(a, name + tail);
    SpanIs(name, tail, IsWordOrDash);
  }

  lemma {:induction false} MatchedIsSaid(segment: string) returns (name: string, word: string)
    requires MatchResult(segment).Some?
    ensures Says(segment, name, word) && MatchResult(segment) == Some((Lower(name), Lower(word)))
  {
    var s := SkipSpaces(segment);
    var n := SpanLength(s, IsWordOrDash);
    SpanSplits(segment, IsSpace);
    SpanSplits(s, IsWordOrDash);
    var b, c, rest;
    word, b, c, rest := MatchedValue(s[n..]);
    name := s[..n];
    assert SaysBy(segment, name, word, segment[..SpanLength(segment, IsSpace)], b, c, rest);
  }

  /** A segment yields a method and a result if and only if it says them, and yields them in
      lower case. */
  lemma {:induction false} MatchResultIff(segment: string, m: string, r: string)
    ensures MatchResult(segment) == Some((m, r)) <==>
            exists name, word :: Says(segment, name, word) && m == Lower(name) && r == Lower(word)
  {
    if MatchResult(segment) == Some((m, r)) {
      var name, word := MatchedIsSaid(segment);
    }
    if name, word :| Says(segment, name, word) && m == Lower(name) && r == Lower(word) {
      var a, b, c, rest :| SaysBy(segment, name, word, a, b, c, rest);
      SaidIsMatched(segment, name, word, a, b, c, rest);
    }
  }

  // ------------------------------------------------------------------ the server

  /** The first word of the text. */
  predicate StartsWithBy(s: string, word: string, a: string, rest: string) {
    && All(a, IsSpace) && word != "" && All(word, c => !IsSpace(c)) && (rest == "" || IsSpace(rest[0]))
    && s == a + (word + rest)
  }

  ghost predicate StartsWithWord(s: string, word: string) {
    exists a, rest :: StartsWithBy(s, word, a, rest)
  }

  lemma {:induction false} FirstTokenIs(s: string, word: string)
    requires StartsWithWord(s, word)
    ensures FirstToken(s) == Some(Lower(word))
  {
    var a, rest :| StartsWithBy(s, word, a, rest);
    assert (word + rest)[0] == word[0];
    SpanIs(a, word + rest, IsSpace);
    SpanIs(word, rest, c => !IsSpace(c));
  }

  lemma {:induction false} NoFirstToken(s: string)
    requires All(s, IsSpace)
    ensures FirstToken(s) == None
  {
    SpanIs(s, "", IsSpace);
    assert s + "" == s;
  }

  // ------------------------------------------------------------------ the whole header

  /** The segment says this method and result, or nothing. */
  ghost predicate Reads(segment: string, said: Option<(string, string)>) {
    match said
    case Some(pair) => Says(segment, pair.0, pair.1)
    case None => forall name, word :: !Says(segment, name, word)
  }

  /** The results that are said for a method, in order, in lower case. */
  function ResultsOf(said: seq<Option<(string, string)>>, name: string): seq<string> {
    if said == [] then [] else
    (if said[0].Some? && Lower(said[0].value.0) == name then [Lower(said[0].value.1)] else []) + ResultsOf(said[1..], name)
  }

  /** The results list every method that is said, with all its results in order. */
  ghost predicate SaysAll(said: seq<Option<(string, string)>>, results: map<string, seq<string>>) {
    forall name :: (name in results <==> ResultsOf(said, name) != [])
                   && (name in results ==> results[name] == ResultsOf(said, name))
  }

  lemma {:induction false} ReadsMatch(segment: string, said: Option<(string, string)>)
    requires Reads(segment, said)
    ensures MatchResult(segment) == if said.Some? then Some((Lower(said.value.0), Lower(said.value.1))) else None
  {
    if said.Some? {
      var a, b, c, rest :| SaysBy(segment, said.value.0, said.value.1, a, b, c, rest);
      SaidIsMatched(segment, said.value.0, said.value.1, a, b, c, rest);
    } else if MatchResult(segment).Some? {
      var name, word := MatchedIsSaid(segment);
    }
  }

  lemma {:induction false} ResultsOfLast(said: seq<Option<(string, string)>>, last: Option<(string, string)>,
                                         name: string)
    ensures ResultsOf(said + [last], name)
            == ResultsOf(said, name) + if last.Some? && Lower(last.value.0) == name then [Lower(last.value.1)] else []
  {
    if said == [] {
      assert said + [last] == [last];
    } else {
      ResultsOfLast(said[1..], last, name);
      assert (said + [last])[1..] == said[1..] + [last];
    }
  }

  lemma {:induction false} ResultsAgree(segments: seq<string>, said: seq<Option<(string, string)>>, name: string)
    requires |segments| == |said| && forall i :: 0 <= i < |said| ==> Reads(segments[i], said[i])
    ensures ResultsFor(Matches(segments), name) == ResultsOf(said, name)
  {
    if said != [] {
      var n := |said| - 1;
      ResultsAgree(segments[..n], said[..n], name);
      assert Matches(segments)[..n] == Matches(segments[..n]);
      ReadsMatch(segments[n], said[n]);
      assert said == said[..n] + [said[n]];
      ResultsOfLast(said[..n], said[n], name);
    }
  }

  lemma {:induction false} HeaderParts(value: string, first: string, segments: seq<string>)
    requires Balanced(value, 0) && Deepest(value, 0) <= 3
    requires OutsideComments(value, 0) == Join([first] + segments, ';')
    requires ';' !in first && (forall i :: 0 <= i < |segments| ==> ';' !in segments[i])
    ensures Split(RemovePasses(value, 3), ';') == [first] + segments
  {
    PassesExact(value, 3);
    SplitJoin([first] + segments, ';');
  }

  /** A header whose text outside comments is a first part and segments, joined by ";", parses to
      the first word of the first part and, for each method, what the segments say, in order. */
  lemma {:induction false} HeaderParses(value: string, first: string, server: string, segments: seq<string>,
                                        said: seq<Option<(string, string)>>, parsed: Parsed)
    requires Balanced(value, 0) && Deepest(value, 0) <= 3
    requires OutsideComments(value, 0) == Join([first] + segments, ';')
    requires ';' !in first && (forall i :: 0 <= i < |segments| ==> ';' !in segments[i])
    requires StartsWithWord(first, server)
    requires |segments| == |said| && forall i :: 0 <= i < |said| ==> Reads(segments[i], said[i])
    requires IsParsed(value, parsed)
    ensures parsed.0 == Some(Lower(server)) && SaysAll(said, parsed.1)
  {
    HeaderParts(value, first, segments);
    FirstTokenIs(first, server);
    PartsOfHeader(value, first, segments, parsed);
    FoldedSays(segments, said, parsed.1);
  }

  lemma {:induction false} PartsOfHeader(value: string, first: string, segments: seq<string>, parsed: Parsed)
    requires Split(RemovePasses(value, 3), ';') == [first] + segments && IsParsed(value, parsed)
    ensures parsed.0 == FirstToken(first) && IsFolded(Matches(segments), parsed.1)
  {
    assert ([first] + segments)[1..] == segments;
  }

  lemma {:induction false} FoldedSays(segments: seq<string>, said: seq<Option<(string, string)>>, results: map<string,
                                      seq<string>>)
    requires |segments| == |said| && forall i :: 0 <= i < |said| ==> Reads(segments[i], said[i])
    requires IsFolded(Matches(segments), results)
    ensures SaysAll(said, results)
  {
    forall name ensures ResultsFor(Matches(segments), name) == ResultsOf(said, name) {
      ResultsAgree(segments, said, name);
    }
  }

  // ------------------------------------------------------------------ printed headers

  /** One result as servers print it. */
  function Printed(pair: (string, string)): string {
    " " + pair.0 + "=" + pair.1
  }

  function PrintedAll(pairs: seq<(string, string)>): seq<string> {
    seq(|pairs|, i requires 0 <= i < |pairs| => Printed(pairs[i]))
  }

  predicate IsPair(pair: (string, string)) {
    pair.0 != "" && IsLetter(pair.0[0]) && All(pair.0, IsWordOrDash) && pair.1 != "" && All(pair.1, IsLetter)
  }

  predicate IsServer(server: string) {
    server != "" && All(server, c => !IsSpace(c) && c != ';' && !IsParen(c))
  }

  lemma {:induction false} PrintedSays(pair: (string, string))
    requires IsPair(pair)
    ensures Says(Printed(pair), pair.0, pair.1)
    ensures All(Printed(pair), c => c != ';' && !IsParen(c))
  {
    assert Printed(pair) == " " + (pair.0 + ("" + ("=" + ("" + (pair.1 + "")))));
    assert SaysBy(Printed(pair), pair.0, pair.1, " ", "", "", "");
  }

  lemma {:induction false} PlainText(s: string)
    requires All(s, c => !IsParen(c))
    ensures Balanced(s, 0) && Deepest(s, 0) == 0 && OutsideComments(s, 0) == s
  {
    if s != "" { PlainText(s[1..]); }
  }

  lemma {:induction false} JoinPlain(parts: seq<string>)
    requires parts != [] && forall i :: 0 <= i < |parts| ==> All(parts[i], c => !IsParen(c))
    ensures All(Join(parts, ';'), c => !IsParen(c))
  {
    if |parts| > 1 { JoinPlain(parts[1..]); }
  }

  function Known(pairs: seq<(string, string)>): seq<Option<(string, string)>> {
    seq(|pairs|, i requires 0 <= i < |pairs| => Some(pairs[i]))
  }

  /** Round trip: a header printed from a server and results parses to that server in lower case
      and, for each method, its results in order. */
  lemma {:induction false} PrintedHeaderParses(server: string, pairs: seq<(string, string)>, parsed: Parsed)
    requires IsServer(server) && forall i :: 0 <= i < |pairs| ==> IsPair(pairs[i])
    requires IsParsed(Join([server] + PrintedAll(pairs), ';'), parsed)
    ensures parsed.0 == Some(Lower(server)) && SaysAll(Known(pairs), parsed.1)
  {
    var segments := PrintedAll(pairs);
    PrintedReads(pairs);
    PrintedPlain(server, pairs);
    ServerFirst(server);
    HeaderParses(Join([server] + segments, ';'), server, server, segments, Known(pairs), parsed);
  }

  lemma {:induction false} ServerFirst(server: string)
    requires IsServer(server)
    ensures StartsWithWord(server, server) && ';' !in server
  {
    assert StartsWithBy(server, server, "", "");
  }

  lemma {:induction false} PrintedReads(pairs: seq<(string, string)>)
    requires forall i :: 0 <= i < |pairs| ==> IsPair(pairs[i])
    ensures forall i :: 0 <= i < |pairs| ==> Reads(PrintedAll(pairs)[i], Known(pairs)[i]) && ';' !in PrintedAll(pairs)[i]
    ensures forall i :: 0 <= i < |pairs| ==> All(PrintedAll(pairs)[i], c => !IsParen(c))
  {
    forall i | 0 <= i < |pairs|
      ensures Reads(PrintedAll(pairs)[i], Known(pairs)[i]) && ';' !in PrintedAll(pairs)[i]
      ensures All(PrintedAll(pairs)[i], c => !IsParen(c))
    {
      PrintedSays(pairs[i]);
    }
  }

  lemma {:induction false} PrintedPlain(server: string, pairs: seq<(string, string)>)
    requires IsServer(server) && forall i :: 0 <= i < |pairs| ==> IsPair(pairs[i])
    ensures var text := Join([server] + PrintedAll(pairs), ';');
            Balanced(text, 0) && Deepest(text, 0) == 0 && OutsideComments(text, 0) == text
  {
    PrintedReads(pairs);
    JoinPlain([server] + PrintedAll(pairs));
    PlainText(Join([server] + PrintedAll(pairs), ';'));
  }
}
