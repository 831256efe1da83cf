/** Reading Authentication-Results: nested comments are removed innermost first, in three
    passes (src/heron/rules/authentication.py). Comments are those of section 3.2.2 of RFC 5322
    without quoted pairs, in the header of section 2.2 of RFC 8601. */
module Authentication {
  import opened Strings
  import opened Wrappers

  // ------------------------------------------------------------------ one removal pass

  predicate IsParen(c: char) {
    c == '(' || c == ')'
  }

  /** How many characters precede the first parenthesis. */
  function PlainPrefix(s: string): (n: nat)
    ensures n <= |s| && (forall i :: 0 <= i < n ==> !IsParen(s[i])) && (n < |s| ==> IsParen(s[n]))
  {
    if s == "" || IsParen(s[0]) then 0 else 1 + PlainPrefix(s[1..])
  }

  /** The text after an opening parenthesis closes without another parenthesis in between. */
  predicate ClosesPlainly(s: string) {
    PlainPrefix(s) < |s| && s[PlainPrefix(s)] == ')'
  }

  /** Removes every "(" ... ")" without parentheses inside, from left to right. */
  function RemovePass(s: string): string {
    if s == "" then ""
    else if s[0] == '(' && ClosesPlainly(s[1..]) then RemovePass(s[1..][PlainPrefix(s[1..]) + 1..])
    else [s[0]] + RemovePass(s[1..])
  }

  function RemovePasses(s: string, k: nat): string
    decreases k
  {
    if k == 0 then s else RemovePasses(RemovePass(s), k - 1)
  }

  // ------------------------------------------------------------------ one scan with a depth counter

  predicate Balanced(s: string, depth: nat) {
    if s == "" then depth == 0
    else if s[0] == '(' then Balanced(s[1..], depth + 1)
    else if s[0] == ')' then depth > 0 && Balanced(s[1..], depth - 1)
    else Balanced(s[1..], depth)
  }

  /** The text outside all parentheses. */
  function OutsideComments(s: string, depth: nat): string {
    if s == "" then ""
    else if s[0] == '(' then OutsideComments(s[1..], depth + 1)
    else if s[0] == ')' then OutsideComments(s[1..], if depth > 0 then depth - 1 else 0)
    else (if depth == 0 then [s[0]] else []) + OutsideComments(s[1..], depth)
  }

  function Max(a: nat, b: nat): nat {
    if a > b then a else b
  }

  /** The deepest nesting that the scan reaches. */
  function Deepest(s: string, depth: nat): nat {
    if s == "" then depth
    else if s[0] == '(' then Max(depth, Deepest(s[1..], depth + 1))
    else if s[0] == ')' then Max(depth, Deepest(s[1..], if depth > 0 then depth - 1 else 0))
    else Deepest(s[1..], depth)
  }

  // ------------------------------------------------------------------ balanced text as a tree

  datatype Text = End | Plain(c: char, rest: Text) | Comment(inner: Text, rest: Text)

  predicate WellFormed(t: Text) {
    match t
    case End => true
    case Plain(c, rest) => !IsParen(c) && WellFormed(rest)
    case Comment(inner, rest) => WellFormed(inner) && WellFormed(rest)
  }

  function Flatten(t: Text): string {
    match t
    case End => ""
    case Plain(c, rest) => [c] + Flatten(rest)
    case Comment(inner, rest) => "(" + Flatten(inner) + ")" + Flatten(rest)
  }

  function Nesting(t: Text): nat {
    match t
    case End => 0
    case Plain(_, rest) => Nesting(rest)
    case Comment(inner, rest) => Max(1 + Nesting(inner), Nesting(rest))
  }

  function TopText(t: Text): string {
    match t
    case End => ""
    case Plain(c, rest) => [c] + TopText(rest)
    case Comment(_, rest) => TopText(rest)
  }

  /** The tree without its innermost comments. */
  function Prune(t: Text): Text {
    match t
    case End => End
    case Plain(c, rest) => Plain(c, Prune(rest))
    case Comment(inner, rest) => if Nesting(inner) == 0 then Prune(rest) else Comment(Prune(inner), Prune(rest))
  }

  lemma {:induction false} FlattenComment(inner: Text, rest: Text, x: string)
    ensures Flatten(Comment(inner, rest)) + x == "(" + (Flatten(inner) + (")" + (Flatten(rest) + x)))
  {
  }

  /** Every balanced text is the text of a tree. */
  lemma {:induction false} Parse(s: string, depth: nat) returns (t: Text, tail: string)
    requires Balanced(s, depth)
    ensures WellFormed(t) && s == Flatten(t) + tail
    ensures depth == 0 ==> tail == ""
    ensures depth > 0 ==> tail != "" && tail[0] == ')' && Balanced(tail[1..], depth - 1)
    decreases |s|
  {
    if s == "" || s[0] == ')' {
      t, tail := End, s;
    } else if s[0] == '(' {
      var inner, tail1 := Parse(s[1..], depth + 1);
      var rest, tail2 := Parse(tail1[1..], depth);
      t, tail := Comment(inner, rest), tail2;
      FlattenComment(inner, rest, tail);
      assert s == "(" + s[1..] && tail1 == ")" + tail1[1..];
    } else {
      var rest, tail' := Parse(s[1..], depth);
      t, tail := Plain(s[0], rest), tail';
      assert s == [s[0]] + s[1..];
    }
  }

  // ------------------------------------------------------------------ a pass prunes the tree

  lemma {:induction false} PlainThenClose(t: Text, x: string)
    requires WellFormed(t) && Nesting(t) == 0
    ensures PlainPrefix(Flatten(t) + ")" + x) == |Flatten(t)|
    ensures (Flatten(t) + ")" + x)[|Flatten(t)|] == ')'
  {
    if t.Plain? {
      PlainThenClose(t.rest, x);
      assert (Flatten(t) + ")" + x)[1..] == Flatten(t.rest) + ")" + x;
    }
  }

  lemma {:induction false} PlainThenOpen(t: Text, x: string)
    requires WellFormed(t) && Nesting(t) > 0
    ensures !ClosesPlainly(Flatten(t) + x)
  {
    var s := Flatten(t) + x;
    if t.Plain? {
      PlainThenOpen(t.rest, x);
      assert s[1..] == Flatten(t.rest) + x;
    } else {
      assert s[0] == '(';
    }
  }

  lemma {:induction false} PassOverPlainComment(inner: Text, after: string)
    requires WellFormed(inner) && Nesting(inner) == 0
    ensures RemovePass("(" + (Flatten(inner) + (")" + after))) == RemovePass(after)
  {
    var body := Flatten(inner) + (")" + after);
    assert body == Flatten(inner) + ")" + after;
    PlainThenClose(inner, after);
    assert ("(" + body)[1..] == body;
    assert body[|Flatten(inner)| + 1..] == after;
  }

  lemma {:induction false} PassIntoComment(inner: Text, after: string)
    requires WellFormed(inner) && Nesting(inner) > 0
    requires RemovePass(Flatten(inner) + (")" + after)) == Flatten(Prune(inner)) + RemovePass(")" + after)
    ensures RemovePass("(" + (Flatten(inner) + (")" + after))) == "(" + (Flatten(Prune(inner)) + (")" + RemovePass(after)))
  {
    var body := Flatten(inner) + (")" + after);
    PlainThenOpen(inner, ")" + after);
    assert ("(" + body)[1..] == body;
    assert (")" + after)[1..] == after;
  }

  lemma {:induction false} PassOfPlain(c: char, rest: Text, x: string)
    requires !IsParen(c) && RemovePass(Flatten(rest) + x) == Flatten(Prune(rest)) + RemovePass(x)
    ensures RemovePass(Flatten(Plain(c, rest)) + x) == Flatten(Prune(Plain(c, rest))) + RemovePass(x)
  {
    var s := Flatten(rest) + x;
    assert Flatten(Plain(c, rest)) + x == [c] + s && ([c] + s)[1..] == s;
  }

  lemma {:induction false} PassOfComment(inner: Text, rest: Text, x: string)
    requires WellFormed(inner) && RemovePass(Flatten(rest) + x) == Flatten(Prune(rest)) + RemovePass(x)
    requires Nesting(inner) > 0 ==>
               var after := ")" + (Flatten(rest) + x);
               RemovePass(Flatten(inner) + after) == Flatten(Prune(inner)) + RemovePass(after)
    ensures RemovePass(Flatten(Comment(inner, rest)) + x) == Flatten(Prune(Comment(inner, rest))) + RemovePass(x)
  {
    FlattenComment(inner, rest, x);
    if Nesting(inner) == 0 {
      PassOverPlainComment(inner, Flatten(rest) + x);
    } else {
      PassIntoComment(inner, Flatten(rest) + x);
      FlattenComment(Prune(inner), Prune(rest), RemovePass(x));
    }
  }

  /** One pass removes exactly the innermost comments, whatever follows. */
  lemma {:induction false} PassPrunes(t: Text, x: string)
    requires WellFormed(t)
    ensures RemovePass(Flatten(t) + x) == Flatten(Prune(t)) + RemovePass(x)
  {
    match t {
      case End => assert Flatten(t) + x == x;
      case Plain(c, rest) =>
        PassPrunes(rest, x);
        PassOfPlain(c, rest, x);
      case Comment(inner, rest) =>
        PassPrunes(rest, x);
        if Nesting(inner) > 0 { PassPrunes(inner, ")" + (Flatten(rest) + x)); }
        PassOfComment(inner, rest, x);
    }
  }

  /** Pruning keeps the text outside comments and lowers the nesting by exactly one. */
  lemma {:induction false} PruneLowers(t: Text)
    requires WellFormed(t)
    ensures WellFormed(Prune(t)) && TopText(Prune(t)) == TopText(t)
    ensures Nesting(Prune(t)) == if Nesting(t) == 0 then 0 else Nesting(t) - 1
  {
    match t {
      case End =>
      case Plain(_, rest) => PruneLowers(rest);
      case Comment(inner, rest) => PruneLowers(inner); PruneLowers(rest);
    }
  }

  lemma {:induction false} PassesPrune(t: Text, k: nat)
    requires WellFormed(t)
    ensures exists t' :: WellFormed(t') && RemovePasses(Flatten(t), k) == Flatten(t') && TopText(t') == TopText(t)
                         && Nesting(t') == if Nesting(t) <= k then 0 else Nesting(t) - k
    decreases k
  {
    if k == 0 {
      assert WellFormed(t) && RemovePasses(Flatten(t), 0) == Flatten(t);
    } else {
      PassPrunes(t, "");
      assert Flatten(t) + "" == Flatten(t);
      assert RemovePass("") == "" && Flatten(Prune(t)) + "" == Flatten(Prune(t));
      PruneLowers(t);
      PassesPrune(Prune(t), k - 1);
    }
  }

  // ------------------------------------------------------------------ the scan of a tree

  lemma {:induction false} OutsideOfTree(t: Text, x: string, depth: nat)
    requires WellFormed(t)
    ensures OutsideComments(Flatten(t) + x, depth) == (if depth == 0 then TopText(t) else "") + OutsideComments(x, depth)
    decreases t
  {
    var s := Flatten(t) + x;
    match t {
      case End => assert s == x;
      case Plain(c, rest) =>
        OutsideOfTree(rest, x, depth);
        assert s[1..] == Flatten(rest) + x;
      case Comment(inner, rest) =>
        var after := Flatten(rest) + x;
        assert s[1..] == Flatten(inner) + (")" + after);
        OutsideOfTree(inner, ")" + after, depth + 1);
        assert (")" + after)[1..] == after;
        OutsideOfTree(rest, x, depth);
    }
  }

  lemma {:induction false} DeepestStep(c: char, s: string, depth: nat)
    ensures Deepest([c] + s, depth)
            == if c == '(' then Max(depth, Deepest(s, depth + 1))
               else if c == ')' then Max(depth, Deepest(s, if depth > 0 then depth - 1 else 0))
               else Deepest(s, depth)
  {
    assert ([c] + s)[1..] == s;
  }

  lemma {:induction false} DeepestOfPlain(c: char, rest: Text, x: string, depth: nat)
    requires !IsParen(c) && Deepest(Flatten(rest) + x, depth) == Max(depth + Nesting(rest), Deepest(x, depth))
    ensures Deepest(Flatten(Plain(c, rest)) + x, depth) == Max(depth + Nesting(Plain(c, rest)), Deepest(x, depth))
  {
    DeepestStep(c, Flatten(rest) + x, depth);
    assert Flatten(Plain(c, rest)) + x == [c] + (Flatten(rest) + x);
  }

  lemma {:induction false} DeepestOfComment(inner: Text, rest: Text, x: string, depth: nat)
    requires var after := ")" + (Flatten(rest) + x);
             Deepest(Flatten(inner) + after, depth + 1) == Max(depth + 1 + Nesting(inner), Deepest(after, depth + 1))
    requires Deepest(Flatten(rest) + x, depth) == Max(depth + Nesting(rest), Deepest(x, depth))
    ensures Deepest(Flatten(Comment(inner, rest)) + x, depth) == Max(depth + Nesting(Comment(inner, rest)), Deepest(x, depth))
  {
    var after := Flatten(rest) + x;
    DeepestStep(')', after, depth + 1);
    DeepestStep('(', Flatten(inner) + (")" + after), depth);
    FlattenComment(inner, rest, x);
  }

  lemma {:induction false} DeepestOfTree(t: Text, x: string, depth: nat)
    requires WellFormed(t)
    ensures Deepest(Flatten(t) + x, depth) == Max(depth + Nesting(t), Deepest(x, depth))
    decreases t
  {
    match t {
      case End =>
        DeepestAtLeast(x, depth);
        assert Flatten(t) + x == x;
      case Plain(c, rest) =>
        DeepestOfTree(rest, x, depth);
        DeepestOfPlain(c, rest, x, depth);
      case Comment(inner, rest) =>
        DeepestOfTree(rest, x, depth);
        DeepestOfTree(inner, ")" + (Flatten(rest) + x), depth + 1);
        DeepestOfComment(inner, rest, x, depth);
    }
  }

  lemma {:induction false} ScanOfTree(t: Text)
    requires WellFormed(t)
    ensures OutsideComments(Flatten(t), 0) == TopText(t) && Deepest(Flatten(t), 0) == Nesting(t)
  {
    OutsideOfTree(t, "", 0);
    DeepestOfTree(t, "", 0);
    assert Flatten(t) + "" == Flatten(t) && TopText(t) + "" == TopText(t);
  }

  lemma {:induction false} DeepestAtLeast(s: string, depth: nat)
    ensures Deepest(s, depth) >= depth
  {
    if s != "" && !IsParen(s[0]) { DeepestAtLeast(s[1..], depth); }
  }

  lemma {:induction false} NoParenOutside(t: Text)
    requires WellFormed(t)
    ensures forall i :: 0 <= i < |TopText(t)| ==> !IsParen(TopText(t)[i])
    ensures Nesting(t) == 0 ==> Flatten(t) == TopText(t)
    ensures Nesting(t) > 0 ==> exists i :: 0 <= i < |Flatten(t)| && Flatten(t)[i] == '('
  {
    match t {
      case End =>
      case Plain(c, rest) =>
        NoParenOutside(rest);
        if i :| 0 <= i < |Flatten(rest)| && Flatten(rest)[i] == '(' {
          assert Flatten(t)[i + 1] == '(';
        }
      case Comment(inner, rest) =>
        NoParenOutside(rest);
        assert Flatten(t)[0] == '(';
    }
  }

  /** On balanced text, `k` passes leave exactly the text outside comments if and only if the
      comments are nested at most `k` deep. */
  lemma {:induction false} PassesExact(s: string, k: nat)
    requires Balanced(s, 0)
    ensures RemovePasses(s, k) == OutsideComments(s, 0) <==> Deepest(s, 0) <= k
  {
    var t, tail := Parse(s, 0);
    assert s == Flatten(t) && Flatten(t) + "" == s;
    ScanOfTree(t);
    PassesPrune(t, k);
    var t' :| WellFormed(t') && RemovePasses(s, k) == Flatten(t') && TopText(t') == TopText(t)
              && Nesting(t') == if Nesting(t) <= k then 0 else Nesting(t) - k;
    NoParenOutside(t');
  }

  /** Each pass lowers the deepest nesting by exactly one and keeps the text outside comments. */
  lemma {:induction false} PassLowersByOne(s: string)
    requires Balanced(s, 0)
    ensures OutsideComments(RemovePass(s), 0) == OutsideComments(s, 0)
    ensures Deepest(RemovePass(s), 0) == if Deepest(s, 0) == 0 then 0 else Deepest(s, 0) - 1
  {
    var t, tail := Parse(s, 0);
    assert s == Flatten(t) && Flatten(t) + "" == s;
    PassPrunes(t, "");
    assert RemovePass("") == "" && Flatten(Prune(t)) + "" == Flatten(Prune(t));
    PruneLowers(t);
    ScanOfTree(t);
    ScanOfTree(Prune(t));
  }

  // ------------------------------------------------------------------ the parsed results

  predicate IsSpace(c: char) {
    c == ' ' || 9 <= c as int <= 13 || 28 <= c as int <= 31
  }

  predicate IsLetter(c: char) {
    'a' <= c <= 'z' || 'A' <= c <= 'Z'
  }

  predicate IsWordOrDash(c: char) {
    IsLetter(c) || '0' <= c <= '9' || c == '_' || c == '-'
  }

  /** The length of the longest prefix of characters that satisfy `p`. */
  function SpanLength(s: string, p: char -> bool): (n: nat)
    ensures n <= |s|
  {
    if s == "" || !p(s[0]) then 0 else 1 + SpanLength(s[1..], p)
  }

  function SkipSpaces(s: string): string {
    s[SpanLength(s, IsSpace)..]
  }

  /** `= result`, lowercased. */
  function MatchValue(s: string): Option<string> {
    var eq := SkipSpaces(s);
    if eq == "" || eq[0] != '=' then None else
    var value := SkipSpaces(eq[1..]);
    var m := SpanLength(value, IsLetter);
    if m == 0 then None else Some(Lower(value[..m]))
  }

  /** `method = result` at the start of a segment, lowercased. */
  function MatchResult(segment: string): Option<(string, string)> {
    var s := SkipSpaces(segment);
    if s == "" || !IsLetter(s[0]) then None else
    var n := SpanLength(s, IsWordOrDash);
    var result := MatchValue(s[n..]);
    if result.None? then None else Some((Lower(s[..n]), result.value))
  }

  /** The first word, lowercased. */
  function FirstToken(s: string): Option<string> {
    var start := SkipSpaces(s);
    if start == "" then None else Some(Lower(start[..SpanLength(start, c => !IsSpace(c))]))
  }

  /** What each segment says. */
  function Matches(segments: seq<string>): seq<Option<(string, string)>> {
    seq(|segments|, i requires 0 <= i < |segments| => MatchResult(segments[i]))
  }

  /** All results for one method, in order. */
  function ResultsFor(matches: seq<Option<(string, string)>>, name: string): seq<string> {
    if matches == [] then [] else
    var m := matches[|matches| - 1];
    ResultsFor(matches[..|matches| - 1], name) + if m.Some? && m.value.0 == name then [m.value.1] else []
  }

  type Parsed = (Option<string>, map<string, seq<string>>)

  /** `results` lists, for every method that is mentioned, its results in order. */
  ghost predicate IsFolded(matches: seq<Option<(string, string)>>, results: map<string, seq<string>>) {
    forall name :: (name in results <==> ResultsFor(matches, name) != [])
                   && (name in results ==> results[name] == ResultsFor(matches, name))
  }

  /** The parsed results are determined by the segments. */
  lemma {:induction false} FoldedUnique(matches: seq<Option<(string, string)>>, a: map<string, seq<string>>,
                                        b: map<string, seq<string>>)
    requires IsFolded(matches, a) && IsFolded(matches, b)
    ensures a == b
  {
    assert forall name :: name in a <==> name in b;
  }

  method ParseAuthenticationResults(value: string) returns (authserv: Option<string>, results: map<string, seq<string>>)
    ensures IsParsed(value, (authserv, results))
  {
    var cleaned := value;
    for i := 0 to 3
      invariant RemovePasses(cleaned, 3 - i) == RemovePasses(value, 3)
    {
      cleaned := RemovePass(cleaned);
    }
    var parts := Split(cleaned, ';');
    authserv := FirstToken(parts[0]);
    results := Fold(Matches(parts[1..]));
  }

  /** What parsing a header means: three passes, then the first token and the folded segments. */
  ghost predicate IsParsed(value: string, parsed: Parsed) {
    var parts := Split(RemovePasses(value, 3), ';');
    parsed.0 == FirstToken(parts[0]) && IsFolded(Matches(parts[1..]), parsed.1)
  }

  method Fold(matches: seq<Option<(string, string)>>) returns (results: map<string, seq<string>>)
    ensures IsFolded(matches, results)
  {
    results := map[];
    for i := 0 to |matches|
      invariant IsFolded(matches[..i], results)
    {
      assert matches[..i + 1][..i] == matches[..i];
      if matches[i].Some? {
        var name, result := matches[i].value.0, matches[i].value.1;
        results := results[name := (if name in results then results[name] else []) + [result]];
      }
    }
    assert matches[..|matches|] == matches;
  }

  /** Nothing inside comments nested at most three deep affects the result: two headers with the
      same text outside comments are parsed alike. */
  lemma {:induction false} CommentsInvisible(a: string, b: string, parsedA: Parsed, parsedB: Parsed)
    requires Balanced(a, 0) && Balanced(b, 0) && Deepest(a, 0) <= 3 && Deepest(b, 0) <= 3
    requires OutsideComments(a, 0) == OutsideComments(b, 0)
    requires IsParsed(a, parsedA) && IsParsed(b, parsedB)
    ensures parsedA == parsedB
  {
    PassesExact(a, 3);
    PassesExact(b, 3);
    FoldedUnique(Matches(Split(RemovePasses(a, 3), ';')[1..]), parsedA.1, parsedB.1);
  }
}
