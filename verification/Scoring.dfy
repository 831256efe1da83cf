/** From rule findings to a score and a verdict (src/heron/analysis/scoring.py,
    src/heron/rules/registry.py). */
module Scoring {
  import opened Sorting
  import opened Alerts

  datatype Severity = Info | Low | Medium | High
  {
    function Rank(): nat {
      match this
      case Info => 0
      case Low => 1
      case Medium => 2
      case High => 3
    }
  }

  datatype Finding = Finding(ruleId: string, severity: Severity, title: string)

  datatype Reason = Reason(ruleId: string, severity: Severity, title: string, points: int)

  datatype Config = Config(low: int, medium: int, high: int, suspiciousAt: int, phishingAt: int, maxScore: int)
  {
    function Points(severity: Severity): int {
      match severity
      case Info => 0
      case Low => low
      case Medium => medium
      case High => high
    }

    /** Stronger findings are worth at least as much. */
    predicate Ordered() {
      0 <= low <= medium <= high
    }
  }

  const DEFAULT_CONFIG := Config(5, 15, 35, 25, 60, 100)

  function Weakness(f: Finding): int {
    -(f.severity.Rank() as int)
  }

  function Cost(r: Reason): int {
    -r.points
  }

  function FindingOf(r: Reason): Finding {
    Finding(r.ruleId, r.severity, r.title)
  }

  // ------------------------------------------------------------------ the reasons

  predicate Mentions(findings: seq<Finding>, ruleId: string) {
    exists f :: f in findings && f.ruleId == ruleId
  }

  /** One reason per ranked finding; only the first of its rule scores. */
  function Reasons(ranked: seq<Finding>, c: Config): (r: seq<Reason>)
    ensures |r| == |ranked|
  {
    if ranked == [] then [] else
    var init, f := ranked[..|ranked| - 1], ranked[|ranked| - 1];
    Reasons(init, c) + [Reason(f.ruleId, f.severity, f.title, if Mentions(init, f.ruleId) then 0 else c.Points(f.severity))]
  }

  function Total(reasons: seq<Reason>): int {
    if reasons == [] then 0 else Total(reasons[..|reasons| - 1]) + reasons[|reasons| - 1].points
  }

  /** The findings behind the reasons. */
  function Findings(reasons: seq<Reason>): seq<Finding> {
    seq(|reasons|, i requires 0 <= i < |reasons| => FindingOf(reasons[i]))
  }

  // ------------------------------------------------------------------ the closed form

  /** The most points that a finding of the rule is worth, or 0. */
  function Best(findings: seq<Finding>, c: Config, ruleId: string): (best: int)
    ensures best >= 0
    ensures forall f :: f in findings && f.ruleId == ruleId ==> c.Points(f.severity) <= best
    ensures best == 0 || exists f :: f in findings && f.ruleId == ruleId && c.Points(f.severity) == best
  {
    if findings == [] then 0 else
    var init, f := findings[..|findings| - 1], findings[|findings| - 1];
    assert findings == init + [f];
    var rest := Best(init, c, ruleId);
    if f.ruleId == ruleId && c.Points(f.severity) > rest then c.Points(f.severity) else rest
  }

  function RuleIds(findings: seq<Finding>): set<string> {
    set f | f in findings :: f.ruleId
  }

  /** The sum of the best points over a set of rules. */
  ghost function SumBest(rules: set<string>, findings: seq<Finding>, c: Config): int {
    if rules == {} then 0 else
    var r :| r in rules;
    Best(findings, c, r) + SumBest(rules - {r}, findings, c)
  }

  ghost function ClosedForm(findings: seq<Finding>, c: Config): int {
    SumBest(RuleIds(findings), findings, c)
  }

  lemma {:induction false} SumRemove(rules: set<string>, findings: seq<Finding>, c: Config, r: string)
    requires r in rules
    ensures SumBest(rules, findings, c) == Best(findings, c, r) + SumBest(rules - {r}, findings, c)
    decreases |rules|
  {
    var x :| x in rules && SumBest(rules, findings, c) == Best(findings, c, x) + SumBest(rules - {x}, findings, c);
    if x != r {
      SumRemove(rules - {x}, findings, c, r);
      SumRemove(rules - {r}, findings, c, x);
      assert rules - {x} - {r} == rules - {r} - {x};
    }
  }

  /** A larger set of rules, each at least as good, sums to at least as much. */
  lemma {:induction false} SumMonotone(rules: set<string>, rules': set<string>, findings: seq<Finding>,
                                       findings': seq<Finding>, c: Config)
    requires rules <= rules'
    requires forall r :: r in rules ==> Best(findings, c, r) <= Best(findings', c, r)
    ensures SumBest(rules, findings, c) <= SumBest(rules', findings', c)
    decreases |rules'|
  {
    if rules' != {} {
      var r :| r in rules';
      SumRemove(rules', findings', c, r);
      if r in rules {
        SumRemove(rules, findings, c, r);
        SumMonotone(rules - {r}, rules' - {r}, findings, findings', c);
      } else {
        SumMonotone(rules, rules' - {r}, findings, findings', c);
      }
    }
  }

  /** More findings never sum to less. */
  lemma {:induction false} ClosedFormMonotone(a: seq<Finding>, b: seq<Finding>, c: Config)
    requires forall f :: f in a ==> f in b
    ensures ClosedForm(a, c) <= ClosedForm(b, c)
  {
    SumMonotone(RuleIds(a), RuleIds(b), a, b, c);
  }

  lemma {:induction false} SumSame(rules: set<string>, a: seq<Finding>, b: seq<Finding>, c: Config)
    requires forall r :: r in rules ==> Best(a, c, r) == Best(b, c, r)
    ensures SumBest(rules, a, c) == SumBest(rules, b, c)
  {
    SumMonotone(rules, rules, a, b, c);
    SumMonotone(rules, rules, b, a, c);
  }

  /** On findings ranked by severity, scoring only the first of each rule is scoring its best. */
  lemma {:induction false} RankedTotal(ranked: seq<Finding>, c: Config)
    requires c.Ordered() && SortedBy(ranked, Weakness)
    ensures Total(Reasons(ranked, c)) == ClosedForm(ranked, c)
  {
    if ranked != [] {
      var init, f := ranked[..|ranked| - 1], ranked[|ranked| - 1];
      assert ranked == init + [f];
      RankedTotal(init, c);
      LastReason(init, f, c);
      AddWeakest(init, f, c);
    }
  }

  lemma {:induction false} LastReason(init: seq<Finding>, f: Finding, c: Config)
    ensures Total(Reasons(init + [f], c)) ==
            Total(Reasons(init, c)) + if Mentions(init, f.ruleId) then 0 else c.Points(f.severity)
  {
    assert (init + [f])[..|init|] == init;
    var reasons := Reasons(init + [f], c);
    assert reasons[..|reasons| - 1] == Reasons(init, c);
  }

  /** Adding the weakest finding adds its points exactly when its rule is new. */
  lemma {:induction false} AddWeakest(init: seq<Finding>, f: Finding, c: Config)
    requires c.Ordered() && SortedBy(init + [f], Weakness)
    ensures ClosedForm(init + [f], c) == ClosedForm(init, c) + if Mentions(init, f.ruleId) then 0 else c.Points(f.severity)
  {
    var ranked := init + [f];
    forall r | r in RuleIds(init) ensures Best(ranked, c, r) == Best(init, c, r) {
      BestKept(init, f, c, r);
    }
    SumSame(RuleIds(init), init, ranked, c);
    if Mentions(init, f.ruleId) {
      assert RuleIds(ranked) == RuleIds(init);
    } else {
      assert f.ruleId !in RuleIds(init);
      assert RuleIds(ranked) - {f.ruleId} == RuleIds(init);
      assert f in ranked && f.ruleId in RuleIds(ranked);
      SumRemove(RuleIds(ranked), ranked, c, f.ruleId);
      BestNew(init, f, c);
    }
  }

  lemma {:induction false} BestKept(init: seq<Finding>, f: Finding, c: Config, r: string)
    requires c.Ordered() && SortedBy(init + [f], Weakness) && r in RuleIds(init)
    ensures Best(init + [f], c, r) == Best(init, c, r)
  {
    assert (init + [f])[..|init|] == init;
    var g :| g in init && g.ruleId == r;
    var i :| 0 <= i < |init| && init[i] == g;
    assert Weakness((init + [f])[i]) <= Weakness((init + [f])[|init|]);
    assert c.Points(g.severity) >= c.Points(f.severity);
  }

  lemma {:induction false} BestNew(init: seq<Finding>, f: Finding, c: Config)
    requires c.Ordered() && !Mentions(init, f.ruleId)
    ensures Best(init + [f], c, f.ruleId) == c.Points(f.severity)
  {
    assert (init + [f])[..|init|] == init;
    assert Best(init, c, f.ruleId) == 0;
  }

  // ------------------------------------------------------------------ score and verdict

  function Score(findings: seq<Finding>, c: Config): int {
    var total := Total(SortBy(Reasons(SortBy(findings, Weakness), c), Cost));
    if total < c.maxScore then total else c.maxScore
  }

  function VerdictOf(score: int, c: Config): Verdict {
    if score >= c.phishingAt then Phishing else if score >= c.suspiciousAt then Suspicious else Clean
  }

  /** The order of the reasons does not change their total. */
  /** The verdict by thresholds: phishing from one score on, suspicious from the other up to it. */
  lemma {:induction false} VerdictByThreshold(score: int, c: Config)
    ensures VerdictOf(score, c) == Phishing <==> score >= c.phishingAt
    ensures VerdictOf(score, c) == Suspicious <==> c.suspiciousAt <= score < c.phishingAt
    ensures VerdictOf(score, c) == Clean <==> score < c.suspiciousAt && score < c.phishingAt
  {
  }

  /** The shipped weights and thresholds: 0, 5, 15 and 35 points, suspicious from 25, phishing
      from 60, at most 100; a stronger severity ranks higher. */
  lemma {:induction false} DefaultWeights(findings: seq<Finding>, f: Finding)
    ensures DEFAULT_CONFIG.Points(Info) == 0 && DEFAULT_CONFIG.Points(Low) == 5
    ensures DEFAULT_CONFIG.Points(Medium) == 15 && DEFAULT_CONFIG.Points(High) == 35
    ensures Info.Rank() < Low.Rank() < Medium.Rank() < High.Rank()
    ensures var score := Score(findings, DEFAULT_CONFIG);
            && 0 <= score <= 100
            && (VerdictOf(score, DEFAULT_CONFIG) == Phishing <==> score >= 60)
            && (VerdictOf(score, DEFAULT_CONFIG) == Suspicious <==> 25 <= score < 60)
    ensures Score([f], DEFAULT_CONFIG) == DEFAULT_CONFIG.Points(f.severity)
  {
    ScoreClosedForm(findings, DEFAULT_CONFIG);
    SumNonNegative(RuleIds(findings), findings, DEFAULT_CONFIG);
    SingleFinding(f, DEFAULT_CONFIG);
  }

  lemma {:induction false} SumNonNegative(rules: set<string>, findings: seq<Finding>, c: Config)
    ensures SumBest(rules, findings, c) >= 0
    decreases |rules|
  {
    if r :| r in rules {
      SumRemove(rules, findings, c, r);
      SumNonNegative(rules - {r}, findings, c);
    }
  }

  /** A single finding is worth the weight of its severity, up to the cap. */
  lemma {:induction false} SingleFinding(f: Finding, c: Config)
    requires c.Ordered()
    ensures Score([f], c) == var points := c.Points(f.severity); if points < c.maxScore then points else c.maxScore
  {
    ScoreClosedForm([f], c);
    assert RuleIds([f]) == {f.ruleId};
    SumRemove({f.ruleId}, [f], c, f.ruleId);
    assert {f.ruleId} - {f.ruleId} == {};
    assert [f][0] in [f];
  }

  lemma {:induction false} TotalOfSorted(s: seq<Reason>)
    ensures Total(SortBy(s, Cost)) == Total(s)
  {
    if s != [] {
      TotalOfSorted(s[1..]);
      TotalOfInsert(s[0], SortBy(s[1..], Cost));
      TotalHead(s);
    }
  }

  lemma {:induction false} TotalOfInsert(x: Reason, s: seq<Reason>)
    ensures Total(Insert(x, s, Cost)) == x.points + Total(s)
  {
    if s == [] || Cost(x) <= Cost(s[0]) {
      TotalHead([x] + s);
      assert ([x] + s)[1..] == s;
    } else {
      TotalOfInsert(x, s[1..]);
      TotalHead(Insert(x, s, Cost));
      TotalHead(s);
    }
  }

  lemma {:induction false} TotalHead(s: seq<Reason>)
    requires s != []
    ensures Total(s) == s[0].points + Total(s[1..])
  {
    if |s| > 1 {
      TotalHead(s[..|s| - 1]);
      assert s[1..][..|s| - 2] == s[..|s| - 1][1..];
    } else {
      assert s[..0] == [] && s[1..] == [];
    }
  }

  /** The score is the capped sum, over the distinct rules, of each rule's best points. */
  lemma {:induction false} ScoreClosedForm(findings: seq<Finding>, c: Config)
    requires c.Ordered()
    ensures Score(findings, c) == (var total := ClosedForm(findings, c); if total < c.maxScore then total else c.maxScore)
  {
    var ranked := SortBy(findings, Weakness);
    SortSorted(findings, Weakness);
    RankedTotal(ranked, c);
    TotalOfSorted(Reasons(ranked, c));
    ClosedFormMonotone(ranked, findings, c);
    ClosedFormMonotone(findings, ranked, c);
  }

  /** The score depends only on which findings there are, not on their order or repetition,
      and grows with them. */
  lemma {:induction false} ScoreMonotone(a: seq<Finding>, b: seq<Finding>, c: Config)
    requires c.Ordered() && forall f :: f in a ==> f in b
    ensures Score(a, c) <= Score(b, c)
    ensures (forall f :: f in b ==> f in a) ==> Score(a, c) == Score(b, c)
  {
    ScoreClosedForm(a, c);
    ScoreClosedForm(b, c);
    ClosedFormMonotone(a, b, c);
    if forall f :: f in b ==> f in a { ClosedFormMonotone(b, a, c); }
  }

  /** With the default weights no single rule makes a message phishing: at least two
      distinct rules have scored. */
  lemma {:induction false} PhishingNeedsTwoRules(findings: seq<Finding>)
    requires VerdictOf(Score(findings, DEFAULT_CONFIG), DEFAULT_CONFIG).Phishing?
    ensures exists f, g :: f in findings && g in findings && f.ruleId != g.ruleId
                           && DEFAULT_CONFIG.Points(f.severity) > 0 && DEFAULT_CONFIG.Points(g.severity) > 0
  {
    var c := DEFAULT_CONFIG;
    ScoreClosedForm(findings, c);
    var rules := RuleIds(findings);
    var r := PositiveRule(rules, findings, c);
    SumRemove(rules, findings, c, r);
    var r' := PositiveRule(rules - {r}, findings, c);
    var f :| f in findings && f.ruleId == r && c.Points(f.severity) == Best(findings, c, r);
    var g :| g in findings && g.ruleId == r' && c.Points(g.severity) == Best(findings, c, r');
  }

  lemma {:induction false} PositiveRule(rules: set<string>, findings: seq<Finding>, c: Config) returns (r: string)
    requires SumBest(rules, findings, c) > 0
    ensures r in rules && Best(findings, c, r) > 0
    decreases |rules|
  {
    r :| r in rules;
    SumRemove(rules, findings, c, r);
    if Best(findings, c, r) == 0 {
      r := PositiveRule(rules - {r}, findings, c);
    }
  }

  // ------------------------------------------------------------------ the methods

  /** Ranks the findings, scores the first of each rule, and orders the reasons by points. */
  method ScoreFindings(findings: seq<Finding>, c: Config) returns (reasons: seq<Reason>)
    ensures SortedBy(reasons, Cost)
    ensures multiset(Findings(reasons)) == multiset(findings)
    ensures reasons == SortBy(Reasons(SortBy(findings, Weakness), c), Cost)
  {
    var ranked := SortBy(findings, Weakness);
    SortSorted(findings, Weakness);
    reasons := ReasonsInOrder(ranked, c);
    ReasonsKeepFindings(ranked, c);
    SortSorted(reasons, Cost);
    SortedFindings(reasons);
    reasons := SortBy(reasons, Cost);
  }

  /** The loop over the ranked findings. */
  method ReasonsInOrder(ranked: seq<Finding>, c: Config) returns (reasons: seq<Reason>)
    ensures reasons == Reasons(ranked, c)
  {
    var scored: set<string> := {};
    reasons := [];
    var i := 0;
    while i < |ranked|
      invariant 0 <= i <= |ranked|
      invariant reasons == Reasons(ranked[..i], c)
      invariant forall id :: id in scored <==> Mentions(ranked[..i], id)
    {
      var finding := ranked[i];
      assert ranked[..i + 1] == ranked[..i] + [finding];
      assert ranked[..i + 1][..i] == ranked[..i];
      MentionsMore(ranked[..i], finding);
      var firstOfItsRule := finding.ruleId !in scored;
      scored := scored + {finding.ruleId};
      reasons := reasons + [Reason(finding.ruleId, finding.severity, finding.title,
                                   if firstOfItsRule then c.Points(finding.severity) else 0)];
      i := i + 1;
    }
    assert ranked[..i] == ranked;
  }

  lemma {:induction false} MentionsMore(s: seq<Finding>, f: Finding)
    ensures forall id :: Mentions(s + [f], id) <==> Mentions(s, id) || id == f.ruleId
  {
    forall id ensures Mentions(s + [f], id) <==> Mentions(s, id) || id == f.ruleId {
      assert f in s + [f];
      assert forall g :: g in s ==> g in s + [f];
    }
  }

  lemma {:induction false} ReasonsKeepFindings(ranked: seq<Finding>, c: Config)
    ensures Findings(Reasons(ranked, c)) == ranked
  {
    if ranked != [] {
      ReasonsKeepFindings(ranked[..|ranked| - 1], c);
    }
  }

  lemma {:induction false} SortedFindings(s: seq<Reason>)
    ensures multiset(Findings(SortBy(s, Cost))) == multiset(Findings(s))
  {
    if s != [] {
      SortedFindings(s[1..]);
      InsertFindings(s[0], SortBy(s[1..], Cost));
      assert Findings(s) == [FindingOf(s[0])] + Findings(s[1..]);
    }
  }

  lemma {:induction false} InsertFindings(x: Reason, s: seq<Reason>)
    ensures multiset(Findings(Insert(x, s, Cost))) == multiset{FindingOf(x)} + multiset(Findings(s))
  {
    if s == [] || Cost(x) <= Cost(s[0]) {
      assert Findings([x] + s) == [FindingOf(x)] + Findings(s);
    } else {
      InsertFindings(x, s[1..]);
      assert Findings(Insert(x, s, Cost)) == [FindingOf(s[0])] + Findings(Insert(x, s[1..], Cost));
      assert Findings(s) == [FindingOf(s[0])] + Findings(s[1..]);
    }
  }

  /** The whole assessment of one message. */
  method Assess(results: RuleResults, c: Config) returns (score: int, verdict: Verdict, reasons: seq<Reason>)
    ensures SortedBy(reasons, Cost) && multiset(Findings(reasons)) == multiset(results.findings)
    ensures score == Score(results.findings, c)
    ensures c.Ordered() ==>
              score == (var total := ClosedForm(results.findings, c); if total < c.maxScore then total else c.maxScore)
    ensures verdict == VerdictOf(score, c)
    ensures verdict == Phishing <==> score >= c.phishingAt
    ensures verdict == Suspicious <==> c.suspiciousAt <= score < c.phishingAt
  {
    reasons := ScoreFindings(results.findings, c);
    var total := Total(reasons);
    score := if total < c.maxScore then total else c.maxScore;
    if c.Ordered() { ScoreClosedForm(results.findings, c); }
    if score >= c.phishingAt {
      verdict := Phishing;
    } else if score >= c.suspiciousAt {
      verdict := Suspicious;
    } else {
      verdict := Clean;
    }
  }

  // ------------------------------------------------------------------ running the rules

  /** What one rule does on a message. */
  datatype RuleRun = Finds(id: string, findings: seq<Finding>) | Crashes(id: string, error: string)

  datatype RuleResults = RuleResults(findings: seq<Finding>, errors: seq<string>)

  function AllFindings(runs: seq<RuleRun>): seq<Finding> {
    if runs == [] then [] else
    var run := runs[|runs| - 1];
    AllFindings(runs[..|runs| - 1]) + if run.Finds? then run.findings else []
  }

  function Errors(runs: seq<RuleRun>): seq<string> {
    if runs == [] then [] else
    var run := runs[|runs| - 1];
    Errors(runs[..|runs| - 1]) + if run.Crashes? then [run.id + ": " + run.error] else []
  }

  /** The findings are those of the rules that did not crash, rule by rule. */
  lemma {:induction false} FindingsByRule(runs: seq<RuleRun>, run: RuleRun)
    ensures AllFindings([]) == [] && Errors([]) == []
    ensures AllFindings(runs + [run]) == AllFindings(runs) + if run.Finds? then run.findings else []
    ensures Errors(runs + [run]) == Errors(runs) + if run.Crashes? then [run.id + ": " + run.error] else []
  {
    assert (runs + [run])[..|runs|] == runs;
  }

  /** Runs every rule; a crash loses that rule's findings only, and is reported. */
  method RunRules(runs: seq<RuleRun>) returns (results: RuleResults)
    ensures SortedBy(results.findings, Weakness) && multiset(results.findings) == multiset(AllFindings(runs))
    ensures forall k :: WithKey(results.findings, Weakness, k) == WithKey(AllFindings(runs), Weakness, k)
    ensures results.errors == Errors(runs)
  {
    var findings, errors, i := [], [], 0;
    while i < |runs|
      invariant 0 <= i <= |runs|
      invariant findings == AllFindings(runs[..i]) && errors == Errors(runs[..i])
    {
      assert runs[..i + 1][..i] == runs[..i];
      match runs[i] {
        case Finds(_, found) => findings := findings + found;
        case Crashes(id, error) => errors := errors + [id + ": " + error];
      }
      i := i + 1;
    }
    assert runs[..i] == runs;
    SortSorted(findings, Weakness);
    forall k ensures WithKey(SortBy(findings, Weakness), Weakness, k) == WithKey(findings, Weakness, k) {
      SortStable(findings, Weakness, k);
    }
    results := RuleResults(SortBy(findings, Weakness), errors);
  }

  /** `crashed` is `runs` with some rules crashing instead. */
  predicate SomeCrash(runs: seq<RuleRun>, crashed: seq<RuleRun>) {
    |runs| == |crashed| && forall i :: 0 <= i < |runs| ==> crashed[i] == runs[i] || crashed[i].Crashes?
  }

  lemma {:induction false} CrashLosesFindings(runs: seq<RuleRun>, crashed: seq<RuleRun>, f: Finding)
    requires SomeCrash(runs, crashed) && f in AllFindings(crashed)
    ensures f in AllFindings(runs)
  {
    if runs != [] {
      var n := |runs| - 1;
      if f in AllFindings(crashed[..n]) {
        CrashLosesFindings(runs[..n], crashed[..n], f);
      }
    }
  }

  /** Crashing rules can only lower the score. */
  lemma {:induction false} CrashLowersScore(runs: seq<RuleRun>, crashed: seq<RuleRun>, c: Config)
    requires c.Ordered() && SomeCrash(runs, crashed)
    ensures Score(AllFindings(crashed), c) <= Score(AllFindings(runs), c)
  {
    forall f | f in AllFindings(crashed) ensures f in AllFindings(runs) {
      CrashLosesFindings(runs, crashed, f);
    }
    ScoreMonotone(AllFindings(crashed), AllFindings(runs), c);
  }
}
