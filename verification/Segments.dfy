/** The coverage table as a set of segments: which points it covers, its canonical form,
    and what merging a range into it means (src/heron/core/coverage.py). */
module Segments {
  import opened Ranges

  /** The folder of one account. */
  datatype Box = Box(account: nat, folder: string)

  datatype Segment = Segment(box: Box, range: Range)

  // ----------------------------------------------------------- the table as a set

  /** The instant `t` of `box` lies in some segment. */
  ghost predicate Covers(cov: set<Segment>, box: Box, t: int) {
    exists x :: x in cov && x.box == box && x.range.Contains(t)
  }

  /** There is uncovered time between the two ranges. */
  predicate Apart(a: Range, b: Range) {
    a.end < b.start || b.end < a.start
  }

  /** The segments of every box neither overlap nor touch. */
  ghost predicate Separated(cov: set<Segment>) {
    forall x, y :: x in cov && y in cov && x != y && x.box == y.box ==> Apart(x.range, y.range)
  }

  ghost predicate SamePoints(a: set<Segment>, b: set<Segment>) {
    forall box, t :: Covers(a, box, t) <==> Covers(b, box, t)
  }

  /** The canonical form is unique: two separated tables with the same points are equal. */
  lemma {:induction false} SeparatedUnique(a: set<Segment>, b: set<Segment>)
    requires Separated(a) && Separated(b) && SamePoints(a, b)
    ensures a == b
  {
    forall x | x in a ensures x in b {
      SegmentInBoth(a, b, x);
    }
    forall x | x in b ensures x in a {
      SegmentInBoth(b, a, x);
    }
  }

  lemma {:induction false} SegmentInBoth(a: set<Segment>, b: set<Segment>, x: Segment)
    requires Separated(a) && Separated(b) && SamePoints(a, b) && x in a
    ensures x in b
  {
    var r := x.range;
    assert Covers(a, x.box, r.start);
    var y :| y in b && y.box == x.box && y.range.Contains(r.start);
    assert !Covers(a, x.box, r.start - 1) by { EdgeUncovered(a, x); }
    assert !Covers(a, x.box, r.end) by { EdgeUncovered(a, x); }
    assert !Covers(b, y.box, y.range.start - 1) by { EdgeUncovered(b, y); }
    assert !Covers(b, y.box, y.range.end) by { EdgeUncovered(b, y); }
    assert y.range.start < r.start ==> y.range.Contains(r.start - 1);
    assert y.range.end < r.end ==> r.Contains(y.range.end);
    assert r.end < y.range.end ==> y.range.Contains(r.end);
  }

  /** Just outside a segment of a separated table nothing is covered. */
  lemma {:induction false} EdgeUncovered(cov: set<Segment>, x: Segment)
    requires Separated(cov) && x in cov
    ensures !Covers(cov, x.box, x.range.start - 1) && !Covers(cov, x.box, x.range.end)
  {
  }

  // ----------------------------------------------------------- merging one range

  /** The segments that overlap or touch a new one. */
  ghost function Touching(cov: set<Segment>, s: Segment): set<Segment> {
    set x | x in cov && x.box == s.box && !Apart(x.range, s.range)
  }

  /** The smallest start among `bound` and the segments. */
  ghost function LowStart(hit: set<Segment>, bound: int): (low: int)
    ensures low <= bound && forall x :: x in hit ==> low <= x.range.start
    ensures low == bound || exists x :: x in hit && x.range.start == low
  {
    if hit == {} then bound else
    var h :| h in hit;
    var rest := LowStart(hit - {h}, bound);
    if h.range.start < rest then h.range.start else rest
  }

  /** The largest end among `bound` and the segments. */
  ghost function HighEnd(hit: set<Segment>, bound: int): (high: int)
    ensures high >= bound && forall x :: x in hit ==> high >= x.range.end
    ensures high == bound || exists x :: x in hit && x.range.end == high
  {
    if hit == {} then bound else
    var h :| h in hit;
    var rest := HighEnd(hit - {h}, bound);
    if h.range.end > rest then h.range.end else rest
  }

  ghost function Hull(hit: set<Segment>, s: Segment): Segment {
    Segment(s.box, DateRange(LowStart(hit, s.range.start), HighEnd(hit, s.range.end)))
  }

  /** The table after recording `s`: everything it touches is consolidated. */
  ghost function Merge(cov: set<Segment>, s: Segment): set<Segment> {
    var hit := Touching(cov, s);
    (cov - hit) + {Hull(hit, s)}
  }

  /** Merging covers exactly what was covered before and the new range, on any table. */
  lemma {:induction false} MergePoints(cov: set<Segment>, s: Segment, box: Box, t: int)
    ensures Covers(Merge(cov, s), box, t) <==>
            Covers(cov, box, t) || (box == s.box && s.range.Contains(t))
  {
    var hit := Touching(cov, s);
    var hull := Hull(hit, s);
    if Covers(cov, box, t) {
      var x :| x in cov && x.box == box && x.range.Contains(t);
      assert x in hit ==> hull.range.Contains(t);
      assert x !in hit ==> x in Merge(cov, s);
    }
    assert hull in Merge(cov, s);
    if box == s.box && hull.range.Contains(t) && !s.range.Contains(t) {
      if t < s.range.start {
        var x :| x in hit && x.range.start == hull.range.start;
        assert x.range.Contains(t);
      } else {
        var x :| x in hit && x.range.end == hull.range.end;
        assert x.range.Contains(t);
      }
    }
  }

  lemma {:induction false} MergeSeparated(cov: set<Segment>, s: Segment)
    requires Separated(cov)
    ensures Separated(Merge(cov, s))
  {
    var hit := Touching(cov, s);
    var hull := Hull(hit, s);
    forall x | x in cov && x !in hit && x.box == s.box ensures Apart(x.range, hull.range) {
      MissesHull(cov, s, x.range, hit);
    }
  }

  /** A range that is apart from the new range, and from what the new range touches,
      is apart from their hull. */
  lemma {:induction false} MissesHull(cov: set<Segment>, s: Segment, r: Range, hit: set<Segment>)
    requires hit <= Touching(cov, s)
    requires Apart(r, s.range) && forall x :: x in hit ==> Apart(r, x.range)
    ensures Apart(r, Hull(hit, s).range)
  {
  }

  // ----------------------------------------------------------- any sequence of merges

  ghost function MergeAll(cov: set<Segment>, recorded: seq<Segment>): set<Segment> {
    if recorded == [] then cov else Merge(MergeAll(cov, recorded[..|recorded| - 1]), recorded[|recorded| - 1])
  }

  /** Some recorded range of `box` contains `t`. */
  ghost predicate InSome(recorded: seq<Segment>, box: Box, t: int) {
    exists x :: x in recorded && x.box == box && x.range.Contains(t)
  }

  /** Every sequence of recordings covers exactly the old points and the union of the
      recorded ranges, and keeps a separated table separated. */
  lemma {:induction false} MergeAllUnion(cov: set<Segment>, recorded: seq<Segment>, box: Box, t: int)
    ensures Covers(MergeAll(cov, recorded), box, t) <==> Covers(cov, box, t) || InSome(recorded, box, t)
    ensures Separated(cov) ==> Separated(MergeAll(cov, recorded))
  {
    if recorded != [] {
      var last := |recorded| - 1;
      var init := recorded[..last];
      assert recorded == init + [recorded[last]];
      MergeAllUnion(cov, init, box, t);
      MergePoints(MergeAll(cov, init), recorded[last], box, t);
      if Separated(cov) { MergeSeparated(MergeAll(cov, init), recorded[last]); }
    }
  }

  /** Order does not matter: recording the same ranges in any order, with any repetitions,
      gives the same segments. */
  lemma {:induction false} MergeAllConfluent(cov: set<Segment>, p: seq<Segment>, q: seq<Segment>)
    requires Separated(cov)
    requires forall x :: x in p <==> x in q
    ensures MergeAll(cov, p) == MergeAll(cov, q)
  {
    forall box, t ensures Covers(MergeAll(cov, p), box, t) <==> Covers(MergeAll(cov, q), box, t) {
      MergeAllUnion(cov, p, box, t);
      MergeAllUnion(cov, q, box, t);
      assert InSome(p, box, t) <==> InSome(q, box, t);
    }
    MergeAllUnion(cov, p, Box(0, ""), 0);
    MergeAllUnion(cov, q, Box(0, ""), 0);
    SeparatedUnique(MergeAll(cov, p), MergeAll(cov, q));
  }
}
