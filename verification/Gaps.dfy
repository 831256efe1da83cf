/** Ordered lists of separated ranges, and what the gaps of a request are
    (src/heron/core/coverage.py, `compute_gaps`). */
module Gaps {
  import opened Ranges
  import opened Segments

  /** Increasing ranges with uncovered time between neighbours. */
  ghost predicate Canonical(s: seq<Range>) {
    forall i, j :: 0 <= i < j < |s| ==> s[i].end < s[j].start
  }

  ghost predicate InRanges(s: seq<Range>, t: int) {
    exists r :: r in s && r.Contains(t)
  }

  /** The gaps of a request: an ordered, separated list of exactly the requested instants
      that no covered range contains. */
  ghost predicate IsGaps(requested: Range, covered: seq<Range>, gaps: seq<Range>) {
    && Canonical(gaps)
    && forall t :: InRanges(gaps, t) <==> requested.Contains(t) && !InRanges(covered, t)
  }

  /** A canonical list is determined by its points. */
  lemma {:induction false} CanonicalUnique(a: seq<Range>, b: seq<Range>)
    requires Canonical(a) && Canonical(b)
    requires forall t :: InRanges(a, t) <==> InRanges(b, t)
    ensures a == b
  {
    if a == [] {
      assert b != [] ==> b[0].Contains(b[0].start) && InRanges(b, b[0].start);
    } else {
      assert a[0].Contains(a[0].start) && InRanges(b, a[0].start);
      SameHead(a, b);
      SameHead(b, a);
      forall t ensures InRanges(a[1..], t) <==> InRanges(b[1..], t) {
        TailPoints(a, t);
        TailPoints(b, t);
      }
      CanonicalUnique(a[1..], b[1..]);
    }
  }

  lemma {:induction false} TailPoints(a: seq<Range>, t: int)
    requires a != [] && Canonical(a)
    ensures InRanges(a[1..], t) <==> InRanges(a, t) && !a[0].Contains(t)
  {
    assert a == [a[0]] + a[1..];
    forall r | r in a[1..] ensures a[0].end < r.start {
      var i :| 0 <= i < |a[1..]| && a[1..][i] == r;
      assert a[i + 1] == r;
    }
  }

  lemma {:induction false} SameHead(a: seq<Range>, b: seq<Range>)
    requires Canonical(a) && Canonical(b) && a != [] && b != []
    requires forall t :: InRanges(a, t) <==> InRanges(b, t)
    ensures b[0].start <= a[0].start && b[0].end <= a[0].end
  {
    assert forall r :: r in b ==> b[0].start <= r.start;
    assert forall r :: r in a ==> a[0].start <= r.start;
    assert a[0].Contains(a[0].start) && InRanges(a, a[0].start);
    assert b[0].Contains(b[0].start) && InRanges(b, b[0].start);
    assert b[0].start == a[0].start;
    var edge, head := a[0].end, b[0];
    assert !InRanges(b, edge);
    assert head in b && !head.Contains(edge);
  }

  /** Gaps are unique, so the request and the covered points determine the list. */
  lemma {:induction false} GapsUnique(requested: Range, covered: seq<Range>, covered': seq<Range>, gaps: seq<Range>,
                                      gaps': seq<Range>)
    requires IsGaps(requested, covered, gaps) && IsGaps(requested, covered', gaps')
    requires forall t :: requested.Contains(t) ==> (InRanges(covered, t) <==> InRanges(covered', t))
    ensures gaps == gaps'
  {
    CanonicalUnique(gaps, gaps');
  }

  // ------------------------------------------------------------ asking again

  /** The ranges whose flag is not set, in order. */
  function Unset(s: seq<Range>, flags: seq<bool>): (r: seq<Range>)
    requires |s| == |flags|
    ensures forall x :: x in r <==> exists i :: 0 <= i < |s| && s[i] == x && !flags[i]
  {
    if s == [] then [] else
    var last := |s| - 1;
    var init := Unset(s[..last], flags[..last]);
    if flags[last] then init else init + [s[last]]
  }

  lemma {:induction false} UnsetCanonical(s: seq<Range>, flags: seq<bool>)
    requires |s| == |flags| && Canonical(s)
    ensures Canonical(Unset(s, flags))
  {
    if s != [] {
      var last := |s| - 1;
      UnsetCanonical(s[..last], flags[..last]);
      forall x | x in Unset(s[..last], flags[..last]) ensures x.end < s[last].start {
      }
    }
  }

  lemma {:induction false} UnsetAll(s: seq<Range>, flags: seq<bool>)
    requires |s| == |flags| && forall i :: 0 <= i < |flags| ==> flags[i]
    ensures Unset(s, flags) == []
  {
    if s != [] { UnsetAll(s[..|s| - 1], flags[..|s| - 1]); }
  }

  /** One instant belongs to one gap only, so the points of the unset gaps are the
      points of all gaps without those of the set ones. */
  lemma {:induction false} UnsetPoints(s: seq<Range>, flags: seq<bool>, t: int)
    requires |s| == |flags| && Canonical(s)
    ensures InRanges(Unset(s, flags), t) <==>
            InRanges(s, t) && !exists i :: 0 <= i < |s| && flags[i] && s[i].Contains(t)
  {
    if r :| r in s && r.Contains(t) {
      var k :| 0 <= k < |s| && s[k] == r;
      if !flags[k] { assert r in Unset(s, flags); }
    }
  }

  /** The segments of one box as ranges. */
  ghost predicate Lists(cov: set<Segment>, box: Box, covered: seq<Range>) {
    forall r: Range :: r in covered <==> Segment(box, r) in cov
  }

  lemma {:induction false} ListsPoints(cov: set<Segment>, box: Box, covered: seq<Range>, t: int)
    requires Lists(cov, box, covered)
    ensures InRanges(covered, t) <==> Covers(cov, box, t)
  {
    if r :| r in covered && r.Contains(t) {
      assert Segment(box, r) in cov;
    }
    if x :| x in cov && x.box == box && x.range.Contains(t) {
      assert Segment(box, x.range) == x;
    }
  }

  /** The gaps of a request against the coverage table, as the list that is computed for it. */
  ghost predicate AreGaps(cov: set<Segment>, box: Box, requested: Range, gaps: seq<Range>) {
    Canonical(gaps) && forall t :: InRanges(gaps, t) <==> requested.Contains(t) && !Covers(cov, box, t)
  }
}
