/** Recording coverage, reading it back, and computing the gaps of a request
    (src/heron/core/coverage.py). */
module Coverage {
  import opened Ranges
  import opened Segments
  import opened Gaps
  import opened Sorting

  // ----------------------------------------------------------- the table in place

  class CoverageTable {
    var rows: map<nat, Segment>
    var nextId: nat

    ghost function Segments(): set<Segment>
      reads this
    {
      rows.Values
    }

    /** Rows with different ids never overlap or touch within a box. */
    ghost predicate Valid()
      reads this
    {
      (forall id :: id in rows ==> id < nextId) && RowsApart(rows)
    }

    constructor ()
      ensures Valid() && Segments() == {}
    {
      rows, nextId := map[], 0;
    }

    /** Replaces every row that overlaps or touches the range by one consolidated row. */
    method RecordCoverage(box: Box, range: Range)
      requires Valid()
      modifies this
      ensures Valid()
      ensures Segments() == Merge(old(Segments()), Segment(box, range)) && Separated(Segments())
      ensures KeepsOtherBoxes(old(rows), rows, box)
    {
      var table, newId := rows, nextId;
      var merged, start, end := GrowWindow(table, box, range);
      ReplaceMerged(table, newId, merged, Segment(box, range), start, end);
      var consolidated := Segment(box, DateRange(start, end));
      OtherRowsStay(table, newId, merged, Segment(box, range), consolidated);
      rows := Replaced(table, newId, merged, consolidated);
      nextId := newId + 1;
      RowsSeparate(rows);
    }

    /** The box's segments, oldest first. */
    method GetCoverage(box: Box) returns (segments: seq<Range>)
      requires Valid()
      ensures Canonical(segments) && Lists(Segments(), box, segments)
    {
      var todo: set<nat> := set id | id in rows && rows[id].box == box;
      segments := [];
      while todo != {}
        invariant forall id :: id in todo ==> id in rows && rows[id].box == box
        invariant Canonical(segments)
        invariant forall r :: r in segments <==> exists id :: id in rows && id !in todo && rows[id] == Segment(box, r)
        decreases |todo|
      {
        var id :| id in todo;
        todo := todo - {id};
        forall r | r in segments ensures Apart(r, rows[id].range) {
        }
        InsertCanonical(rows[id].range, segments);
        segments := Insert(rows[id].range, segments, StartOf);
      }
      assert forall r: Range :: Segment(box, r) in Segments() <==> exists id :: id in rows && rows[id] == Segment(box, r);
    }

    /** The parts of a request that still need a job. */
    method GetGaps(box: Box, requested: Range) returns (gaps: seq<Range>)
      requires Valid()
      ensures AreGaps(Segments(), box, requested, gaps)
    {
      var covered := GetCoverage(box);
      gaps := ComputeGaps(requested, covered);
      forall t ensures InRanges(covered, t) <==> Covers(Segments(), box, t) {
        ListsPoints(Segments(), box, covered, t);
      }
    }
  }

  function StartOf(r: Range): int {
    r.start
  }

  lemma {:induction false} InsertCanonical(r: Range, s: seq<Range>)
    requires Canonical(s) && forall x :: x in s ==> Apart(x, r)
    ensures Canonical(Insert(r, s, StartOf))
  {
    if s == [] || r.start <= s[0].start {
      if s != [] { assert Apart(s[0], r); }
    } else {
      assert Apart(s[0], r);
      InsertCanonical(r, s[1..]);
      var rest := Insert(r, s[1..], StartOf);
      forall j | 0 <= j < |rest| ensures s[0].end < rest[j].start {
        assert rest[j] in rest;
      }
    }
  }

  /** A sweep over the covered ranges in start order, which need be neither sorted nor
      disjoint: clipped to the request, with an early exit once the request is exhausted. */
  method ComputeGaps(requested: Range, covered: seq<Range>) returns (gaps: seq<Range>)
    ensures IsGaps(requested, covered, gaps)
  {
    gaps := [];
    var cursor := requested.start;
    var sorted := SortBy(covered, StartOf);
    SortSorted(covered, StartOf);
    var i := 0;
    while i < |sorted|
      invariant 0 <= i <= |sorted| && requested.start <= cursor < requested.end
      invariant Swept(requested, sorted, i, cursor, gaps)
    {
      var segment := sorted[i];
      var segmentStart := if segment.start > requested.start then segment.start else requested.start;
      var segmentEnd := if segment.end < requested.end then segment.end else requested.end;
      SweptStep(requested, sorted, i, cursor, gaps);
      i := i + 1;
      if segmentStart >= segmentEnd {
        continue;
      }
      if segmentStart > cursor {
        gaps := gaps + [DateRange(cursor, segmentStart)];
      }
      cursor := if segmentEnd > cursor then segmentEnd else cursor;
      if cursor >= requested.end {
        break;
      }
    }
    SweptLast(requested, sorted, i, cursor, gaps);
    if cursor < requested.end {
      gaps := gaps + [DateRange(cursor, requested.end)];
    }
    assert forall t :: InRanges(sorted, t) <==> InRanges(covered, t);
  }

  /** The state of the sweep after `i` segments: the gaps are right up to the cursor, lie
      before every later segment, and nothing seen so far reaches past the cursor. */
  ghost predicate Swept(requested: Range, sorted: seq<Range>, i: nat, cursor: int, gaps: seq<Range>)
    requires i <= |sorted|
  {
    && GapsBehind(sorted, i, cursor, gaps)
    && forall t :: SweptAt(requested, sorted[..i], cursor, gaps, t)
  }

  ghost predicate GapsBehind(sorted: seq<Range>, i: nat, cursor: int, gaps: seq<Range>) {
    && Canonical(gaps)
    && forall g :: g in gaps ==> g.end < cursor && forall j :: i <= j < |sorted| ==> g.end <= sorted[j].start
  }

  ghost predicate SweptAt(requested: Range, seen: seq<Range>, cursor: int, gaps: seq<Range>, t: int) {
    && (InRanges(gaps, t) <==> requested.start <= t < cursor && !InRanges(seen, t))
    && (cursor <= t < requested.end ==> !InRanges(seen, t))
  }

  lemma {:induction false} AddRange(s: seq<Range>, r: Range, t: int)
    ensures InRanges(s + [r], t) <==> InRanges(s, t) || r.Contains(t)
  {
    assert r in s + [r];
    forall x | x in s ensures x in s + [r] {
    }
  }

  /** One segment of the sweep: the clipped segment and the next gaps and cursor. */
  ghost function Clip(requested: Range, segment: Range): DateRange {
    DateRange(if segment.start > requested.start then segment.start else requested.start,
              if segment.end < requested.end then segment.end else requested.end)
  }

  ghost function NextGaps(requested: Range, segment: Range, cursor: int, gaps: seq<Range>): seq<Range> {
    var c := Clip(requested, segment);
    if c.start < c.end && c.start > cursor then gaps + [DateRange(cursor, c.start)] else gaps
  }

  ghost function NextCursor(requested: Range, segment: Range, cursor: int): int {
    var c := Clip(requested, segment);
    if c.start < c.end && c.end > cursor then c.end else cursor
  }

  lemma {:induction false} SweptStep(requested: Range, sorted: seq<Range>, i: nat, cursor: int, gaps: seq<Range>)
    requires SortedBy(sorted, StartOf) && i < |sorted|
    requires requested.start <= cursor < requested.end && Swept(requested, sorted, i, cursor, gaps)
    ensures Swept(requested, sorted, i + 1, NextCursor(requested, sorted[i], cursor), NextGaps(requested, sorted[i], cursor, gaps))
  {
    var segment := sorted[i];
    var c := Clip(requested, segment);
    var gaps' := NextGaps(requested, segment, cursor, gaps);
    var cursor' := NextCursor(requested, segment, cursor);
    assert forall j :: i <= j < |sorted| ==> StartOf(segment) <= StartOf(sorted[j]);
    assert GapsBehind(sorted, i + 1, cursor', gaps');
    var seen := sorted[..i + 1];
    assert seen == sorted[..i] + [segment];
    forall t ensures SweptAt(requested, seen, cursor', gaps', t) {
      assert SweptAt(requested, sorted[..i], cursor, gaps, t);
      AddRange(sorted[..i], segment, t);
      if c.start < c.end && c.start > cursor { AddRange(gaps, DateRange(cursor, c.start), t); }
      GapsBeforeRest(sorted, i, cursor, gaps, t);
    }
  }

  /** No later segment contains an instant that is already in a gap. */
  lemma {:induction false} GapsBeforeRest(sorted: seq<Range>, i: nat, cursor: int, gaps: seq<Range>, t: int)
    requires i <= |sorted| && GapsBehind(sorted, i, cursor, gaps)
    ensures InRanges(gaps, t) ==> !InRanges(sorted[i..], t)
    ensures InRanges(gaps, t) ==> forall j :: i <= j < |sorted| ==> !sorted[j].Contains(t)
  {
  }

  lemma {:induction false} SweptLast(requested: Range, sorted: seq<Range>, i: nat, cursor: int, gaps: seq<Range>)
    requires i <= |sorted| && requested.start <= cursor <= requested.end
    requires Swept(requested, sorted, i, cursor, gaps) && (i == |sorted| || cursor == requested.end)
    ensures var gaps' := if cursor < requested.end then gaps + [DateRange(cursor, requested.end)] else gaps;
            IsGaps(requested, sorted, gaps')
  {
    var gaps' := if cursor < requested.end then gaps + [DateRange(cursor, requested.end)] else gaps;
    assert Canonical(gaps');
    forall t ensures InRanges(gaps', t) <==> requested.Contains(t) && !InRanges(sorted, t) {
      assert SweptAt(requested, sorted[..i], cursor, gaps, t);
      if cursor < requested.end { AddRange(gaps, DateRange(cursor, requested.end), t); }
      SplitPoints(sorted, i, t);
      GapsBeforeRest(sorted, i, cursor, gaps, t);
    }
  }

  lemma {:induction false} SplitPoints(s: seq<Range>, i: nat, t: int)
    requires i <= |s|
    ensures InRanges(s, t) <==> InRanges(s[..i], t) || InRanges(s[i..], t)
    ensures i == |s| ==> !InRanges(s[i..], t)
  {
    assert s == s[..i] + s[i..];
  }

  /** One pass over the box's rows, in whatever order the query returns them. A row is
      tested against the grown window, which is the same as testing it against `range`. */
  method GrowWindow(rows: map<nat, Segment>, box: Box, range: Range)
    returns (merged: set<nat>, start: int, end: int)
    requires RowsApart(rows)
    ensures IsMerged(rows, merged, Segment(box, range))
    ensures IsWindow(rows, merged, range, start, end)
  {
    start, end := range.start, range.end;
    var todo: set<nat> := set id | id in rows && rows[id].box == box;
    merged := {};
    while todo != {}
      invariant Visited(rows, box, range, todo, merged)
      invariant IsWindow(rows, merged, range, start, end)
      decreases |todo|
    {
      var id :| id in todo;
      var row := rows[id].range;
      WindowTest(rows, merged, range, start, end, id);
      VisitOne(rows, box, range, todo, merged, id);
      todo := todo - {id};
      if row.start <= end && row.end >= start {
        WindowGrows(rows, merged, range, start, end, id);
        start := if row.start < start then row.start else start;
        end := if row.end > end then row.end else end;
        merged := merged + {id};
      }
    }
  }

  /** The rows of the box that are not to do are merged exactly if they touch the range. */
  ghost predicate Visited(rows: map<nat, Segment>, box: Box, range: Range, todo: set<nat>, merged: set<nat>) {
    && merged <= rows.Keys && todo <= rows.Keys
    && forall id :: id in rows ==>
         && (id in todo ==> rows[id].box == box && id !in merged)
         && (id !in todo ==> (id in merged <==> rows[id].box == box && !Apart(rows[id].range, range)))
  }

  lemma {:induction false} VisitOne(rows: map<nat, Segment>, box: Box, range: Range, todo: set<nat>, merged: set<nat>,
                                    id: nat)
    requires Visited(rows, box, range, todo, merged) && id in todo
    ensures Visited(rows, box, range, todo - {id}, if Apart(rows[id].range, range) then merged else merged + {id})
  {
  }

  ghost predicate RowsApart(rows: map<nat, Segment>) {
    forall i, j :: i in rows && j in rows && i != j && rows[i].box == rows[j].box ==>
      Apart(rows[i].range, rows[j].range)
  }

  /** `start` and `end` are the least start and the greatest end of the range and the merged rows. */
  ghost predicate IsWindow(rows: map<nat, Segment>, merged: set<nat>, range: Range, start: int, end: int)
    requires merged <= rows.Keys
  {
    && start <= range.start && (forall id :: id in merged ==> start <= rows[id].range.start)
    && (start == range.start || exists id :: id in merged && rows[id].range.start == start)
    && end >= range.end && (forall id :: id in merged ==> end >= rows[id].range.end)
    && (end == range.end || exists id :: id in merged && rows[id].range.end == end)
  }

  /** A row touches the grown window exactly when it touches the range being recorded. */
  lemma {:induction false} WindowTest(rows: map<nat, Segment>, merged: set<nat>, range: Range, start: int, end: int,
                                      id: nat)
    requires RowsApart(rows) && merged <= rows.Keys && id in rows && id !in merged
    requires forall m :: m in merged ==> rows[m].box == rows[id].box && !Apart(rows[m].range, range)
    requires IsWindow(rows, merged, range, start, end)
    ensures rows[id].range.start <= end && rows[id].range.end >= start <==> !Apart(rows[id].range, range)
  {
    assert forall m :: m in merged ==> Apart(rows[m].range, rows[id].range);
  }

  lemma {:induction false} WindowGrows(rows: map<nat, Segment>, merged: set<nat>, range: Range, start: int, end: int,
                                       id: nat)
    requires merged <= rows.Keys && id in rows && IsWindow(rows, merged, range, start, end)
    ensures var row := rows[id].range;
            IsWindow(rows, merged + {id}, range, if row.start < start then row.start else start,
                     if row.end > end then row.end else end)
  {
    assert id in merged + {id};
    assert forall m :: m in merged ==> m in merged + {id};
  }

  /** The merged rows are exactly the rows that touch `s`. */
  ghost predicate IsMerged(rows: map<nat, Segment>, merged: set<nat>, s: Segment) {
    && merged <= rows.Keys
    && forall id :: id in rows ==> (id in merged <==> rows[id].box == s.box && !Apart(rows[id].range, s.range))
  }

  /** The rows of the other folders are still there. */
  ghost predicate KeepsOtherBoxes(before: map<nat, Segment>, after: map<nat, Segment>, box: Box) {
    forall id :: id in before && before[id].box != box ==> id in after && after[id] == before[id]
  }

  /** Rows that lie apart are separated segments. */
  lemma {:induction false} RowsSeparate(rows: map<nat, Segment>)
    requires RowsApart(rows)
    ensures Separated(rows.Values)
  {
  }

  /** The table without the merged rows and with the consolidated one. */
  function Replaced(rows: map<nat, Segment>, newId: nat, merged: set<nat>, x: Segment): map<nat, Segment> {
    (rows - merged)[newId := x]
  }

  lemma {:induction false} OtherRowsStay(rows: map<nat, Segment>, newId: nat, merged: set<nat>, s: Segment, x: Segment)
    requires IsMerged(rows, merged, s) && forall id :: id in rows ==> id < newId
    ensures var rows' := Replaced(rows, newId, merged, x);
            (forall id :: id in rows' ==> id < newId + 1) && KeepsOtherBoxes(rows, rows', s.box)
  {
  }

  /** Deleting the merged rows and inserting the window is the merge of the table's segments. */
  lemma {:induction false} ReplaceMerged(rows: map<nat, Segment>, nextId: nat, merged: set<nat>, s: Segment,
                                         start: int, end: int)
    requires RowsApart(rows) && forall id :: id in rows ==> id < nextId
    requires IsMerged(rows, merged, s) && IsWindow(rows, merged, s.range, start, end)
    ensures start < end
    ensures var rows' := Replaced(rows, nextId, merged, Segment(s.box, DateRange(start, end)));
            rows'.Values == Merge(rows.Values, s) && RowsApart(rows')
  {
    var hit := Touching(rows.Values, s);
    WindowIsHull(rows, merged, s, start, end);
    KeptValues(rows, merged, s);
    InsertedValues(rows - merged, nextId, Hull(hit, s));
    KeptMissHull(rows, merged, s);
  }

  lemma {:induction false} WindowIsHull(rows: map<nat, Segment>, merged: set<nat>, s: Segment, start: int, end: int)
    requires IsMerged(rows, merged, s) && IsWindow(rows, merged, s.range, start, end)
    ensures start < end && Hull(Touching(rows.Values, s), s) == Segment(s.box, DateRange(start, end))
  {
    var hit := Touching(rows.Values, s);
    assert forall id :: id in merged ==> rows[id] in hit;
    forall x | x in hit ensures exists id :: id in merged && rows[id] == x {
      var id :| id in rows && rows[id] == x;
      assert id in merged;
    }
  }

  lemma {:induction false} KeptValues(rows: map<nat, Segment>, merged: set<nat>, s: Segment)
    requires IsMerged(rows, merged, s)
    ensures (rows - merged).Values == rows.Values - Touching(rows.Values, s)
  {
    var kept := rows - merged;
    forall x | x in rows.Values - Touching(rows.Values, s) ensures x in kept.Values {
      var id :| id in rows && rows[id] == x;
      assert id in kept;
    }
  }

  lemma {:induction false} InsertedValues(rows: map<nat, Segment>, id: nat, x: Segment)
    requires id !in rows
    ensures rows[id := x].Values == rows.Values + {x}
  {
    var rows' := rows[id := x];
    assert rows'[id] == x;
    forall y | y in rows.Values ensures y in rows'.Values {
      var i :| i in rows && rows[i] == y;
      assert rows'[i] == y;
    }
  }

  lemma {:induction false} KeptMissHull(rows: map<nat, Segment>, merged: set<nat>, s: Segment)
    requires RowsApart(rows) && IsMerged(rows, merged, s)
    ensures forall id :: id in rows && id !in merged && rows[id].box == s.box ==>
              Apart(rows[id].range, Hull(Touching(rows.Values, s), s).range)
  {
    var hit := Touching(rows.Values, s);
    forall id | id in rows && id !in merged && rows[id].box == s.box
      ensures Apart(rows[id].range, Hull(hit, s).range)
    {
      forall x | x in hit ensures Apart(rows[id].range, x.range) {
        var m :| m in rows && rows[m] == x;
        assert m in merged;
      }
      MissesHull(rows.Values, s, rows[id].range, hit);
    }
  }
}
