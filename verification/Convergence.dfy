/** Asking again converges: after any run that works on the gaps of a request, the next request
    has exactly the gaps that were not recorded (src/heron/core/coverage.py,
    src/heron/api/ingest.py, src/heron/worker/runner.py). */
module Convergence {
  import opened Ranges
  import opened Segments
  import opened Gaps
  import opened Ingestion
  import opened CoverageSafety
  import opened IngestionRuns

  /** Between `s` and `t` the range was recorded for the folder. */
  predicate RecordedSince(s: State, t: State, box: Box, range: Range) {
    exists i :: |s.log| <= i < |t.log| && t.log[i].box == box && t.log[i].range == range
  }

  /** Every runner in the folder works on one of these jobs. */
  ghost predicate WorksOnlyOn(s: State, box: Box, ids: seq<nat>) {
    forall rid :: rid in s.runners && s.runners[rid].box == box ==> s.runners[rid].job in ids
  }

  /** Of the folder's jobs only these are claimed. */
  ghost predicate ClaimsOnly(ls: seq<Label>, end: State, box: Box, ids: seq<nat>) {
    forall l :: l in ls && l.Claim? && l.id in end.jobs && end.jobs[l.id].box == box ==> l.id in ids
  }

  /** What was recorded for the folder since `s` are ranges of these jobs. */
  ghost predicate RecordsOnly(s: State, t: State, box: Box, ids: seq<nat>) {
    forall i :: |s.log| <= i < |t.log| && t.log[i].box == box ==> IsRangeOf(t, ids, t.log[i].range)
  }

  predicate IsRangeOf(t: State, ids: seq<nat>, range: Range) {
    exists k :: 0 <= k < |ids| && ids[k] in t.jobs && t.jobs[ids[k]].range == range
  }

  lemma {:induction false} ExtendsRange(s: State, t: State, ids: seq<nat>, range: Range)
    requires Extends(s, t) && IsRangeOf(s, ids, range)
    ensures IsRangeOf(t, ids, range)
  {
    var k :| 0 <= k < |ids| && ids[k] in s.jobs && s.jobs[ids[k]].range == range;
    assert ids[k] in t.jobs && t.jobs[ids[k]].range == range;
  }

  lemma {:induction false} WorkStep(s: State, l: Label, box: Box, ids: seq<nat>)
    requires Enabled(s, l) && WorksOnlyOn(s, box, ids)
    requires l.Claim? && s.jobs[l.id].box == box ==> l.id in ids
    ensures WorksOnlyOn(Apply(s, l), box, ids)
  {
  }

  lemma {:induction false} RecordStep(s: State, l: Label, box: Box, ids: seq<nat>)
    requires Inv(s) && Enabled(s, l) && WorksOnlyOn(s, box, ids)
    ensures RecordsOnly(s, Apply(s, l), box, ids)
  {
    if l.Record? && s.runners[l.rid].box == box {
      var r := s.runners[l.rid];
      assert RunnerOk(s, r);
      var k :| 0 <= k < |ids| && ids[k] == r.job;
      assert ids[k] in Apply(s, l).jobs && Apply(s, l).jobs[ids[k]].range == r.range;
    }
  }

  /** A run that claims only these jobs records only their ranges. */
  lemma {:induction false} OnlyTheirRanges(s: State, ls: seq<Label>, box: Box, ids: seq<nat>)
    requires Inv(s) && Run(s, ls).Some? && AllUsable(ls)
    requires WorksOnlyOn(s, box, ids) && ClaimsOnly(ls, Run(s, ls).value, box, ids)
    ensures WorksOnlyOn(Run(s, ls).value, box, ids) && RecordsOnly(s, Run(s, ls).value, box, ids)
  {
    if ls != [] {
      var init, l := ls[..|ls| - 1], ls[|ls| - 1];
      var mid, t := Run(s, init).value, Run(s, ls).value;
      InvRun(s, init);
      InvStep(mid, l);
      forall c | c in init && c.Claim? && c.id in mid.jobs && mid.jobs[c.id].box == box ensures c.id in ids {
        assert c in ls && t.jobs[c.id].box == box;
      }
      OnlyTheirRanges(s, init, box, ids);
      assert l in ls && (l.Claim? ==> t.jobs[l.id].box == mid.jobs[l.id].box);
      WorkStep(mid, l, box, ids);
      RecordStep(mid, l, box, ids);
      RecordsJoin(s, mid, t, box, ids);
    }
  }

  lemma {:induction false} RecordsJoin(s: State, mid: State, t: State, box: Box, ids: seq<nat>)
    requires |s.log| <= |mid.log| && Extends(mid, t)
    requires RecordsOnly(s, mid, box, ids) && RecordsOnly(mid, t, box, ids)
    ensures RecordsOnly(s, t, box, ids)
  {
    forall i | |s.log| <= i < |t.log| && t.log[i].box == box ensures IsRangeOf(t, ids, t.log[i].range) {
      if i < |mid.log| {
        assert t.log[i] == mid.log[i];
        ExtendsRange(mid, t, ids, mid.log[i].range);
      }
    }
  }

  /** Which of the gaps were recorded. */
  function Flags(s: State, t: State, box: Box, gaps: seq<Range>): seq<bool> {
    seq(|gaps|, i requires 0 <= i < |gaps| => RecordedSince(s, t, box, gaps[i]))
  }

  /** The jobs `ids` ask for the gaps, in order. */
  predicate AskFor(t: State, box: Box, ids: seq<nat>, gaps: seq<Range>) {
    |ids| == |gaps|
    && forall i :: 0 <= i < |ids| ==> ids[i] in t.jobs && t.jobs[ids[i]].box == box && t.jobs[ids[i]].range == gaps[i]
  }

  /** An instant is recorded by the end if it was before or lies in a gap recorded since. */
  lemma {:induction false} RecordedByEnd(s: State, t: State, box: Box, ids: seq<nat>, gaps: seq<Range>, x: int)
    requires s.log <= t.log && RecordsOnly(s, t, box, ids) && AskFor(t, box, ids, gaps)
    ensures Recorded(t.log, box, x) <==>
            Recorded(s.log, box, x) || exists i :: 0 <= i < |gaps| && Flags(s, t, box, gaps)[i] && gaps[i].Contains(x)
  {
    if e :| e in t.log && e.box == box && e.range.Contains(x) {
      var i :| 0 <= i < |t.log| && t.log[i] == e;
      if i < |s.log| {
        assert s.log[i] == e;
      } else {
        var k :| 0 <= k < |ids| && ids[k] in t.jobs && t.jobs[ids[k]].range == e.range;
        assert Flags(s, t, box, gaps)[k] && gaps[k].Contains(x);
      }
    }
    if e :| e in s.log && e.box == box && e.range.Contains(x) {
      var i :| 0 <= i < |s.log| && s.log[i] == e;
      assert t.log[i] == e;
    }
    if i :| 0 <= i < |gaps| && Flags(s, t, box, gaps)[i] && gaps[i].Contains(x) {
      var k :| |s.log| <= k < |t.log| && t.log[k].box == box && t.log[k].range == gaps[i];
      assert t.log[k] in t.log;
    }
  }

  /** Convergence over runs: from any consistent state, after any run of requests, crashes,
      retries and other folders' jobs that claims no further job of this folder, the next request
      has exactly the gaps not recorded meanwhile, as an equal list. A gap whose job is done has
      been recorded. */
  lemma {:induction false} NextRequest(s: State, ls: seq<Label>, box: Box, requested: Range, ids: seq<nat>,
                                       gaps: seq<Range>, gaps': seq<Range>)
    requires Inv(s) && Run(s, ls).Some? && AllUsable(ls)
    requires WorksOnlyOn(s, box, ids) && ClaimsOnly(ls, Run(s, ls).value, box, ids)
    requires AreGaps(s.coverage, box, requested, gaps) && AskFor(Run(s, ls).value, box, ids, gaps)
    requires AreGaps(Run(s, ls).value.coverage, box, requested, gaps')
    ensures gaps' == Unset(gaps, Flags(s, Run(s, ls).value, box, gaps))
    ensures forall i :: 0 <= i < |ids| && Run(s, ls).value.jobs[ids[i]].status.Done? ==>
              Flags(s, Run(s, ls).value, box, gaps)[i]
  {
    var t := Run(s, ls).value;
    var flags := Flags(s, t, box, gaps);
    InvRun(s, ls);
    OnlyTheirRanges(s, ls, box, ids);
    UnsetCanonical(gaps, flags);
    forall x ensures InRanges(gaps', x) <==> InRanges(Unset(gaps, flags), x) {
      RecordedByEnd(s, t, box, ids, gaps, x);
      UnsetPoints(gaps, flags, x);
    }
    CanonicalUnique(gaps', Unset(gaps, flags));
    forall i | 0 <= i < |ids| && t.jobs[ids[i]].status.Done? ensures flags[i] {
      DoneIsRecorded(s, t, box, requested, ids, gaps, i);
    }
  }

  lemma {:induction false} DoneIsRecorded(s: State, t: State, box: Box, requested: Range, ids: seq<nat>,
                                          gaps: seq<Range>, i: nat)
    requires Inv(s) && Inv(t) && Extends(s, t) && AreGaps(s.coverage, box, requested, gaps) && AskFor(t, box, ids, gaps)
    requires i < |ids| && t.jobs[ids[i]].status.Done?
    ensures RecordedSince(s, t, box, gaps[i])
  {
    assert JobOk(t, t.jobs[ids[i]]);
    var k :| 0 <= k < |t.log| && t.log[k].box == box && t.log[k].range == gaps[i];
    GapNotRecorded(s, t.log, box, requested, gaps, i);
  }

  lemma {:induction false} GapNotRecorded(s: State, log: seq<Recording>, box: Box, requested: Range, gaps: seq<Range>,
                                          i: nat)
    requires CoverageOk(s) && s.log <= log && AreGaps(s.coverage, box, requested, gaps) && i < |gaps|
    ensures forall k :: 0 <= k < |s.log| && log[k].box == box ==> log[k].range != gaps[i]
  {
    assert gaps[i] in gaps && gaps[i].Contains(gaps[i].start);
    assert !Recorded(s.log, box, gaps[i].start);
    forall k | 0 <= k < |s.log| && log[k].box == box ensures log[k].range != gaps[i] {
      assert log[k] == s.log[k] && s.log[k] in s.log;
    }
  }

  /** When every job is done there is nothing left to ask for. */
  lemma {:induction false} NothingLeft(s: State, ls: seq<Label>, box: Box, requested: Range, ids: seq<nat>,
                                       gaps: seq<Range>, gaps': seq<Range>)
    requires Inv(s) && Run(s, ls).Some? && AllUsable(ls)
    requires WorksOnlyOn(s, box, ids) && ClaimsOnly(ls, Run(s, ls).value, box, ids)
    requires AreGaps(s.coverage, box, requested, gaps) && AskFor(Run(s, ls).value, box, ids, gaps)
    requires AreGaps(Run(s, ls).value.coverage, box, requested, gaps')
    requires forall i :: 0 <= i < |ids| ==> Run(s, ls).value.jobs[ids[i]].status.Done?
    ensures gaps' == []
  {
    NextRequest(s, ls, box, requested, ids, gaps, gaps');
    UnsetAll(gaps, Flags(s, Run(s, ls).value, box, gaps));
  }
}
