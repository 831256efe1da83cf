/** What holds over every run of the ingestion protocol: coverage never lies, jobs are claimed
    once per retry, and interrupted jobs resume to the same result as a one-shot fetch. */
module IngestionRuns {
  import opened Wrappers
  import opened Ranges
  import opened Segments
  import opened Jobs
  import opened Ingestion
  import opened CoverageSafety

  // ------------------------------------------------------------------ every reachable state

  /** An empty vault beside any mail server. */
  ghost predicate Fresh(s: State) {
    VaultOk(s) && s.emails == map[] && s.jobs == map[] && s.coverage == {} && s.runners == map[] && s.log == []
  }

  ghost predicate AllUsable(ls: seq<Label>) {
    forall l :: l in ls ==> Usable(l)
  }

  lemma {:induction false} ExtendsTransitive(a: State, b: State, c: State)
    requires Extends(a, b) && Extends(b, c)
    ensures Extends(a, c)
  {
    forall box | box in a.boxes ensures MailboxExtends(a.boxes[box], c.boxes[box]) {
      assert MailboxExtends(a.boxes[box], b.boxes[box]) && MailboxExtends(b.boxes[box], c.boxes[box]);
    }
  }

  lemma {:induction false} InvRun(s: State, ls: seq<Label>)
    requires Inv(s) && Run(s, ls).Some? && AllUsable(ls)
    ensures Inv(Run(s, ls).value) && Extends(s, Run(s, ls).value)
  {
    if ls != [] {
      var init, l := ls[..|ls| - 1], ls[|ls| - 1];
      InvRun(s, init);
      InvStep(Run(s, init).value, l);
      ExtendsTransitive(s, Run(s, init).value, Run(s, ls).value);
    }
  }

  /** Everything in the recorded range that the folder held at that run's search and still
      holds is in the vault, for every message dated in a tolerated zone. */
  ghost predicate Truthful(s: State, e: Recording) {
    && e.box in s.boxes
    && forall u: Uid :: s.boxes[e.box].Live(u) && u < e.horizon
                        && e.range.Contains(s.boxes[e.box].ever[u].instant)
                        && ZoneTolerated(e.range, s.boxes[e.box].ever[u].zone) ==>
         Stored(s, e.box, u)
  }

  /** Coverage never lies: in every run over arrivals, expunges, failures, restarts, retries
      and any number of interleaved runners, each covered instant lies in a recorded range
      whose messages are in the vault. */
  lemma {:induction false} CoverageNeverLies(s: State, ls: seq<Label>, box: Box, t: int)
    requires Fresh(s) && Run(s, ls).Some? && AllUsable(ls)
    requires Covers(Run(s, ls).value.coverage, box, t)
    ensures var end := Run(s, ls).value;
            exists e :: e in end.log && e.box == box && e.range.Contains(t) && Truthful(end, e)
  {
    var end := Run(s, ls).value;
    FreshInv(s);
    InvRun(s, ls);
    var e :| e in end.log && e.box == box && e.range.Contains(t);
    var i :| 0 <= i < |end.log| && end.log[i] == e;
    assert Settled(end, e.box, e.range, e.horizon);
    forall u: Uid | end.boxes[box].Live(u) && u < e.horizon
                    && e.range.Contains(end.boxes[box].ever[u].instant) && ZoneTolerated(e.range, end.boxes[box].ever[u].zone)
      ensures Stored(end, box, u)
    {
      SearchFindsInRange(e.range, end.boxes[box].ever[u].instant, end.boxes[box].ever[u].zone);
    }
  }

  lemma {:induction false} FreshInv(s: State)
    requires Fresh(s)
    ensures Inv(s)
  {
  }

  /** A finished job's whole range is covered, and coverage never shrinks. */
  lemma {:induction false} DoneIsCovered(s: State, ls: seq<Label>, id: nat, t: int)
    requires Inv(s) && Run(s, ls).Some? && AllUsable(ls)
    requires id in s.jobs && s.jobs[id].status.Done? && s.jobs[id].range.Contains(t)
    ensures Covers(Run(s, ls).value.coverage, s.jobs[id].box, t)
  {
    var job, end := s.jobs[id], Run(s, ls).value;
    InvRun(s, ls);
    assert JobOk(s, job);
    var i :| 0 <= i < |s.log| && s.log[i].box == job.box && s.log[i].range == job.range;
    assert end.log[i] == s.log[i];
    assert end.log[i] in end.log;
    assert Recorded(end.log, job.box, t);
  }

  // ------------------------------------------------------------------ where the promise ends

  const INBOX := Box(1, "INBOX")

  function EmptyState(): State {
    State({1}, map[INBOX := Mailbox(7, map[], {}, 1)], map[], map[], {}, map[], [])
  }

  /** One message arrives, one job for the range is created, claimed, and finds nothing. */
  function MissingRun(range: Range, m: Message): seq<Label> {
    [Append(INBOX, 1, m), Create(0, INBOX, range), Claim(0, 0, 50), Search(0, []), Record(0), Complete(0)]
  }

  /** The end of that run: the message is on the server, the range is covered, the vault is empty. */
  ghost function MissingEnd(range: Range, m: Message): State {
    State({1}, map[INBOX := Mailbox(7, map[1 := m], {}, 2)], map[],
          map[0 := Job(INBOX, range, Done, None, None)], Merge({}, Segment(INBOX, range)),
          map[], [Recording(INBOX, range, 2)])
  }

  /** For every range and every zone that is not tolerated there is a run that ends with the
      range covered and a message of that range on the server but not in the vault. */
  lemma {:induction false} FarZoneLies(range: Range, zone: int)
    requires !ZoneTolerated(range, zone)
    ensures exists m: Message ::
              && m.zone == zone && range.Contains(m.instant)
              && AllUsable(MissingRun(range, m))
              && Run(EmptyState(), MissingRun(range, m)) == Some(MissingEnd(range, m))
              && MissingEnd(range, m).boxes[INBOX].Live(1) && !Stored(MissingEnd(range, m), INBOX, 1)
              && (forall t :: range.Contains(t) ==> Covers(MissingEnd(range, m).coverage, INBOX, t))
  {
    SearchCompleteIff(range, zone);
    var t :| range.Contains(t) && !SearchMatches(range, t, zone);
    var m := Message(t, zone, "");
    MissingRunEnds(range, m);
    forall i | range.Contains(i) ensures Covers(MissingEnd(range, m).coverage, INBOX, i) {
      MergePoints({}, Segment(INBOX, range), INBOX, i);
    }
  }

  ghost function MissingClaimable(range: Range, m: Message): State {
    EmptyState().(boxes := map[INBOX := Mailbox(7, map[1 := m], {}, 2)],
                  jobs := map[0 := Job(INBOX, range, Pending, None, None)])
  }

  ghost function MissingSearched(range: Range, m: Message): State {
    MissingClaimable(range, m).(jobs := map[0 := Job(INBOX, range, Running, None, None)],
                                runners := map[0 := Runner(0, INBOX, range, None, 50, 7, 2, Walking([]))])
  }

  lemma {:induction false} MissingRunEnds(range: Range, m: Message)
    requires !SearchMatches(range, m.instant, m.zone)
    ensures Run(EmptyState(), MissingRun(range, m)) == Some(MissingEnd(range, m))
  {
    MissingArrives(range, m);
    MissingSearches(range, m);
    MissingRecords(range, m);
    RunThreePairs(EmptyState(), MissingClaimable(range, m), MissingSearched(range, m), MissingEnd(range, m), MissingRun(range, m));
  }

  lemma {:induction false} RunThreePairs(s: State, s2: State, s4: State, end: State, ls: seq<Label>)
    requires |ls| == 6
    requires Run(s, [ls[0], ls[1]]) == Some(s2) && Run(s2, [ls[2], ls[3]]) == Some(s4) && Run(s4, [ls[4], ls[5]]) == Some(end)
    ensures Run(s, ls) == Some(end)
  {
    assert ls == [ls[0], ls[1]] + [ls[2], ls[3]] + [ls[4], ls[5]];
    RunThrice(s, [ls[0], ls[1]], s2, [ls[2], ls[3]], s4, [ls[4], ls[5]], end);
  }

  lemma {:induction false} RunThrice(s: State, first: seq<Label>, s2: State, second: seq<Label>, s4: State,
                                     third: seq<Label>, end: State)
    requires Run(s, first) == Some(s2) && Run(s2, second) == Some(s4) && Run(s4, third) == Some(end)
    ensures Run(s, first + second + third) == Some(end)
  {
    RunConcat(s, first, second);
    RunConcat(s, first + second, third);
  }

  lemma {:induction false} MissingArrives(range: Range, m: Message)
    ensures Run(EmptyState(), [Append(INBOX, 1, m), Create(0, INBOX, range)]) == Some(MissingClaimable(range, m))
  {
    var s1 := EmptyState().(boxes := map[INBOX := Mailbox(7, map[1 := m], {}, 2)]);
    assert Apply(EmptyState(), Append(INBOX, 1, m)) == s1;
    RunTwo(EmptyState(), Append(INBOX, 1, m), s1, Create(0, INBOX, range), MissingClaimable(range, m));
  }

  lemma {:induction false} MissingSearches(range: Range, m: Message)
    requires !SearchMatches(range, m.instant, m.zone)
    ensures Run(MissingClaimable(range, m), [Claim(0, 0, 50), Search(0, [])]) == Some(MissingSearched(range, m))
  {
    var s2 := MissingClaimable(range, m);
    var s3 := s2.(jobs := map[0 := Job(INBOX, range, Running, None, None)],
                  runners := map[0 := Runner(0, INBOX, range, None, 50, 0, 0, Started)]);
    assert Apply(s2, Claim(0, 0, 50)) == s3;
    assert IsSearchResult(s3.boxes[INBOX], range, None, []);
    assert Apply(s3, Search(0, [])) == MissingSearched(range, m);
    RunTwo(s2, Claim(0, 0, 50), s3, Search(0, []), MissingSearched(range, m));
  }

  lemma {:induction false} MissingRecords(range: Range, m: Message)
    ensures Run(MissingSearched(range, m), [Record(0), Complete(0)]) == Some(MissingEnd(range, m))
  {
    var s4 := MissingSearched(range, m);
    var s5 := Apply(s4, Record(0));
    assert s5.runners[0].phase == Finished;
    assert Apply(s5, Complete(0)) == MissingEnd(range, m);
    RunTwo(s4, Record(0), s5, Complete(0), MissingEnd(range, m));
  }

  lemma {:induction false} RunTwo(s: State, a: Label, mid: State, b: Label, end: State)
    requires Enabled(s, a) && Apply(s, a) == mid && Enabled(mid, b) && Apply(mid, b) == end
    ensures Run(s, [a, b]) == Some(end)
  {
    RunStep(s, [], a);
    assert [] + [a] == [a];
    RunStep(s, [a], b);
    assert [a] + [b] == [a, b];
  }

  /** A negative batch size records the range as covered without storing anything, from any
      state in which the job's search can be answered. */
  lemma {:induction false} NegativeBatchLies(s: State, rid: nat, uids: seq<Uid>)
    requires Enabled(s, Search(rid, uids)) && s.runners[rid].batch < 0 && s.runners[rid].job in s.jobs
    ensures var ls := [Search(rid, uids), Record(rid), Complete(rid)];
            && Run(s, ls).Some?
            && Run(s, ls).value.emails == s.emails && Run(s, ls).value.boxes == s.boxes
            && Run(s, ls).value.jobs == Completed(s.jobs, s.runners[rid].job)
            && forall t :: s.runners[rid].range.Contains(t) ==> Covers(Run(s, ls).value.coverage, s.runners[rid].box, t)
  {
    var a, b, c := Search(rid, uids), Record(rid), Complete(rid);
    var r := s.runners[rid];
    RunStep(s, [], a);
    RunStep(s, [a], b);
    RunStep(s, [a, b], c);
    assert [] + [a] == [a] && [a] + [b] == [a, b] && [a, b] + [c] == [a, b, c];
    forall t | r.range.Contains(t) ensures Covers(Run(s, [a, b, c]).value.coverage, r.box, t) {
      MergePoints(s.coverage, Segment(r.box, r.range), r.box, t);
    }
  }

  /** One message arrives, one job for the range is created and claimed with this batch size; the
      search finds whatever matches. */
  function NegativeRun(range: Range, m: Message, batch: int): seq<Label> {
    [Append(INBOX, 1, m), Create(0, INBOX, range)] + [Claim(0, 0, batch)]
    + [Search(0, if SearchMatches(range, m.instant, m.zone) then [1] else []), Record(0), Complete(0)]
  }

  /** So for every range, every message of it, in whatever zone, and every negative batch size
      there is a run from an empty vault that ends with the job done, the range covered, and the
      message on the server but not in the vault. */
  lemma {:induction false} NegativeBatchMisses(range: Range, m: Message, batch: int)
    requires range.Contains(m.instant) && batch < 0
    ensures Fresh(EmptyState()) && Run(EmptyState(), NegativeRun(range, m, batch)).Some?
    ensures var end := Run(EmptyState(), NegativeRun(range, m, batch)).value;
            && 0 in end.jobs && end.jobs[0].status.Done? && end.jobs[0].range == range
            && (forall t :: range.Contains(t) ==> Covers(end.coverage, INBOX, t))
            && INBOX in end.boxes && end.boxes[INBOX].Live(1) && end.boxes[INBOX].ever[1] == m && !Stored(end, INBOX, 1)
  {
    var uids := if SearchMatches(range, m.instant, m.zone) then [1] else [];
    var created, claimed := MissingClaimable(range, m), NegativeClaimed(range, m, batch);
    var first, rest := [Append(INBOX, 1, m), Create(0, INBOX, range)], [Search(0, uids), Record(0), Complete(0)];
    MissingArrives(range, m);
    RunStep(EmptyState(), first, Claim(0, 0, batch));
    assert Apply(created, Claim(0, 0, batch)) == claimed;
    assert IsSearchResult(claimed.boxes[INBOX], range, None, uids);
    NegativeBatchLies(claimed, 0, uids);
    RunConcat(EmptyState(), first + [Claim(0, 0, batch)], rest);
  }

  ghost function NegativeClaimed(range: Range, m: Message, batch: int): State {
    MissingClaimable(range, m).(jobs := map[0 := Job(INBOX, range, Running, None, None)],
                                runners := map[0 := Runner(0, INBOX, range, None, batch, 0, 0, Started)])
  }

  // ------------------------------------------------------------------ the job lifecycle

  /** Between two claims of one job lies a retry of it, whatever else happens. */
  lemma {:induction false} RetryBetweenClaims(s: State, ls: seq<Label>, i: nat, k: nat, id: nat)
    requires Run(s, ls).Some? && i < k < |ls|
    requires ls[i].Claim? && ls[i].id == id && ls[k].Claim? && ls[k].id == id
    ensures exists j :: i < j < k && ls[j] == Retry(id)
  {
    if forall j :: i < j < k ==> ls[j] != Retry(id) {
      NotPendingAgain(s, ls, i, k, id);
      RunPrefix(s, ls, k);
      assert false;
    }
  }

  lemma {:induction false} NotPendingAgain(s: State, ls: seq<Label>, i: nat, k: nat, id: nat)
    requires Run(s, ls).Some? && i < k <= |ls| && ls[i].Claim? && ls[i].id == id
    requires forall j :: i < j < k ==> ls[j] != Retry(id)
    ensures Run(s, ls[..k]).Some?
    ensures id in Run(s, ls[..k]).value.jobs && !IsPending(Run(s, ls[..k]).value.jobs, id)
    decreases k
  {
    RunPrefix(s, ls, k - 1);
    var before, l := Run(s, ls[..k - 1]).value, ls[k - 1];
    if k > i + 1 {
      NotPendingAgain(s, ls, i, k - 1, id);
      assert l != Retry(id);
    }
    OnlyRetryMakesPending(before, l, id);
  }

  /** A claim takes a job out of the queue, and only a retry of it puts it back. */
  lemma {:induction false} OnlyRetryMakesPending(s: State, l: Label, id: nat)
    requires Enabled(s, l) && id in s.jobs && l != Retry(id)
    requires !IsPending(s.jobs, id) || (l.Claim? && l.id == id)
    ensures id in Apply(s, l).jobs && !IsPending(Apply(s, l).jobs, id)
  {
  }

  /** No two runners work on the same job, and a job that is being worked on is not pending. */
  ghost predicate Exclusive(s: State) {
    && (forall a, b :: a in s.runners && b in s.runners && a != b ==> s.runners[a].job != s.runners[b].job)
    && forall a :: a in s.runners ==> s.runners[a].job in s.jobs && !IsPending(s.jobs, s.runners[a].job)
  }

  /** The runner `a` works on job `id`. */
  predicate WorksOn(s: State, a: nat, id: nat) {
    a in s.runners && s.runners[a].job == id
  }

  /** Exclusiveness survives every step except one: retrying a job whose runner is alive.
      `retry_job` does not test for that, so its callers must. */
  lemma {:induction false} ExclusiveIff(s: State, l: Label)
    requires Exclusive(s) && Enabled(s, l)
    ensures Exclusive(Apply(s, l)) <==> !(l.Retry? && exists a :: WorksOn(s, a, l.id))
  {
    if l.Retry? {
      RetryExclusive(s, l.id);
    } else {
      OtherStepsExclusive(s, l);
    }
  }

  lemma {:induction false} RetryExclusive(s: State, id: nat)
    requires Exclusive(s)
    ensures Exclusive(Apply(s, Retry(id))) <==> !exists a :: WorksOn(s, a, id)
  {
    var t := Apply(s, Retry(id));
    if a :| WorksOn(s, a, id) {
      assert IsPending(t.jobs, t.runners[a].job);
    } else {
      forall a | a in t.runners ensures !IsPending(t.jobs, t.runners[a].job) {
        assert !WorksOn(s, a, id);
      }
    }
  }

  lemma {:induction false} OtherStepsExclusive(s: State, l: Label)
    requires Exclusive(s) && Enabled(s, l) && !l.Retry?
    ensures Exclusive(Apply(s, l))
  {
    var t := Apply(s, l);
    forall a | a in t.runners
      ensures t.runners[a].job in t.jobs && !IsPending(t.jobs, t.runners[a].job)
      ensures a in s.runners ==> t.runners[a].job == s.runners[a].job
    {
      if a in s.runners { OnlyRetryMakesPending(s, l, s.runners[a].job); }
    }
  }
}
