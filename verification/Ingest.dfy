/** The ingest endpoint in place: one job for every gap of the request, claimed unless someone
    else was faster, with arbitrary other activity between any two of its steps
    (src/heron/api/ingest.py). */
module Ingest {
  import opened Wrappers
  import opened Ranges
  import opened Segments
  import opened Gaps
  import opened Jobs
  import opened Ingestion
  import opened Convergence
  import opened Runner
  import LocalDays
  import StorageText

  const DEFAULT_BATCH_SIZE := 50

  datatype IngestError = MailboxNotFound | InvalidDays(error: LocalDays.RangeError)

  /** The UTC range of the requested local days. */
  function RequestedRange(startDay: int, endDay: int, zone: LocalDays.Zone): (r: Result<Range, LocalDays.RangeError>)
    ensures r.Err? <==> LocalDays.LocalDateRange(startDay, endDay, zone).Err?
    ensures endDay < startDay ==> r == Err(LocalDays.EndDayBeforeStartDay)
    ensures r.Ok? ==> forall t :: r.value.Contains(t) <==>
              StorageText.Instant(zone(startDay)) <= t < StorageText.Instant(zone(endDay + 1))
  {
    match LocalDays.LocalDateRange(startDay, endDay, zone)
    case Err(e) => Err(e)
    case Ok(span) => Ok(DateRange(StorageText.Instant(span.start), StorageText.Instant(span.end)))
  }

  /** What is asked of the server and what is shown for the same days agree: a stored row is found
      by the range query if and only if its instant is in the requested range. */
  lemma {:induction false} RequestedIsShown(rows: seq<LocalDays.Row>, account: nat, startDay: int, endDay: int,
                                            zone: LocalDays.Zone, row: LocalDays.Row, answer: seq<LocalDays.Row>)
    requires RequestedRange(startDay, endDay, zone).Ok? && StorageText.Parse(row.date).Some?
    requires LocalDays.Answers(answer, rows, account, LocalDays.LocalDateRange(startDay, endDay, zone).value)
    ensures row in answer <==>
            && row in rows && row.account == account
            && RequestedRange(startDay, endDay, zone).value.Contains(StorageText.Instant(StorageText.Parse(row.date).value))
  {
    var span := LocalDays.LocalDateRange(startDay, endDay, zone).value;
    LocalDays.MatchesByInstant(rows, account, span, row);
    LocalDays.AnswerMembers(answer, rows, account, span, row);
  }

  // ------------------------------------------------------------------ what others leave alone

  /** Accounts stay, and jobs keep what they ask for. */
  ghost predicate KeepsRequests(s: State, t: State) {
    t.accounts == s.accounts && forall id :: id in s.jobs ==> id in t.jobs && KeepsRequest(s.jobs[id], t.jobs[id])
  }

  lemma {:induction false} StepKeepsRequests(s: State, l: Label)
    requires Enabled(s, l)
    ensures KeepsRequests(s, Apply(s, l))
  {
  }

  lemma {:induction false} RunKeepsRequests(s: State, ls: seq<Label>)
    requires Run(s, ls).Some?
    ensures KeepsRequests(s, Run(s, ls).value)
  {
    if ls != [] {
      var init, l := ls[..|ls| - 1], ls[|ls| - 1];
      RunKeepsRequests(s, init);
      StepKeepsRequests(Run(s, init).value, l);
    }
  }

  lemma {:induction false} SuffixKeepsRequests(start: State, past: seq<Label>, s: State, all: seq<Label>, t: State)
    requires past <= all && Run(start, past) == Some(s) && Run(start, all) == Some(t)
    ensures KeepsRequests(s, t)
  {
    assert all == past + all[|past|..];
    RunConcat(start, past, all[|past|..]);
    RunKeepsRequests(s, all[|past|..]);
  }

  // ------------------------------------------------------------------ one gap

  /** What happened to a job since position `from` of the history: the endpoint claimed it with
      the default batch size, or found it no longer pending. */
  ghost predicate Handled(start: State, trace: seq<Label>, from: nat, id: nat, claimed: bool) {
    exists n :: from <= n <= |trace| && HandledAt(start, trace, n, id, claimed)
  }

  ghost predicate HandledAt(start: State, trace: seq<Label>, n: nat, id: nat, claimed: bool)
    requires n <= |trace|
  {
    && Run(start, trace[..n]).Some? && id in Run(start, trace[..n]).value.jobs
    && (claimed <==> IsPending(Run(start, trace[..n]).value.jobs, id))
    && (claimed ==> n < |trace| && trace[n].Claim? && trace[n].id == id && trace[n].batch == 50)
  }

  lemma {:induction false} HandledLater(start: State, trace: seq<Label>, more: seq<Label>, from: nat, from': nat,
                                        id: nat, claimed: bool)
    requires trace <= more && from' <= from && Handled(start, trace, from, id, claimed)
    ensures Handled(start, more, from', id, claimed)
  {
    var n :| from <= n <= |trace| && HandledAt(start, trace, n, id, claimed);
    assert more[..n] == trace[..n];
    assert HandledAt(start, more, n, id, claimed);
  }

  method CreateAndClaim(worker: Worker, box: Box, gap: Range) returns (id: nat, claimed: bool)
    requires worker.Valid() && box.account in worker.accounts
    modifies worker, worker.emailTable, worker.jobTable, worker.coverageTable
    ensures worker.Valid() && worker.start == old(worker.start) && old(worker.trace) <= worker.trace
    ensures KeepsRequests(old(worker.View()), worker.View())
    ensures id !in old(worker.jobTable.jobs) && id in worker.jobTable.jobs
    ensures worker.jobTable.jobs[id].box == box && worker.jobTable.jobs[id].range == gap
    ensures Handled(worker.start, worker.trace, |old(worker.trace)|, id, claimed)
  {
    ghost var before, past := worker.View(), worker.trace;
    worker.Anyone();
    SuffixKeepsRequests(worker.start, past, before, worker.trace, worker.View());
    id := worker.CreateJob(box, gap);
    ghost var created, history := worker.View(), worker.trace;
    worker.Anyone();
    SuffixKeepsRequests(worker.start, history, created, worker.trace, worker.View());
    ghost var n := |worker.trace|;
    assert worker.trace[..n] == worker.trace;
    var job, _ := worker.ClaimJob(id, DEFAULT_BATCH_SIZE);
    claimed := job.Some?;
    assert HandledAt(worker.start, worker.trace, n, id, claimed);
    SuffixKeepsRequests(worker.start, past, before, worker.trace, worker.View());
  }

  // ------------------------------------------------------------------ the request

  /** The listed ids that are among `keep`, in order. */
  function Only(ids: seq<nat>, keep: seq<nat>): seq<nat> {
    if ids == [] then [] else
    Only(ids[..|ids| - 1], keep) + if ids[|ids| - 1] in keep then [ids[|ids| - 1]] else []
  }

  lemma {:induction false} OnlyIgnores(ids: seq<nat>, keep: seq<nat>, id: nat)
    requires id !in ids
    ensures Only(ids, keep + [id]) == Only(ids, keep)
  {
    if ids != [] { OnlyIgnores(ids[..|ids| - 1], keep, id); }
  }

  lemma {:induction false} OnlyOneMore(ids: seq<nat>, keep: seq<nat>, id: nat, kept: bool)
    requires id !in ids && id !in keep && keep == Only(ids, keep)
    ensures var keep' := if kept then keep + [id] else keep; keep' == Only(ids + [id], keep')
  {
    assert (ids + [id])[..|ids|] == ids;
    OnlyIgnores(ids, keep, id);
    assert keep + [] == keep;
  }

  /** The jobs of the gaps: one each, new since `before`, distinct, asking for exactly that gap. */
  ghost predicate NewJobs(before: Table, s: State, box: Box, gaps: seq<Range>, ids: seq<nat>) {
    && AskFor(s, box, ids, gaps)
    && (forall i :: 0 <= i < |ids| ==> ids[i] !in before)
    && forall i, j :: 0 <= i < j < |ids| ==> ids[i] != ids[j]
  }

  /** Each job was claimed by the endpoint exactly if `claimed` lists it; the list keeps the order. */
  ghost predicate AllHandled(start: State, trace: seq<Label>, from: nat, ids: seq<nat>, claimed: seq<nat>) {
    && (forall i :: 0 <= i < |ids| ==> Handled(start, trace, from, ids[i], ids[i] in claimed))
    && claimed == Only(ids, claimed) && forall id :: id in claimed ==> id in ids
  }

  lemma {:induction false} OneMoreJob(before: Table, s: State, t: State, box: Box, gaps: seq<Range>, ids: seq<nat>,
                                      gap: Range, id: nat)
    requires NewJobs(before, s, box, gaps, ids) && KeepsRequests(s, t) && before.Keys <= s.jobs.Keys
    requires id !in s.jobs && id in t.jobs && t.jobs[id].box == box && t.jobs[id].range == gap
    ensures id !in ids && NewJobs(before, t, box, gaps + [gap], ids + [id])
  {
  }

  lemma {:induction false} OneMoreHandled(start: State, past: seq<Label>, trace: seq<Label>, from: nat, ids: seq<nat>,
                                          claimed: seq<nat>, id: nat, kept: bool)
    requires AllHandled(start, past, from, ids, claimed) && past <= trace && from <= |past| && id !in ids
    requires Handled(start, trace, |past|, id, kept)
    ensures AllHandled(start, trace, from, ids + [id], if kept then claimed + [id] else claimed)
  {
    OnlyOneMore(ids, claimed, id, kept);
    var claimed' := if kept then claimed + [id] else claimed;
    assert id !in claimed;
    forall i | 0 <= i < |ids + [id]| ensures Handled(start, trace, from, (ids + [id])[i], (ids + [id])[i] in claimed') {
      HandledOne(start, past, trace, from, ids, claimed, claimed', id, kept, i);
    }
  }

  lemma {:induction false} HandledOne(start: State, past: seq<Label>, trace: seq<Label>, from: nat, ids: seq<nat>,
                                      claimed: seq<nat>, claimed': seq<nat>, id: nat, kept: bool, i: nat)
    requires AllHandled(start, past, from, ids, claimed) && past <= trace && from <= |past| && id !in ids
    requires Handled(start, trace, |past|, id, kept) && id !in claimed
    requires claimed' == (if kept then claimed + [id] else claimed) && i <= |ids|
    ensures Handled(start, trace, from, (ids + [id])[i], (ids + [id])[i] in claimed')
  {
    if i < |ids| {
      HandledLater(start, past, trace, from, from, ids[i], ids[i] in claimed);
      assert ids[i] in claimed' <==> ids[i] in claimed;
    } else {
      HandledLater(start, trace, trace, |past|, from, id, kept);
    }
  }

  /** Answers 404 for an unknown mailbox and 422 for days without a range. Otherwise every gap of
      the request, as the coverage table has it at the start, gets a new job for exactly that gap,
      and the response lists those that the endpoint itself could claim. */
  method IngestRange(worker: Worker, box: Box, startDay: int, endDay: int, zone: LocalDays.Zone)
    returns (response: Result<(nat, seq<nat>), IngestError>, ghost gaps: seq<Range>, ghost ids: seq<nat>)
    requires worker.Valid()
    modifies worker, worker.emailTable, worker.jobTable, worker.coverageTable
    ensures worker.Valid() && worker.start == old(worker.start) && old(worker.trace) <= worker.trace
    ensures response == Err(MailboxNotFound) <==> box.account !in old(worker.accounts)
    ensures box.account in old(worker.accounts) ==> response.Err? == RequestedRange(startDay, endDay, zone).Err?
    ensures response.Err? ==> worker.trace == old(worker.trace)
    ensures response.Ok? ==>
              && RequestedRange(startDay, endDay, zone).Ok?
              && AreGaps(old(worker.coverageTable.Segments()), box, RequestedRange(startDay, endDay, zone).value, gaps)
              && (forall t :: InRanges(gaps, t) <==>
                    && StorageText.Instant(zone(startDay)) <= t < StorageText.Instant(zone(endDay + 1))
                    && !Covers(old(worker.coverageTable.Segments()), box, t))
              && response.value.0 == |gaps|
              && NewJobs(old(worker.jobTable.jobs), worker.View(), box, gaps, ids)
              && AllHandled(worker.start, worker.trace, |old(worker.trace)|, ids, response.value.1)
  {
    gaps, ids := [], [];
    if box.account !in worker.accounts {
      return Err(MailboxNotFound), gaps, ids;
    }
    var requested := RequestedRange(startDay, endDay, zone);
    if requested.Err? {
      return Err(InvalidDays(requested.error)), gaps, ids;
    }
    var found := worker.coverageTable.GetGaps(box, requested.value);
    gaps := found;
    var claimed;
    claimed, ids := CreateAll(worker, box, found);
    response := Ok((|found|, claimed));
  }

  method CreateAll(worker: Worker, box: Box, found: seq<Range>) returns (claimed: seq<nat>, ghost ids: seq<nat>)
    requires worker.Valid() && box.account in worker.accounts
    modifies worker, worker.emailTable, worker.jobTable, worker.coverageTable
    ensures worker.Valid() && worker.start == old(worker.start) && old(worker.trace) <= worker.trace
    ensures NewJobs(old(worker.jobTable.jobs), worker.View(), box, found, ids)
    ensures AllHandled(worker.start, worker.trace, |old(worker.trace)|, ids, claimed)
  {
    claimed, ids := [], [];
    ghost var before, from := worker.View(), |worker.trace|;
    var i := 0;
    while i < |found|
      invariant 0 <= i <= |found|
      invariant worker.Valid() && worker.start == old(worker.start) && old(worker.trace) <= worker.trace
      invariant Created(before, worker.View(), worker.start, worker.trace, from, box, found[..i], ids, claimed)
    {
      ghost var s, past := worker.View(), worker.trace;
      var id, mine := CreateAndClaim(worker, box, found[i]);
      OneMoreCreated(before, s, worker.View(), worker.start, past, worker.trace, from, box, found, i, ids, claimed,
                     id, mine);
      ids := ids + [id];
      if mine {
        claimed := claimed + [id];
      }
      i := i + 1;
    }
    assert found[..i] == found;
  }

  /** Where the loop over the gaps stands. */
  ghost predicate Created(before: State, s: State, start: State, trace: seq<Label>, from: nat, box: Box,
                          gaps: seq<Range>, ids: seq<nat>, claimed: seq<nat>)
  {
    && from <= |trace| && KeepsRequests(before, s)
    && NewJobs(before.jobs, s, box, gaps, ids) && AllHandled(start, trace, from, ids, claimed)
  }

  lemma {:induction false} OneMoreCreated(before: State, s: State, t: State, start: State, past: seq<Label>,
                                          trace: seq<Label>, from: nat, box: Box, found: seq<Range>, i: nat,
                                          ids: seq<nat>, claimed: seq<nat>, id: nat, kept: bool)
    requires i < |found| && Created(before, s, start, past, from, box, found[..i], ids, claimed)
    requires KeepsRequests(s, t) && past <= trace && Handled(start, trace, |past|, id, kept)
    requires id !in s.jobs && id in t.jobs && t.jobs[id].box == box && t.jobs[id].range == found[i]
    ensures Created(before, t, start, trace, from, box, found[..i + 1], ids + [id],
                    if kept then claimed + [id] else claimed)
  {
    KeepsTransitive(before, s, t);
    OneMoreJob(before.jobs, s, t, box, found[..i], ids, found[i], id);
    OneMoreHandled(start, past, trace, from, ids, claimed, id, kept);
    assert found[..i] + [found[i]] == found[..i + 1];
  }

  lemma {:induction false} KeepsTransitive(a: State, b: State, c: State)
    requires KeepsRequests(a, b) && KeepsRequests(b, c)
    ensures KeepsRequests(a, c)
  {
  }
}
