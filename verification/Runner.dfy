/** `run_job` in place: batches, checkpoints and early exits, with arbitrary other activity
    between any two of its steps (src/heron/worker/runner.py). */
module Runner {
  import opened Wrappers
  import opened Ranges
  import opened Segments
  import opened Sorting
  import opened Jobs
  import opened Coverage
  import opened Ingestion
  import opened CrashResume
  import opened Collector
  import Completion

  /** A step that the runner `rid` does not take. */
  predicate NotBy(l: Label, rid: nat) {
    match l
    case Search(r, _) => r != rid
    case Fetch(r) => r != rid
    case Store(r) => r != rid
    case Checkpoint(r) => r != rid
    case Record(r) => r != rid
    case Complete(r) => r != rid
    case Fail(r, _) => r != rid
    case Die(r) => r != rid
    case _ => true
  }

  /** Whatever the others do, the runner, the accounts, the folders and the job rows stay. */
  ghost predicate Undisturbed(s: State, t: State, rid: nat) {
    && rid in s.runners && rid in t.runners && t.runners[rid] == s.runners[rid]
    && t.accounts == s.accounts && t.boxes.Keys == s.boxes.Keys
    && s.jobs.Keys <= t.jobs.Keys
  }

  lemma {:induction false} OthersLeave(s: State, ls: seq<Label>, rid: nat)
    requires rid in s.runners && Run(s, ls).Some? && forall l :: l in ls ==> NotBy(l, rid)
    ensures Undisturbed(s, Run(s, ls).value, rid)
  {
    if ls != [] {
      var init := ls[..|ls| - 1];
      OthersLeave(s, init, rid);
      OneOtherLeaves(Run(s, init).value, ls[|ls| - 1], rid);
    }
  }

  lemma {:induction false} OneOtherLeaves(s: State, l: Label, rid: nat)
    requires rid in s.runners && Enabled(s, l) && NotBy(l, rid)
    ensures Undisturbed(s, Apply(s, l), rid)
  {
  }

  /** The UIDs above the checkpoint. */
  function Above(uids: seq<Uid>, checkpoint: Uid): (r: seq<Uid>)
    ensures forall u :: u in r <==> u in uids && u > checkpoint
  {
    if uids == [] then [] else (if uids[0] > checkpoint then [uids[0]] else []) + Above(uids[1..], checkpoint)
  }

  lemma {:induction false} AboveAscending(uids: seq<Uid>, checkpoint: Uid)
    requires Ascending(uids)
    ensures Ascending(Above(uids, checkpoint))
  {
    if uids != [] {
      AboveAscending(uids[1..], checkpoint);
      var rest := Above(uids[1..], checkpoint);
      forall j | 0 <= j < |rest| ensures uids[0] < rest[j] {
        assert rest[j] in rest && rest[j] in uids[1..];
      }
    }
  }

  function Itself(u: Uid): int {
    u
  }

  /** Sorting distinct UIDs makes them strictly ascending. */
  lemma {:induction false} SortAscending(uids: seq<Uid>)
    requires forall i, j :: 0 <= i < j < |uids| ==> uids[i] != uids[j]
    ensures Ascending(SortBy(uids, Itself))
  {
    var sorted := SortBy(uids, Itself);
    SortSorted(uids, Itself);
    forall i, j | 0 <= i < j < |sorted| ensures sorted[i] < sorted[j] {
      assert Itself(sorted[i]) <= Itself(sorted[j]);
      if sorted[i] == sorted[j] {
        TwiceCounted(sorted, i, j);
        OnceCounted(uids, sorted[i]);
      }
    }
  }

  lemma {:induction false} TwiceCounted(s: seq<Uid>, i: nat, j: nat)
    requires i < j < |s| && s[i] == s[j]
    ensures multiset(s)[s[i]] >= 2
  {
    assert s == s[..j] + [s[j]] + s[j + 1..];
    assert s[i] in s[..j];
    assert s[i] in multiset(s[..j]);
  }

  lemma {:induction false} OnceCounted(s: seq<Uid>, u: Uid)
    requires forall i, j :: 0 <= i < j < |s| ==> s[i] != s[j]
    ensures multiset(s)[u] <= 1
  {
    if s != [] {
      var init, last := s[..|s| - 1], s[|s| - 1];
      assert s == init + [last];
      OnceCounted(init, u);
      assert last !in init;
      assert last !in multiset(init);
    }
  }

  /** The server lists the matching messages in some order. */
  method Answer(mailbox: Mailbox, range: Range) returns (answer: seq<Uid>)
    ensures forall u :: u in answer <==> u in Found(mailbox, range)
    ensures forall i, j :: 0 <= i < j < |answer| ==> answer[i] != answer[j]
  {
    answer := [];
    var todo := Found(mailbox, range);
    while todo != {}
      invariant todo <= Found(mailbox, range)
      invariant forall u :: u in answer <==> u in Found(mailbox, range) && u !in todo
      invariant forall i, j :: 0 <= i < j < |answer| ==> answer[i] != answer[j]
      decreases |todo|
    {
      var u: Uid :| u in todo;
      answer, todo := answer + [u], todo - {u};
    }
  }

  lemma {:induction false} UnusedRunner(used: set<nat>) returns (rid: nat)
    ensures rid !in used
  {
    rid := 0;
    if used != {} {
      var m := Completion.Greatest(used);
      rid := m + 1;
    }
  }

  /** How a stretch of the job ended: still going, marked failed, or with an exception that
      nothing caught, which leaves the job row as it is. */
  datatype Progress = Going | MarkedFailed | Escaped

  datatype JobOutcome = JobDone | JobFailed | JobEscaped

  class Worker {
    // The mail server, which changes on its own.
    var accounts: set<nat>
    var boxes: map<Box, Mailbox>
    // The vault.
    const emailTable: EmailTable
    const jobTable: JobTable
    const coverageTable: CoverageTable
    // Every live runner, what was recorded, and the history since `start`.
    ghost var runners: map<nat, Runner>
    ghost var log: seq<Recording>
    ghost var start: State
    ghost var trace: seq<Label>
    // The runners for which something raised an exception.
    ghost var raised: set<nat>

    ghost function View(): State
      reads this, emailTable, jobTable, coverageTable
    {
      State(accounts, boxes, emailTable.emails, jobTable.jobs, coverageTable.Segments(), runners, log)
    }

    /** The tables are consistent, and the history is a run of the protocol. */
    ghost predicate Valid()
      reads this, emailTable, jobTable, coverageTable
    {
      jobTable.Valid() && coverageTable.Valid() && Run(start, trace) == Some(View())
    }

    /** An empty vault beside a mail server. */
    constructor (accounts: set<nat>, boxes: map<Box, Mailbox>)
      ensures Valid() && trace == [] && start == View()
      ensures View() == State(accounts, boxes, map[], map[], {}, map[], [])
    {
      this.accounts, this.boxes := accounts, boxes;
      emailTable := new EmailTable();
      jobTable := new JobTable();
      coverageTable := new CoverageTable();
      runners, log, trace, raised := map[], [], [], {};
      start := State(accounts, boxes, map[], map[], {}, map[], []);
    }

    /** The runner executes `job` with this folder's UIDVALIDITY and stands at `phase`. */
    ghost predicate At(rid: nat, id: nat, job: Job, batchSize: int, validity: nat, phase: Phase)
      reads this, jobTable
    {
      && rid in runners && id in jobTable.jobs && job.box in boxes
      && var r := runners[rid];
      && r.job == id && r.box == job.box && r.range == job.range && r.batch == batchSize
      && r.validity == validity && r.phase == phase
    }

    /** The runner is gone and its job is marked failed. */
    ghost predicate GaveUp(rid: nat, id: nat)
      reads this, jobTable
    {
      rid !in runners && id in jobTable.jobs && jobTable.jobs[id].status.Failed? && jobTable.jobs[id].error.Some?
    }

    /** The runner is gone without having touched its job once more. */
    ghost predicate Lost(rid: nat)
      reads this
    {
      rid !in runners && trace != [] && trace[|trace| - 1] == Die(rid)
    }

    /** Anything that others may do in between: arrivals, expunges, other runners, requests,
        retries, recovery. Callers know nothing but that it is a run without `rid`. */
    method Others(ghost rid: nat)
      requires Valid()
      modifies this, emailTable, jobTable, coverageTable
      ensures Valid() && start == old(start) && old(trace) <= trace
      ensures forall l :: l in trace[|old(trace)|..] ==> NotBy(l, rid)
      ensures rid in raised <==> rid in old(raised)
    {
    }

    method Interleave(ghost rid: nat)
      requires Valid() && rid in runners
      modifies this, emailTable, jobTable, coverageTable
      ensures Valid() && start == old(start)
      ensures rid in runners && runners[rid] == old(runners)[rid]
      ensures accounts == old(accounts) && boxes.Keys == old(boxes).Keys && old(jobTable.jobs).Keys <= jobTable.jobs.Keys
      ensures rid in raised <==> rid in old(raised)
    {
      ghost var before, past := View(), trace;
      Others(rid);
      ghost var others := trace[|past|..];
      assert trace == past + others;
      RunConcat(start, past, others);
      OthersLeave(before, others, rid);
    }

    /** The same, after which a statement outside the `try` may raise. */
    method InterleaveOrEscape(ghost rid: nat) returns (ok: bool)
      requires Valid() && rid in runners
      modifies this, emailTable, jobTable, coverageTable
      ensures Valid() && start == old(start)
      ensures accounts == old(accounts) && boxes.Keys == old(boxes).Keys && old(jobTable.jobs).Keys <= jobTable.jobs.Keys
      ensures ok ==> rid in runners && runners[rid] == old(runners)[rid] && (rid in raised <==> rid in old(raised))
      ensures !ok ==> Lost(rid) && rid in raised
    {
      Interleave(rid);
      ok := *;
      if !ok {
        raised := raised + {rid};
        Escape(rid);
      }
    }

    /** The same, after which a statement inside the `try` may raise; then the job is marked failed. */
    method InterleaveOrFail(ghost rid: nat, id: nat, reason: string) returns (p: Progress)
      requires Valid() && rid in runners && runners[rid].job == id && id in jobTable.jobs && !runners[rid].phase.Finished?
      modifies this, emailTable, jobTable, coverageTable
      ensures Valid() && start == old(start)
      ensures accounts == old(accounts) && boxes.Keys == old(boxes).Keys
      ensures p.Going? ==> rid in runners && runners[rid] == old(runners)[rid] && id in jobTable.jobs
      ensures p.MarkedFailed? ==> GaveUp(rid, id)
      ensures p.Escaped? ==> Lost(rid)
      ensures if p.Going? then rid in raised <==> rid in old(raised) else rid in raised
    {
      Interleave(rid);
      var ok := *;
      p := Going;
      if !ok {
        raised := raised + {rid};
        p := FailJob(rid, id, reason);
      }
    }

    method Escape(ghost rid: nat)
      requires Valid() && rid in runners
      modifies this`runners, this`trace
      ensures Valid() && trace == old(trace) + [Die(rid)] && Lost(rid)
    {
      ghost var before, l := View(), Die(rid);
      RunStep(start, trace, l);
      runners, trace := Apply(before, l).runners, trace + [l];
    }

    // ------------------------------------------------------------------ requests

    /** Anything at all: callers know only that it is a run. */
    method Anyone()
      requires Valid()
      modifies this, emailTable, jobTable, coverageTable
      ensures Valid() && start == old(start) && old(trace) <= trace
    {
    }

    method CreateJob(box: Box, range: Range) returns (id: nat)
      requires Valid() && box.account in accounts
      modifies this`trace, jobTable
      ensures Valid() && trace == old(trace) + [Create(id, box, range)]
      ensures id !in old(jobTable.jobs) && jobTable.jobs == old(jobTable.jobs)[id := Job(box, range, Pending, None, None)]
    {
      ghost var before := View();
      id := jobTable.CreateJob(box, range);
      RunStep(start, trace, Create(id, box, range));
      assert Apply(before, Create(id, box, range)) == View();
      trace := trace + [Create(id, box, range)];
    }

    /** Claims a job if it is still pending; its runner is handed to the background tasks. */
    method ClaimJob(id: nat, ghost batchSize: int) returns (job: Option<Job>, ghost rid: nat)
      requires Valid()
      modifies this`runners, this`trace, jobTable
      ensures Valid() && job.Some? == IsPending(old(jobTable.jobs), id)
      ensures job.Some? ==> id in jobTable.jobs && job.value == jobTable.jobs[id] &&
                            trace == old(trace) + [Claim(id, rid, batchSize)]
      ensures job.None? ==> trace == old(trace) && View() == old(View())
      ensures jobTable.jobs == Claimed(old(jobTable.jobs), id)
    {
      ghost var before := View();
      rid := UnusedRunner(runners.Keys);
      job := jobTable.ClaimJob(id);
      if job.Some? {
        ghost var l := Claim(id, rid, batchSize);
        RunStep(start, trace, l);
        runners, trace := Apply(before, l).runners, trace + [l];
      }
    }

    // ------------------------------------------------------------------ the steps of a job

    /** The server's answer to the widened search, sorted, without what is checkpointed. */
    method SearchFolder(ghost rid: nat, id: nat, job: Job, ghost batchSize: int) returns (uids: seq<Uid>)
      requires Valid() && job.box in boxes && job.box.account in accounts && id in jobTable.jobs
      requires rid in runners && runners[rid] == Runner(id, job.box, job.range, job.checkpoint, batchSize, 0, 0, Started)
      modifies this`runners, this`trace
      ensures Valid() && trace == old(trace) + [Search(rid, uids)]
      ensures At(rid, id, job, batchSize, boxes[job.box].validity, Walking(uids))
    {
      var answer := Answer(boxes[job.box], job.range);
      SortAscending(answer);
      uids := SortBy(answer, Itself);
      if job.checkpoint.Some? {
        AboveAscending(uids, job.checkpoint.value);
        uids := Above(uids, job.checkpoint.value);
      }
      ghost var before, l := View(), Search(rid, uids);
      RunStep(start, trace, l);
      runners, trace := Apply(before, l).runners, trace + [l];
    }

    /** The messages of a batch that still exist. */
    method FetchMessages(ghost rid: nat, id: nat, job: Job, ghost batchSize: int, ghost validity: nat,
                         batch: seq<Uid>, ghost rest: seq<Uid>)
      returns (fetched: map<Uid, Message>)
      requires Valid() && 0 < batchSize && 0 < |batch| <= batchSize && (rest != [] ==> |batch| == batchSize)
      requires At(rid, id, job, batchSize, validity, Walking(batch + rest))
      modifies this`runners, this`trace
      ensures Valid() && trace == old(trace) + [Fetch(rid)]
      ensures At(rid, id, job, batchSize, validity, Storing(batch, batch[|batch| - 1], fetched, rest))
    {
      fetched := Fetched(boxes[job.box], batch);
      ghost var before, l := View(), Fetch(rid);
      assert (batch + rest)[..|batch|] == batch && (batch + rest)[|batch|..] == rest;
      RunStep(start, trace, l);
      runners, trace := Apply(before, l).runners, trace + [l];
    }

    method StoreMessage(ghost rid: nat, id: nat, job: Job, ghost batchSize: int, validity: nat,
                        uid: Uid, fetched: map<Uid, Message>, ghost todo: seq<Uid>, ghost last: Uid, ghost rest: seq<Uid>)
      requires Valid() && At(rid, id, job, batchSize, validity, Storing([uid] + todo, last, fetched, rest))
      modifies this`runners, this`trace, emailTable
      ensures Valid() && trace == old(trace) + [Store(rid)]
      ensures At(rid, id, job, batchSize, validity, Storing(todo, last, fetched, rest))
    {
      ghost var before, l := View(), Store(rid);
      if uid in fetched {
        var _ := emailTable.StoreIfInRange(EmailKey(job.box, validity, uid), fetched[uid], job.range);
      }
      RunStep(start, trace, l);
      assert ([uid] + todo)[1..] == todo;
      runners, trace := Apply(before, l).runners, trace + [l];
    }

    method CheckpointBatch(ghost rid: nat, id: nat, job: Job, ghost batchSize: int, ghost validity: nat,
                           last: Uid, ghost fetched: map<Uid, Message>, ghost rest: seq<Uid>)
      requires Valid() && At(rid, id, job, batchSize, validity, Storing([], last, fetched, rest))
      modifies this`runners, this`trace, jobTable
      ensures Valid() && trace == old(trace) + [Checkpoint(rid)]
      ensures At(rid, id, job, batchSize, validity, Walking(rest))
    {
      ghost var before, l := View(), Checkpoint(rid);
      jobTable.UpdateCheckpoint(id, last);
      RunStep(start, trace, l);
      runners, trace := Apply(before, l).runners, trace + [l];
    }

    method MarkJobFailed(ghost rid: nat, id: nat, reason: string)
      requires Valid() && rid in runners && runners[rid].job == id && id in jobTable.jobs && !runners[rid].phase.Finished?
      modifies this`runners, this`trace, jobTable
      ensures Valid() && trace == old(trace) + [Fail(rid, reason)] && GaveUp(rid, id)
    {
      ghost var before, l := View(), Fail(rid, reason);
      jobTable.MarkFailed(id, reason);
      RunStep(start, trace, l);
      runners, trace := Apply(before, l).runners, trace + [l];
    }

    /** Marks the job failed, unless that raises too. */
    method FailJob(ghost rid: nat, id: nat, reason: string) returns (p: Progress)
      requires Valid() && rid in runners && runners[rid].job == id && id in jobTable.jobs && !runners[rid].phase.Finished?
      modifies this`runners, this`trace, this`raised, jobTable
      ensures Valid()
      ensures p.MarkedFailed? ==> trace == old(trace) + [Fail(rid, reason)] && GaveUp(rid, id)
      ensures p.Escaped? ==> Lost(rid) && jobTable.jobs == old(jobTable.jobs)
      ensures raised == if p.Escaped? then old(raised) + {rid} else old(raised)
      ensures !p.Going?
    {
      var raises := *;
      if raises {
        raised := raised + {rid};
        Escape(rid);
        p := Escaped;
      } else {
        MarkJobFailed(rid, id, reason);
        p := MarkedFailed;
      }
    }

    method RecordJob(ghost rid: nat, id: nat, job: Job, ghost batchSize: int, ghost validity: nat, ghost rest: seq<Uid>)
      requires Valid() && At(rid, id, job, batchSize, validity, Walking(rest)) && NoMoreBatches(batchSize, rest)
      modifies this`runners, this`trace, this`log, coverageTable
      ensures Valid() && trace == old(trace) + [Record(rid)]
      ensures At(rid, id, job, batchSize, validity, Finished)
    {
      ghost var before, l := View(), Record(rid);
      coverageTable.RecordCoverage(job.box, job.range);
      RunStep(start, trace, l);
      runners, log, trace := Apply(before, l).runners, Apply(before, l).log, trace + [l];
    }

    method CompleteJob(ghost rid: nat, id: nat)
      requires Valid() && rid in runners && runners[rid].phase.Finished? && runners[rid].job == id && id in jobTable.jobs
      modifies this`runners, this`trace, jobTable
      ensures Valid() && trace == old(trace) + [Complete(rid)]
      ensures rid !in runners && IsDone(View(), id)
    {
      ghost var before, l := View(), Complete(rid);
      jobTable.MarkDone(id);
      RunStep(start, trace, l);
      runners, trace := Apply(before, l).runners, trace + [l];
    }

    // ------------------------------------------------------------------ the job

    /** One message, unless something raises first. */
    method StoreOne(ghost rid: nat, id: nat, job: Job, ghost batchSize: int, validity: nat,
                    uid: Uid, fetched: map<Uid, Message>, ghost todo: seq<Uid>, ghost last: Uid, ghost rest: seq<Uid>)
      returns (p: Progress)
      requires Valid() && At(rid, id, job, batchSize, validity, Storing([uid] + todo, last, fetched, rest))
      modifies this, emailTable, jobTable, coverageTable
      ensures Valid() && start == old(start)
      ensures p.Going? ==> At(rid, id, job, batchSize, validity, Storing(todo, last, fetched, rest))
      ensures p.MarkedFailed? ==> GaveUp(rid, id)
      ensures p.Escaped? ==> Lost(rid)
      ensures if p.Going? then rid in raised <==> rid in old(raised) else rid in raised
    {
      p := InterleaveOrFail(rid, id, "Unexpected error");
      if p.Going? {
        StoreMessage(rid, id, job, batchSize, validity, uid, fetched, todo, last, rest);
      }
    }

    /** Stores the messages of one batch; any of them may fail unexpectedly. */
    method StoreBatch(ghost rid: nat, id: nat, job: Job, ghost batchSize: int, validity: nat,
                      batch: seq<Uid>, fetched: map<Uid, Message>, ghost rest: seq<Uid>)
      returns (p: Progress)
      requires Valid() && batch != []
      requires At(rid, id, job, batchSize, validity, Storing(batch, batch[|batch| - 1], fetched, rest))
      modifies this, emailTable, jobTable, coverageTable
      ensures Valid() && start == old(start)
      ensures p.Going? ==> At(rid, id, job, batchSize, validity, Storing([], batch[|batch| - 1], fetched, rest))
      ensures if p.Going? then rid in raised <==> rid in old(raised) else rid in raised
      ensures p.MarkedFailed? ==> GaveUp(rid, id)
      ensures p.Escaped? ==> Lost(rid)
    {
      var i := 0;
      while i < |batch|
        invariant 0 <= i <= |batch|
        invariant Valid() && start == old(start)
        invariant At(rid, id, job, batchSize, validity, Storing(batch[i..], batch[|batch| - 1], fetched, rest))
        invariant rid in raised <==> rid in old(raised)
      {
        assert batch[i..] == [batch[i]] + batch[i + 1..];
        p := StoreOne(rid, id, job, batchSize, validity, batch[i], fetched, batch[i + 1..], batch[|batch| - 1], rest);
        if !p.Going? {
          return;
        }
        i := i + 1;
      }
      assert batch[i..] == [];
      p := Going;
    }

    /** The checkpoint is written once the whole batch is stored. */
    method StoreAndCheckpoint(ghost rid: nat, id: nat, job: Job, ghost batchSize: int, validity: nat,
                              batch: seq<Uid>, fetched: map<Uid, Message>, ghost rest: seq<Uid>)
      returns (p: Progress)
      requires Valid() && batch != []
      requires At(rid, id, job, batchSize, validity, Storing(batch, batch[|batch| - 1], fetched, rest))
      modifies this, emailTable, jobTable, coverageTable
      ensures Valid() && start == old(start)
      ensures p.Going? ==> At(rid, id, job, batchSize, validity, Walking(rest))
      ensures if p.Going? then rid in raised <==> rid in old(raised) else rid in raised
      ensures p.MarkedFailed? ==> GaveUp(rid, id)
      ensures p.Escaped? ==> Lost(rid)
    {
      p := StoreBatch(rid, id, job, batchSize, validity, batch, fetched, rest);
      if !p.Going? {
        return;
      }
      p := InterleaveOrFail(rid, id, "Unexpected error");
      if p.Going? {
        CheckpointBatch(rid, id, job, batchSize, validity, batch[|batch| - 1], fetched, rest);
      }
    }

    /** One batch: fetch, store, then checkpoint. */
    method WalkBatch(ghost rid: nat, id: nat, job: Job, batchSize: int, validity: nat, uids: seq<Uid>, next: nat)
      returns (p: Progress, stop: nat)
      requires Valid() && batchSize > 0 && next < |uids|
      requires At(rid, id, job, batchSize, validity, Walking(uids[next..]))
      modifies this, emailTable, jobTable, coverageTable
      ensures Valid() && start == old(start)
      ensures next < stop <= |uids|
      ensures p.Going? ==> At(rid, id, job, batchSize, validity, Walking(uids[stop..]))
      ensures if p.Going? then rid in raised <==> rid in old(raised) else rid in raised
      ensures p.MarkedFailed? ==> GaveUp(rid, id)
      ensures p.Escaped? ==> Lost(rid)
    {
      stop := Min(next + batchSize, |uids|);
      var batch := uids[next..stop];
      assert uids[next..] == batch + uids[stop..];
      p := InterleaveOrFail(rid, id, "fetch failed");
      if !p.Going? {
        return;
      }
      var fetched := FetchMessages(rid, id, job, batchSize, validity, batch, uids[stop..]);
      p := StoreAndCheckpoint(rid, id, job, batchSize, validity, batch, fetched, uids[stop..]);
    }

    /** All batches of the search result. A negative size has none, zero is an error. */
    method WalkBatches(ghost rid: nat, id: nat, job: Job, batchSize: int, validity: nat, uids: seq<Uid>)
      returns (p: Progress, ghost rest: seq<Uid>)
      requires Valid() && At(rid, id, job, batchSize, validity, Walking(uids))
      modifies this, emailTable, jobTable, coverageTable
      ensures Valid() && start == old(start)
      ensures p.Going? ==> At(rid, id, job, batchSize, validity, Walking(rest)) && NoMoreBatches(batchSize, rest)
      ensures if p.Going? then rid in raised <==> rid in old(raised) else rid in raised || batchSize == 0
      ensures p.MarkedFailed? ==> GaveUp(rid, id)
      ensures p.Escaped? ==> Lost(rid) && rid in raised
    {
      rest := uids;
      if batchSize == 0 {
        p := FailJob(rid, id, "Unexpected error (ValueError)");
        return;
      }
      p := Going;
      var next := 0;
      while batchSize > 0 && next < |uids|
        invariant 0 <= next <= |uids| && p.Going?
        invariant Valid() && start == old(start)
        invariant At(rid, id, job, batchSize, validity, Walking(uids[next..]))
        invariant rid in raised <==> rid in old(raised)
      {
        p, next := WalkBatch(rid, id, job, batchSize, validity, uids, next);
        if !p.Going? {
          return;
        }
      }
      rest := uids[next..];
    }

    /** From the connection to the last checkpoint: the part inside the `try`. */
    method FetchAll(ghost rid: nat, id: nat, job: Job, batchSize: int)
      returns (p: Progress, ghost validity: nat, ghost rest: seq<Uid>)
      requires Valid() && id in jobTable.jobs && job.box.account in accounts
      requires rid in runners && runners[rid] == Runner(id, job.box, job.range, job.checkpoint, batchSize, 0, 0, Started)
      modifies this, emailTable, jobTable, coverageTable
      ensures Valid() && start == old(start)
      ensures p.Going? ==> batchSize != 0 && At(rid, id, job, batchSize, validity, Walking(rest)) &&
                           NoMoreBatches(batchSize, rest)
      ensures p.MarkedFailed? ==> GaveUp(rid, id)
      ensures p.Escaped? ==> Lost(rid) && rid in raised
      ensures if p.Going? then rid in raised <==> rid in old(raised)
              else rid in raised || job.box !in old(boxes) || batchSize == 0
      ensures job.box !in old(boxes) ==> !p.Going?
    {
      validity, rest := 0, [];
      p := InterleaveOrFail(rid, id, "could not connect");
      if !p.Going? {
        return;
      }
      if job.box !in boxes {
        p := FailJob(rid, id, "could not open folder");
        return;
      }
      var current := boxes[job.box].validity;
      validity := current;
      var uids := SearchFolder(rid, id, job, batchSize);
      p, rest := WalkBatches(rid, id, job, batchSize, current, uids);
    }

    /** Coverage first, then the job: both outside the `try`. */
    method Finish(ghost rid: nat, id: nat, job: Job, ghost batchSize: int, ghost validity: nat, ghost rest: seq<Uid>)
      returns (ok: bool)
      requires Valid() && At(rid, id, job, batchSize, validity, Walking(rest)) && NoMoreBatches(batchSize, rest)
      modifies this, emailTable, jobTable, coverageTable
      ensures Valid() && start == old(start)
      ensures ok ==> rid !in runners && IsDone(View(), id) && (rid in raised <==> rid in old(raised))
      ensures !ok ==> Lost(rid) && rid in raised
    {
      ok := InterleaveOrEscape(rid);
      if !ok {
        return;
      }
      RecordJob(rid, id, job, batchSize, validity, rest);
      ok := InterleaveOrEscape(rid);
      if ok {
        CompleteJob(rid, id);
      }
    }

    /** Executes a claimed job. The account may be missing; the connection, and anything else up
        to the last checkpoint, may fail at any point and then marks the job failed; an exception
        before or after that, or in marking, escapes and leaves the job as it is, for the next
        startup to recover. The whole execution, with everything that others did meanwhile, is a
        run of the protocol. Unless something raised, the job is done, or it is failed because its
        account or folder is missing or the batch size is zero. */
    method RunJob(ghost rid: nat, id: nat, job: Job, batchSize: int) returns (outcome: JobOutcome)
      requires Valid() && id in jobTable.jobs
      requires rid in runners && runners[rid] == Runner(id, job.box, job.range, job.checkpoint, batchSize, 0, 0, Started)
      modifies this, emailTable, jobTable, coverageTable
      ensures Valid() && start == old(View())
      ensures outcome.JobDone? ==> rid !in runners && IsDone(View(), id)
      ensures outcome.JobFailed? ==> GaveUp(rid, id)
      ensures outcome.JobEscaped? ==> Lost(rid) && rid in raised
      ensures outcome.JobDone? <==>
                rid !in raised && job.box.account in old(accounts) && job.box in old(boxes) && batchSize != 0
      ensures rid !in raised && !outcome.JobDone? ==> outcome.JobFailed?
    {
      start, trace, raised := View(), [], raised - {rid};
      var ok := InterleaveOrEscape(rid);
      if !ok {
        return JobEscaped;
      }
      var p: Progress;
      ghost var validity, rest;
      if job.box.account !in accounts {
        p := FailJob(rid, id, "account no longer exists");
      } else {
        p, validity, rest := FetchAll(rid, id, job, batchSize);
      }
      if p.Going? {
        ok := Finish(rid, id, job, batchSize, validity, rest);
        return if ok then JobDone else JobEscaped;
      }
      outcome := if p.MarkedFailed? then JobFailed else JobEscaped;
    }
  }
}
