/** Interrupting and resuming a job changes nothing: on an unchanging mailbox every run that
    finishes the job, however often it was cut off, leaves the emails of a one-shot fetch
    (src/heron/worker/runner.py, src/heron/ingest/collector.py). */
module CrashResume {
  import opened Ranges
  import opened Segments
  import opened Ingestion
  import opened CoverageSafety

  /** The rows of the wanted messages that the folder holds. */
  ghost function WantedRows(box: Box, b: Mailbox, range: Range): map<EmailKey, EmailRow> {
    map u | u in b.ever && b.Live(u) && Wanted(range, b.ever[u]) :: EmailKey(box, b.validity, u) := RowOf(b.ever[u])
  }

  /** The emails after fetching the range in one go: rows already present win. */
  ghost function OneShot(emails: map<EmailKey, EmailRow>, box: Box, b: Mailbox, range: Range): map<EmailKey, EmailRow> {
    WantedRows(box, b, range) + emails
  }

  /** The mailbox is quiet and `job` is the only one that is claimed. Batch sizes may differ
      from claim to claim; crashes, failures, recoveries and retries are unrestricted. */
  predicate QuietFor(l: Label, job: nat) {
    && !l.Append? && !l.Expunge?
    && (l.Claim? ==> l.id == job && l.batch >= 0)
  }

  /** A job of a known folder that has not finished, and no runner alive. */
  ghost predicate Resumable(s: State, job: nat) {
    Inv(s) && s.runners == map[] && job in s.jobs && s.jobs[job].box in s.boxes && !s.jobs[job].status.Done?
  }

  predicate IsDone(s: State, job: nat) {
    job in s.jobs && s.jobs[job].status.Done?
  }

  /** What holds at every point of such a run that started in `s`. */
  ghost predicate Resuming(s: State, t: State, job: nat)
    requires job in s.jobs && s.jobs[job].box in s.boxes
  {
    var box, range, b := s.jobs[job].box, s.jobs[job].range, s.boxes[s.jobs[job].box];
    && SameRequest(s, t, job)
    && Between(s.emails, t.emails, OneShot(s.emails, box, b, range))
    && RunnersInStep(t, job, b)
    && DoneIsLogged(s, t, job)
  }

  ghost predicate SameRequest(s: State, t: State, job: nat)
    requires job in s.jobs
  {
    t.boxes == s.boxes && job in t.jobs && t.jobs[job].box == s.jobs[job].box && t.jobs[job].range == s.jobs[job].range
  }

  ghost predicate RunnersInStep(t: State, job: nat, b: Mailbox) {
    forall rid :: rid in t.runners ==> RunnerInStep(t.runners[rid], job, b)
  }

  predicate DoneIsLogged(s: State, t: State, job: nat)
    requires job in s.jobs && s.jobs[job].box in s.boxes
  {
    && s.log <= t.log
    && (IsDone(t, job) ==> FreshlyLogged(s, t, job))
    && forall rid :: rid in t.runners && t.runners[rid].phase.Finished? ==> FreshlyLogged(s, t, job)
  }

  ghost predicate Between(low: map<EmailKey, EmailRow>, m: map<EmailKey, EmailRow>, high: map<EmailKey, EmailRow>) {
    && (forall k :: k in low ==> k in m && m[k] == low[k])
    && forall k :: k in m ==> k in high && high[k] == m[k]
  }

  ghost predicate RunnerInStep(r: Runner, job: nat, b: Mailbox) {
    && r.job == job
    && (r.phase.Walking? || r.phase.Storing? ==>
          && r.horizon == b.nextUid && r.validity == b.validity
          && forall u :: Outstanding(r.phase, u) ==> b.Live(u) && SearchMatches(r.range, b.ever[u].instant, b.ever[u].zone))
    && (r.phase.Storing? ==> forall u :: u in r.phase.fetched ==> u in b.ever && r.phase.fetched[u] == b.ever[u])
  }

  /** Since `s` the job's range was recorded by a run that had searched the whole folder. */
  predicate FreshlyLogged(s: State, t: State, job: nat)
    requires job in s.jobs && s.jobs[job].box in s.boxes
  {
    exists i :: |s.log| <= i < |t.log|
                && t.log[i] == Recording(s.jobs[job].box, s.jobs[job].range, s.boxes[s.jobs[job].box].nextUid)
  }

  lemma {:induction false} ResumingStep(s: State, t: State, l: Label, job: nat)
    requires job in s.jobs && s.jobs[job].box in s.boxes
    requires Inv(t) && Resuming(s, t, job) && Enabled(t, l) && QuietFor(l, job)
    ensures Resuming(s, Apply(t, l), job)
  {
    RequestStep(s, t, l, job);
    RunnersStep(s, t, l, job);
    StoreBetween(s, t, l, job);
    LoggedStep(s, t, l, job);
  }

  lemma {:induction false} RequestStep(s: State, t: State, l: Label, job: nat)
    requires job in s.jobs && SameRequest(s, t, job) && Enabled(t, l) && QuietFor(l, job)
    ensures SameRequest(s, Apply(t, l), job)
  {
  }

  lemma {:induction false} RunnersStep(s: State, t: State, l: Label, job: nat)
    requires job in s.jobs && s.jobs[job].box in s.boxes
    requires Inv(t) && SameRequest(s, t, job) && RunnersInStep(t, job, s.boxes[s.jobs[job].box])
    requires Enabled(t, l) && QuietFor(l, job)
    ensures RunnersInStep(Apply(t, l), job, s.boxes[s.jobs[job].box])
  {
    var t' := Apply(t, l);
    var b := s.boxes[s.jobs[job].box];
    forall rid | rid in t'.runners ensures RunnerInStep(t'.runners[rid], job, b) {
      if rid in t.runners {
        assert RunnerOk(t, t.runners[rid]) && RunnerInStep(t.runners[rid], job, b);
        if t'.runners[rid] != t.runners[rid] { ActingInStep(t, l, job, b, rid); }
      }
    }
  }

  lemma {:induction false} ActingInStep(t: State, l: Label, job: nat, b: Mailbox, rid: nat)
    requires Enabled(t, l) && rid in t.runners && rid in Apply(t, l).runners
    requires Apply(t, l).runners[rid] != t.runners[rid]
    requires RunnerInStep(t.runners[rid], job, b)
    requires t.runners[rid].box in t.boxes ==> t.boxes[t.runners[rid].box] == b
    ensures RunnerInStep(Apply(t, l).runners[rid], job, b)
  {
    var r, r' := t.runners[rid], Apply(t, l).runners[rid];
    if l.Fetch? {
      var n := Min(r.batch, |r.phase.rest|);
      assert r.phase.rest == r.phase.rest[..n] + r.phase.rest[n..];
      assert forall u :: Outstanding(r'.phase, u) ==> Outstanding(r.phase, u);
    } else if l.Store? {
      assert r.phase.todo == [r.phase.todo[0]] + r.phase.todo[1..];
      assert forall u :: Outstanding(r'.phase, u) ==> Outstanding(r.phase, u);
    } else if l.Checkpoint? {
      assert forall u :: Outstanding(r'.phase, u) ==> Outstanding(r.phase, u);
    }
  }

  lemma {:induction false} StoreBetween(s: State, t: State, l: Label, job: nat)
    requires job in s.jobs && s.jobs[job].box in s.boxes
    requires Inv(t) && Resuming(s, t, job) && Enabled(t, l)
    ensures Between(s.emails, Apply(t, l).emails,
                    OneShot(s.emails, s.jobs[job].box, s.boxes[s.jobs[job].box], s.jobs[job].range))
  {
    if l.Store? {
      StoredRowBetween(s, t, l, job);
    } else {
      assert Apply(t, l).emails == t.emails;
    }
  }

  lemma {:induction false} StoredRowBetween(s: State, t: State, l: Label, job: nat)
    requires job in s.jobs && s.jobs[job].box in s.boxes
    requires Inv(t) && Resuming(s, t, job) && Enabled(t, l) && l.Store?
    ensures Between(s.emails, Apply(t, l).emails,
                    OneShot(s.emails, s.jobs[job].box, s.boxes[s.jobs[job].box], s.jobs[job].range))
  {
    var r := t.runners[l.rid];
    var u := r.phase.todo[0];
    assert RunnerOk(t, r) && RunnerInStep(r, job, s.boxes[s.jobs[job].box]);
    assert Outstanding(r.phase, u);
    if u in r.phase.fetched && r.range.Contains(r.phase.fetched[u].instant) {
      WantedRow(r.box, s.boxes[r.box], r.range, u);
    }
  }

  lemma {:induction false} WantedRow(box: Box, b: Mailbox, range: Range, u: Uid)
    requires u in b.ever && b.Live(u) && Wanted(range, b.ever[u])
    ensures var key := EmailKey(box, b.validity, u);
            key in WantedRows(box, b, range) && WantedRows(box, b, range)[key] == RowOf(b.ever[u])
  {
  }

  lemma {:induction false} LoggedStep(s: State, t: State, l: Label, job: nat)
    requires job in s.jobs && s.jobs[job].box in s.boxes
    requires Inv(t) && SameRequest(s, t, job) && RunnersInStep(t, job, s.boxes[s.jobs[job].box]) && DoneIsLogged(s, t, job)
    requires Enabled(t, l) && QuietFor(l, job)
    ensures DoneIsLogged(s, Apply(t, l), job)
  {
    var t' := Apply(t, l);
    var e := Recording(s.jobs[job].box, s.jobs[job].range, s.boxes[s.jobs[job].box].nextUid);
    if l.Record? {
      assert RunnerOk(t, t.runners[l.rid]) && RunnerInStep(t.runners[l.rid], job, s.boxes[s.jobs[job].box]);
      assert t'.log[|t.log|] == e;
      assert FreshlyLogged(s, t', job);
    } else if l.Complete? {
      assert FreshlyLogged(s, t, job);
    }
  }

  lemma {:induction false} ResumingRun(s: State, ls: seq<Label>, job: nat)
    requires Resumable(s, job)
    requires Run(s, ls).Some? && forall l :: l in ls ==> QuietFor(l, job)
    ensures Inv(Run(s, ls).value) && Resuming(s, Run(s, ls).value, job)
  {
    if ls != [] {
      var init, l := ls[..|ls| - 1], ls[|ls| - 1];
      assert l in ls && forall x :: x in init ==> x in ls;
      ResumingRun(s, init, job);
      InvStep(Run(s, init).value, l);
      ResumingStep(s, Run(s, init).value, l, job);
    } else {
      ResumingStart(s, job);
    }
  }

  lemma {:induction false} ResumingStart(s: State, job: nat)
    requires Resumable(s, job)
    ensures Resuming(s, s, job)
  {
  }

  /** Crash-resume refinement: for any batch sizes, any number of attempts cut off anywhere, and
      any checkpoint left behind, a run that ends with the job done leaves exactly the emails of
      a one-shot fetch. */
  lemma {:induction false} ResumedEqualsOneShot(s: State, ls: seq<Label>, job: nat)
    requires Resumable(s, job)
    requires Run(s, ls).Some? && forall l :: l in ls ==> QuietFor(l, job)
    requires IsDone(Run(s, ls).value, job)
    ensures Run(s, ls).value.emails ==
            OneShot(s.emails, s.jobs[job].box, s.boxes[s.jobs[job].box], s.jobs[job].range)
  {
    var box, range, b := s.jobs[job].box, s.jobs[job].range, s.boxes[s.jobs[job].box];
    var t := Run(s, ls).value;
    ResumingRun(s, ls, job);
    var i :| |s.log| <= i < |t.log| && t.log[i] == Recording(box, range, b.nextUid);
    assert Settled(t, box, range, b.nextUid);
    forall k | k in OneShot(s.emails, box, b, range) ensures k in t.emails {
      if k !in s.emails {
        var u :| u in b.ever && b.Live(u) && Wanted(range, b.ever[u]) && k == EmailKey(box, b.validity, u);
        assert Stored(t, box, u);
      }
    }
  }

  /** So any two such runs agree: interrupted and uninterrupted, for all batch sizes. */
  lemma {:induction false} InterruptionsDoNotMatter(s: State, ls: seq<Label>, ls': seq<Label>, job: nat)
    requires Resumable(s, job)
    requires Run(s, ls).Some? && Run(s, ls').Some?
    requires forall l :: l in ls || l in ls' ==> QuietFor(l, job)
    requires IsDone(Run(s, ls).value, job) && IsDone(Run(s, ls').value, job)
    ensures Run(s, ls).value.emails == Run(s, ls').value.emails
  {
    ResumedEqualsOneShot(s, ls, job);
    ResumedEqualsOneShot(s, ls', job);
  }
}
