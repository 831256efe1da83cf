/** Coverage never lies: the invariant of the ingestion protocol and what it means for
    every run (src/heron/worker/runner.py). */
module CoverageSafety {
  import opened Ranges
  import opened Segments
  import opened Jobs
  import opened Ingestion

  // ------------------------------------------------------------------ what is claimed

  /** The message belongs to the range and the server's date search finds it. */
  predicate Wanted(range: Range, m: Message) {
    range.Contains(m.instant) && SearchMatches(range, m.instant, m.zone)
  }

  /** The vault holds the row of message `u` of the folder. */
  ghost predicate Stored(s: State, box: Box, u: Uid)
    requires box in s.boxes && u in s.boxes[box].ever
  {
    var key := EmailKey(box, s.boxes[box].validity, u);
    && key in s.emails
    && s.emails[key].internalDate == s.boxes[box].ever[u].instant && s.emails[key].raw == s.boxes[box].ever[u].raw
  }

  /** Every wanted message below `bound` that is still on the server is in the vault. */
  ghost predicate Settled(s: State, box: Box, range: Range, bound: Uid) {
    && box in s.boxes && bound <= s.boxes[box].nextUid
    && forall u: Uid :: s.boxes[box].Live(u) && u < bound && Wanted(range, s.boxes[box].ever[u]) ==> Stored(s, box, u)
  }

  // ------------------------------------------------------------------ the invariant

  /** The server hands out ascending UIDs, and rows under the current UIDVALIDITY are
      copies of messages it has had. */
  ghost predicate VaultOk(s: State) {
    && (forall box :: box in s.boxes ==>
          && s.boxes[box].gone <= s.boxes[box].ever.Keys
          && forall u :: u in s.boxes[box].ever ==> u < s.boxes[box].nextUid)
    && forall k :: k in s.emails && k.box in s.boxes && k.validity == s.boxes[k.box].validity ==>
         k.uid in s.boxes[k.box].ever && s.emails[k] == RowOf(s.boxes[k.box].ever[k.uid])
  }

  predicate Logged(s: State, box: Box, range: Range) {
    exists i :: 0 <= i < |s.log| && s.log[i].box == box && s.log[i].range == range
  }

  ghost predicate JobOk(s: State, job: Job) {
    && (job.checkpoint.Some? ==> Settled(s, job.box, job.range, job.checkpoint.value + 1))
    && (job.status.Done? ==> Logged(s, job.box, job.range))
  }

  predicate Outstanding(phase: Phase, u: Uid) {
    match phase
    case Walking(rest) => u in rest
    case Storing(todo, _, _, rest) => u in todo || u in rest
    case _ => false
  }

  /** Every wanted message below the runner's horizon is stored or still to be processed. */
  ghost predicate SettledButOutstanding(s: State, r: Runner) {
    && r.box in s.boxes && r.validity == s.boxes[r.box].validity && r.horizon <= s.boxes[r.box].nextUid
    && forall u: Uid :: s.boxes[r.box].Live(u) && u < r.horizon && Wanted(r.range, s.boxes[r.box].ever[u]) ==>
         Stored(s, r.box, u) || Outstanding(r.phase, u)
  }

  predicate FetchedCopies(s: State, r: Runner)
    requires r.box in s.boxes && r.phase.Storing?
  {
    && (forall u :: u in r.phase.fetched ==> u in s.boxes[r.box].ever && r.phase.fetched[u] == s.boxes[r.box].ever[u])
    && (forall u :: u in r.phase.todo && s.boxes[r.box].Live(u) ==> u in r.phase.fetched)
  }

  ghost predicate RunnerOk(s: State, r: Runner) {
    && r.batch >= 0
    && r.job in s.jobs && s.jobs[r.job].box == r.box && s.jobs[r.job].range == r.range
    && (r.checkpoint.Some? ==> Settled(s, r.box, r.range, r.checkpoint.value + 1))
    && match r.phase {
         case Started => true
         case Walking(rest) =>
           SettledButOutstanding(s, r) && Ascending(rest) && forall u :: u in rest ==> u < r.horizon
         case Storing(todo, last, _, rest) =>
           && SettledButOutstanding(s, r) && FetchedCopies(s, r)
           && Ascending(rest) && last < r.horizon
           && (forall u :: u in todo ==> u <= last) && forall u :: u in rest ==> last < u < r.horizon
         case Finished => Logged(s, r.box, r.range)
       }
  }

  /** Every recorded range was settled up to the next UID at its run's search. */
  ghost predicate LogOk(s: State) {
    forall i :: 0 <= i < |s.log| ==> Settled(s, s.log[i].box, s.log[i].range, s.log[i].horizon)
  }

  /** The coverage table covers exactly the recorded ranges, as separated segments. */
  ghost predicate CoverageOk(s: State) {
    && Separated(s.coverage)
    && forall box, t :: Covers(s.coverage, box, t) <==> Recorded(s.log, box, t)
  }

  ghost predicate Recorded(log: seq<Recording>, box: Box, t: int) {
    exists e :: e in log && e.box == box && e.range.Contains(t)
  }

  ghost predicate Inv(s: State) {
    && VaultOk(s) && LogOk(s) && CoverageOk(s)
    && (forall id :: id in s.jobs ==> JobOk(s, s.jobs[id]))
    && forall rid :: rid in s.runners ==> RunnerOk(s, s.runners[rid])
  }

  // ------------------------------------------------------------------ what every step keeps

  /** The server only appends and expunges, the vault only grows, jobs keep their request. */
  ghost predicate Extends(s: State, t: State) {
    && s.boxes.Keys == t.boxes.Keys
    && (forall box :: box in s.boxes ==> MailboxExtends(s.boxes[box], t.boxes[box]))
    && (forall k :: k in s.emails ==> k in t.emails && t.emails[k] == s.emails[k])
    && (forall id :: id in s.jobs ==> id in t.jobs && t.jobs[id].box == s.jobs[id].box && t.jobs[id].range == s.jobs[id].range)
    && s.log <= t.log
  }

  predicate MailboxExtends(a: Mailbox, b: Mailbox) {
    && a.validity == b.validity && a.nextUid <= b.nextUid && a.gone <= b.gone
    && (forall u :: u in a.ever ==> u in b.ever && b.ever[u] == a.ever[u])
    && forall u :: u in b.ever && u !in a.ever ==> u >= a.nextUid
  }

  lemma {:induction false} StepExtends(s: State, l: Label)
    requires VaultOk(s) && Enabled(s, l)
    ensures Extends(s, Apply(s, l))
  {
  }

  lemma {:induction false} SettledExtends(s: State, t: State, box: Box, range: Range, bound: Uid)
    requires Extends(s, t) && Settled(s, box, range, bound)
    ensures Settled(t, box, range, bound)
  {
    forall u: Uid | t.boxes[box].Live(u) && u < bound && Wanted(range, t.boxes[box].ever[u]) ensures Stored(t, box, u) {
      assert s.boxes[box].Live(u);
    }
  }

  lemma {:induction false} JobExtends(s: State, t: State, job: Job)
    requires Extends(s, t) && JobOk(s, job)
    ensures JobOk(t, job)
  {
    if job.checkpoint.Some? { SettledExtends(s, t, job.box, job.range, job.checkpoint.value + 1); }
    if job.status.Done? {
      var i :| 0 <= i < |s.log| && s.log[i].box == job.box && s.log[i].range == job.range;
      assert t.log[i] == s.log[i];
    }
  }

  lemma {:induction false} RunnerExtends(s: State, t: State, r: Runner)
    requires Extends(s, t) && RunnerOk(s, r)
    ensures RunnerOk(t, r)
  {
    if r.checkpoint.Some? { SettledExtends(s, t, r.box, r.range, r.checkpoint.value + 1); }
    if r.phase.Finished? {
      var i :| 0 <= i < |s.log| && s.log[i].box == r.box && s.log[i].range == r.range;
      assert t.log[i] == s.log[i];
    } else if !r.phase.Started? {
      forall u: Uid | t.boxes[r.box].Live(u) && u < r.horizon && Wanted(r.range, t.boxes[r.box].ever[u])
        ensures Stored(t, r.box, u) || Outstanding(r.phase, u)
      {
        assert s.boxes[r.box].Live(u);
      }
    }
  }

  // ------------------------------------------------------------------ one step

  /** A claim with a usable batch size. The ingest endpoint always uses the default of 50. */
  predicate Usable(l: Label) {
    l.Claim? ==> l.batch >= 0
  }

  /** The runner that took the step satisfies its invariant afterwards. */
  lemma {:induction false} ActingRunnerOk(s: State, l: Label, rid: nat)
    requires Inv(s) && Enabled(s, l) && Usable(l)
    requires rid in Apply(s, l).runners
    requires rid in s.runners ==> Apply(s, l).runners[rid] != s.runners[rid]
    ensures RunnerOk(Apply(s, l), Apply(s, l).runners[rid])
  {
    if Acts(l) {
      OnlyActorChanges(s, l, rid);
      ActorOk(s, l);
    } else {
      OthersKeepRunners(s, l, rid);
    }
  }

  predicate Acts(l: Label) {
    l.Claim? || l.Search? || l.Fetch? || l.Store? || l.Checkpoint? || l.Record?
  }

  lemma {:induction false} OnlyActorChanges(s: State, l: Label, rid: nat)
    requires Enabled(s, l) && Acts(l) && rid in Apply(s, l).runners
    requires rid in s.runners ==> Apply(s, l).runners[rid] != s.runners[rid]
    ensures rid == l.rid
  {
  }

  lemma {:induction false} ActorOk(s: State, l: Label)
    requires Inv(s) && Enabled(s, l) && Usable(l) && Acts(l)
    ensures l.rid in Apply(s, l).runners && RunnerOk(Apply(s, l), Apply(s, l).runners[l.rid])
  {
    match l {
      case Claim(_, _, _) => ClaimOk(s, l);
      case Search(_, _) => SearchOk(s, l);
      case Fetch(_) => FetchOk(s, l);
      case Store(_) => StoreOk(s, l);
      case Checkpoint(_) => CheckpointOk(s, l);
      case Record(_) => RecordOk(s, l);
    }
  }

  /** The other steps change no runner, at most they remove one. */
  lemma {:induction false} OthersKeepRunners(s: State, l: Label, rid: nat)
    requires Enabled(s, l) && !Acts(l) && rid in Apply(s, l).runners
    ensures rid in s.runners && Apply(s, l).runners[rid] == s.runners[rid]
  {
  }

  lemma {:induction false} ClaimOk(s: State, l: Label)
    requires Inv(s) && l.Claim? && Enabled(s, l) && Usable(l)
    ensures RunnerOk(Apply(s, l), Apply(s, l).runners[l.rid])
  {
    StepExtends(s, l);
    JobExtends(s, Apply(s, l), s.jobs[l.id]);
  }

  lemma {:induction false} CheckpointOk(s: State, l: Label)
    requires Inv(s) && l.Checkpoint? && Enabled(s, l)
    ensures RunnerOk(Apply(s, l), Apply(s, l).runners[l.rid])
  {
    StepExtends(s, l);
    RunnerExtends(s, Apply(s, l), s.runners[l.rid]);
  }

  lemma {:induction false} RecordOk(s: State, l: Label)
    requires Inv(s) && l.Record? && Enabled(s, l)
    ensures RunnerOk(Apply(s, l), Apply(s, l).runners[l.rid])
  {
    var t := Apply(s, l);
    StepExtends(s, l);
    RunnerExtends(s, t, s.runners[l.rid]);
    var r := t.runners[l.rid];
    assert t.log[|s.log|] == Recording(r.box, r.range, r.horizon);
  }

  lemma {:induction false} SearchOk(s: State, l: Label)
    requires Inv(s) && l.Search? && Enabled(s, l)
    ensures RunnerOk(Apply(s, l), Apply(s, l).runners[l.rid])
  {
    var t := Apply(s, l);
    StepExtends(s, l);
    var r := t.runners[l.rid];
    RunnerExtends(s, t, s.runners[l.rid]);
    forall u: Uid | t.boxes[r.box].Live(u) && u < r.horizon && Wanted(r.range, t.boxes[r.box].ever[u])
      ensures Stored(t, r.box, u) || Outstanding(r.phase, u)
    {
      if u !in l.uids {
        assert r.checkpoint.Some? && u < r.checkpoint.value + 1;
      }
    }
  }

  lemma {:induction false} FetchOk(s: State, l: Label)
    requires Inv(s) && l.Fetch? && Enabled(s, l)
    ensures RunnerOk(Apply(s, l), Apply(s, l).runners[l.rid])
  {
    var t := Apply(s, l);
    StepExtends(s, l);
    var before, r := s.runners[l.rid], t.runners[l.rid];
    RunnerExtends(s, t, before);
    SplitAscending(before.phase.rest, Min(r.batch, |before.phase.rest|));
  }

  lemma {:induction false} SplitAscending(uids: seq<Uid>, n: nat)
    requires Ascending(uids) && 0 < n <= |uids|
    ensures Ascending(uids[n..])
    ensures forall u :: u in uids <==> u in uids[..n] || u in uids[n..]
    ensures forall u :: u in uids[..n] ==> u <= uids[n - 1]
    ensures forall u :: u in uids[n..] ==> u > uids[n - 1]
    ensures uids[n - 1] in uids && uids[..n][n - 1] == uids[n - 1]
  {
    assert uids == uids[..n] + uids[n..];
  }

  lemma {:induction false} StoreOk(s: State, l: Label)
    requires Inv(s) && l.Store? && Enabled(s, l)
    ensures RunnerOk(Apply(s, l), Apply(s, l).runners[l.rid])
  {
    var t := Apply(s, l);
    StepExtends(s, l);
    var before, r := s.runners[l.rid], t.runners[l.rid];
    RunnerExtends(s, t, before);
    var u := before.phase.todo[0];
    assert before.phase.todo == [u] + r.phase.todo;
    assert forall x :: x in r.phase.todo ==> x in before.phase.todo;
    if t.boxes[r.box].Live(u) && Wanted(r.range, t.boxes[r.box].ever[u]) {
      assert Stored(t, r.box, u);
    }
  }

  lemma {:induction false} CheckpointSettles(s: State, r: Runner)
    requires RunnerOk(s, r) && r.phase.Storing? && r.phase.todo == []
    ensures Settled(s, r.box, r.range, r.phase.last + 1)
  {
  }

  lemma {:induction false} RecordSettles(s: State, r: Runner)
    requires RunnerOk(s, r) && r.phase.Walking? && NoMoreBatches(r.batch, r.phase.rest)
    ensures Settled(s, r.box, r.range, r.horizon)
  {
  }

  lemma {:induction false} JobsOkStep(s: State, l: Label, id: nat)
    requires Inv(s) && Enabled(s, l) && id in Apply(s, l).jobs
    ensures JobOk(Apply(s, l), Apply(s, l).jobs[id])
  {
    StepExtends(s, l);
    if id in s.jobs { JobExtends(s, Apply(s, l), s.jobs[id]); }
    if id !in s.jobs || Apply(s, l).jobs[id] != s.jobs[id] { ChangedJobOk(s, l, id); }
  }

  lemma {:induction false} ChangedJobOk(s: State, l: Label, id: nat)
    requires Inv(s) && Enabled(s, l) && id in Apply(s, l).jobs && Extends(s, Apply(s, l))
    requires id in s.jobs ==> Apply(s, l).jobs[id] != s.jobs[id] && JobOk(Apply(s, l), s.jobs[id])
    ensures JobOk(Apply(s, l), Apply(s, l).jobs[id])
  {
    if l.Checkpoint? {
      CheckpointedJobOk(s, Apply(s, l), s.runners[l.rid]);
    } else if l.Complete? {
      RunnerExtends(s, Apply(s, l), s.runners[l.rid]);
    }
  }

  lemma {:induction false} CheckpointedJobOk(s: State, t: State, r: Runner)
    requires RunnerOk(s, r) && r.phase.Storing? && r.phase.todo == [] && Extends(s, t)
    ensures Settled(t, r.box, r.range, r.phase.last + 1)
  {
    CheckpointSettles(s, r);
    SettledExtends(s, t, r.box, r.range, r.phase.last + 1);
  }

  lemma {:induction false} LogOkStep(s: State, l: Label)
    requires Inv(s) && Enabled(s, l)
    ensures LogOk(Apply(s, l))
  {
    var t := Apply(s, l);
    StepExtends(s, l);
    forall i | 0 <= i < |t.log| ensures Settled(t, t.log[i].box, t.log[i].range, t.log[i].horizon) {
      if i < |s.log| {
        SettledExtends(s, t, s.log[i].box, s.log[i].range, s.log[i].horizon);
      } else {
        var r := s.runners[l.rid];
        RecordSettles(s, r);
        SettledExtends(s, t, r.box, r.range, r.horizon);
      }
    }
  }

  lemma {:induction false} CoverageOkStep(s: State, l: Label)
    requires Inv(s) && Enabled(s, l)
    ensures CoverageOk(Apply(s, l))
  {
    if l.Record? {
      var t := Apply(s, l);
      var r := s.runners[l.rid];
      var added := Segment(r.box, r.range);
      MergeSeparated(s.coverage, added);
      forall box, i ensures Covers(t.coverage, box, i) <==> Recorded(t.log, box, i) {
        MergePoints(s.coverage, added, box, i);
        LogPoints(s.log, Recording(r.box, r.range, r.horizon), box, i);
      }
    }
  }

  lemma {:induction false} LogPoints(log: seq<Recording>, e: Recording, box: Box, t: int)
    ensures Recorded(log + [e], box, t) <==> Recorded(log, box, t) || (e.box == box && e.range.Contains(t))
  {
    assert e in log + [e];
    assert forall x :: x in log ==> x in log + [e];
  }

  lemma {:induction false} VaultOkStep(s: State, l: Label)
    requires Inv(s) && Enabled(s, l)
    ensures VaultOk(Apply(s, l))
  {
    if l.Store? {
      var r := s.runners[l.rid];
      assert RunnerOk(s, r);
    }
  }

  lemma {:induction false} InvStep(s: State, l: Label)
    requires Inv(s) && Enabled(s, l) && Usable(l)
    ensures Inv(Apply(s, l)) && Extends(s, Apply(s, l))
  {
    var t := Apply(s, l);
    VaultOkStep(s, l);
    LogOkStep(s, l);
    CoverageOkStep(s, l);
    StepExtends(s, l);
    forall id | id in t.jobs ensures JobOk(t, t.jobs[id]) {
      JobsOkStep(s, l, id);
    }
    forall rid | rid in t.runners ensures RunnerOk(t, t.runners[rid]) {
      if rid in s.runners && t.runners[rid] == s.runners[rid] {
        RunnerExtends(s, t, s.runners[rid]);
      } else {
        ActingRunnerOk(s, l, rid);
      }
    }
  }
}
