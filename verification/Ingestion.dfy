/** The ingestion protocol as a state machine: the mail server, the vault, and the volatile
    runners of claimed jobs. Each label is one atomic step (one transaction, or one reply of
    the server); any labels may follow one another, so a run may interleave any number of
    runners with arrivals, expunges, failures, restarts and retries.
    (src/heron/worker/runner.py, src/heron/core/jobs.py, src/heron/core/job_recovery.py) */
module Ingestion {
  import opened Wrappers
  import opened Ranges
  import opened Segments
  import opened Jobs

  // ------------------------------------------------------------------- the state

  type Uid = nat

  /** `zone` is the offset in which the server dates the message when it answers a search. */
  datatype Message = Message(instant: int, zone: int, raw: string)

  /** A folder on the server. UIDs ascend (section 2.3.1.1 of RFC 3501) and UIDVALIDITY is
      constant: `ever` keeps every message the folder has had, `gone` the expunged ones. */
  datatype Mailbox = Mailbox(validity: nat, ever: map<Uid, Message>, gone: set<Uid>, nextUid: Uid)
  {
    predicate Live(u: Uid) {
      u in ever && u !in gone
    }
  }

  datatype EmailKey = EmailKey(box: Box, validity: nat, uid: Uid)

  datatype EmailRow = EmailRow(internalDate: int, raw: string)

  function RowOf(m: Message): EmailRow {
    EmailRow(m.instant, m.raw)
  }

  /** Where a runner is in its job. */
  datatype Phase =
    | Started
    | Walking(rest: seq<Uid>)
    | Storing(todo: seq<Uid>, last: Uid, fetched: map<Uid, Message>, rest: seq<Uid>)
    | Finished

  /** One execution of a claimed job: `checkpoint` is the job row as it was claimed, `validity`
      and `horizon` are the folder's UIDVALIDITY and next UID at the search. */
  datatype Runner = Runner(job: nat, box: Box, range: Range, checkpoint: Option<Uid>, batch: int,
                           validity: nat, horizon: Uid, phase: Phase)

  /** A range that was recorded as covered, and the next UID at that run's search. */
  datatype Recording = Recording(box: Box, range: Range, horizon: Uid)

  datatype State = State(accounts: set<nat>, boxes: map<Box, Mailbox>,
                         emails: map<EmailKey, EmailRow>, jobs: Table, coverage: set<Segment>,
                         runners: map<nat, Runner>, log: seq<Recording>)

  // ------------------------------------------------------------------- the steps

  datatype Label =
    | Append(box: Box, uid: Uid, message: Message)
    | Expunge(box: Box, uid: Uid)
    | Create(id: nat, box: Box, range: Range)
    | Claim(id: nat, rid: nat, batch: int)
    | Retry(id: nat)
    | Search(rid: nat, uids: seq<Uid>)
    | Fetch(rid: nat)
    | Store(rid: nat)
    | Checkpoint(rid: nat)
    | Record(rid: nat)
    | Complete(rid: nat)
    | Fail(rid: nat, reason: string)
    | Die(rid: nat)
    | Recover

  predicate Ascending(uids: seq<Uid>) {
    forall i, j :: 0 <= i < j < |uids| ==> uids[i] < uids[j]
  }

  /** The sorted UIDs that match the widened search, without those up to the checkpoint. */
  predicate IsSearchResult(mailbox: Mailbox, range: Range, checkpoint: Option<Uid>, uids: seq<Uid>) {
    && Ascending(uids)
    && (forall u :: u in uids ==> u in mailbox.ever)
    && forall u :: u in mailbox.ever ==>
         (u in uids <==> mailbox.Live(u) && SearchMatches(range, mailbox.ever[u].instant, mailbox.ever[u].zone)
                         && (checkpoint.Some? ==> u > checkpoint.value))
  }

  /** `range(0, n, batch)` has no further start: with a negative size it never has one,
      with size zero it raises. */
  predicate NoMoreBatches(batch: int, rest: seq<Uid>) {
    batch < 0 || (batch > 0 && rest == [])
  }

  predicate Enabled(s: State, l: Label) {
    match l
    case Append(box, uid, _) => box in s.boxes && uid >= s.boxes[box].nextUid
    case Expunge(box, uid) => box in s.boxes && s.boxes[box].Live(uid)
    case Create(id, box, _) => id !in s.jobs && box.account in s.accounts
    case Claim(id, rid, _) => IsPending(s.jobs, id) && rid !in s.runners
    case Retry(_) => true
    case Search(rid, uids) =>
      && rid in s.runners && s.runners[rid].phase.Started?
      && var r := s.runners[rid];
      && r.box.account in s.accounts && r.box in s.boxes
      && IsSearchResult(s.boxes[r.box], r.range, r.checkpoint, uids)
    case Fetch(rid) =>
      && rid in s.runners && s.runners[rid].phase.Walking?
      && s.runners[rid].batch > 0 && s.runners[rid].phase.rest != [] && s.runners[rid].box in s.boxes
    case Store(rid) => rid in s.runners && s.runners[rid].phase.Storing? && s.runners[rid].phase.todo != []
    case Checkpoint(rid) => rid in s.runners && s.runners[rid].phase.Storing? && s.runners[rid].phase.todo == []
    case Record(rid) =>
      && rid in s.runners && s.runners[rid].phase.Walking?
      && NoMoreBatches(s.runners[rid].batch, s.runners[rid].phase.rest)
    case Complete(rid) => rid in s.runners && s.runners[rid].phase.Finished?
    case Fail(rid, _) => rid in s.runners && !s.runners[rid].phase.Finished?
    case Die(rid) => rid in s.runners
    case Recover => true
  }

  function Min(a: int, b: int): int {
    if a < b then a else b
  }

  /** The insert that does nothing when the key is already present. */
  function InsertIfNew(emails: map<EmailKey, EmailRow>, key: EmailKey, row: EmailRow): map<EmailKey, EmailRow> {
    if key in emails then emails else emails[key := row]
  }

  /** Stores one fetched message if its date is in the exact range. */
  function StoredIfInRange(emails: map<EmailKey, EmailRow>, key: EmailKey, m: Message, range: Range): map<EmailKey, EmailRow> {
    if range.Contains(m.instant) then InsertIfNew(emails, key, RowOf(m)) else emails
  }

  /** What the server returns for a batch: the messages that still exist. */
  function Fetched(mailbox: Mailbox, batch: seq<Uid>): map<Uid, Message> {
    map u | u in batch && mailbox.Live(u) :: mailbox.ever[u]
  }

  function WithPhase(s: State, rid: nat, phase: Phase): map<nat, Runner>
    requires rid in s.runners
  {
    s.runners[rid := s.runners[rid].(phase := phase)]
  }

  ghost function Apply(s: State, l: Label): State
    requires Enabled(s, l)
  {
    match l
    case Append(box, uid, message) =>
      var b := s.boxes[box];
      s.(boxes := s.boxes[box := b.(ever := b.ever[uid := message], nextUid := uid + 1)])
    case Expunge(box, uid) =>
      s.(boxes := s.boxes[box := s.boxes[box].(gone := s.boxes[box].gone + {uid})])
    case Create(id, box, range) => s.(jobs := s.jobs[id := Job(box, range, Pending, None, None)])
    case Claim(id, rid, batch) =>
      var job := s.jobs[id];
      s.(jobs := Claimed(s.jobs, id),
         runners := s.runners[rid := Runner(id, job.box, job.range, job.checkpoint, batch, 0, 0, Started)])
    case Retry(id) => s.(jobs := Retried(s.jobs, id))
    case Search(rid, uids) =>
      var b := s.boxes[s.runners[rid].box];
      s.(runners := s.runners[rid := s.runners[rid].(validity := b.validity, horizon := b.nextUid, phase := Walking(uids))])
    case Fetch(rid) =>
      var r := s.runners[rid];
      var n := Min(r.batch, |r.phase.rest|);
      var chunk := r.phase.rest[..n];
      s.(runners := WithPhase(s, rid, Storing(chunk, chunk[n - 1], Fetched(s.boxes[r.box], chunk), r.phase.rest[n..])))
    case Store(rid) =>
      var r := s.runners[rid];
      var u := r.phase.todo[0];
      var emails := if u in r.phase.fetched
                    then StoredIfInRange(s.emails, EmailKey(r.box, r.validity, u), r.phase.fetched[u], r.range)
                    else s.emails;
      s.(emails := emails, runners := WithPhase(s, rid, r.phase.(todo := r.phase.todo[1..])))
    case Checkpoint(rid) =>
      var r := s.runners[rid];
      s.(jobs := Checkpointed(s.jobs, r.job, r.phase.last), runners := WithPhase(s, rid, Walking(r.phase.rest)))
    case Record(rid) =>
      var r := s.runners[rid];
      s.(coverage := Merge(s.coverage, Segment(r.box, r.range)),
         log := s.log + [Recording(r.box, r.range, r.horizon)],
         runners := WithPhase(s, rid, Finished))
    case Complete(rid) => s.(jobs := Completed(s.jobs, s.runners[rid].job), runners := s.runners - {rid})
    case Fail(rid, reason) => s.(jobs := Failing(s.jobs, s.runners[rid].job, reason), runners := s.runners - {rid})
    case Die(rid) => s.(runners := s.runners - {rid})
    case Recover => s.(jobs := Recovered(s.jobs))
  }

  /** The state after a run, if every step is possible. */
  ghost function Run(s: State, ls: seq<Label>): Option<State> {
    if ls == [] then Some(s) else
    var before := Run(s, ls[..|ls| - 1]);
    var l := ls[|ls| - 1];
    if before.Some? && Enabled(before.value, l) then Some(Apply(before.value, l)) else None
  }

  lemma {:induction false} RunStep(s: State, ls: seq<Label>, l: Label)
    requires Run(s, ls).Some? && Enabled(Run(s, ls).value, l)
    ensures Run(s, ls + [l]) == Some(Apply(Run(s, ls).value, l))
  {
    assert (ls + [l])[..|ls|] == ls;
  }

  lemma {:induction false} RunConcat(s: State, ls: seq<Label>, ls': seq<Label>)
    requires Run(s, ls).Some?
    ensures Run(s, ls + ls') == Run(Run(s, ls).value, ls')
  {
    if ls' == [] {
      assert ls + ls' == ls;
    } else {
      var last := |ls'| - 1;
      RunConcat(s, ls, ls'[..last]);
      assert (ls + ls')[..|ls + ls'| - 1] == ls + ls'[..last];
    }
  }

  /** Every prefix of a run is a run. */
  lemma {:induction false} RunPrefix(s: State, ls: seq<Label>, n: nat)
    requires Run(s, ls).Some? && n <= |ls|
    ensures Run(s, ls[..n]).Some?
    ensures n < |ls| ==> Enabled(Run(s, ls[..n]).value, ls[n]) &&
                         Run(s, ls[..n + 1]) == Some(Apply(Run(s, ls[..n]).value, ls[n]))
  {
    if n == |ls| {
      assert ls[..n] == ls;
    } else if n < |ls| - 1 {
      var init := ls[..|ls| - 1];
      RunPrefix(s, init, n);
      assert init[..n] == ls[..n] && init[..n + 1] == ls[..n + 1];
    } else {
      assert ls[..n + 1] == ls;
    }
  }
}
