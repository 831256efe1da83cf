/** Resuming can always succeed: from every resumable state some quiet run finishes the job
    (src/heron/worker/runner.py). */
module Completion {
  import opened Wrappers
  import opened Ranges
  import opened Ingestion
  import opened CrashResume

  // ------------------------------------------------------------------ runs in sequence

  lemma {:induction false} RunThen(s: State, ls: seq<Label>, mid: State, ls': seq<Label>, end: State)
    requires Run(s, ls) == Some(mid) && Run(mid, ls') == Some(end)
    ensures Run(s, ls + ls') == Some(end)
  {
    RunConcat(s, ls, ls');
  }

  lemma {:induction false} RunOne(s: State, l: Label)
    requires Enabled(s, l)
    ensures Run(s, [l]) == Some(Apply(s, l))
  {
    RunStep(s, [], l);
    assert [] + [l] == [l];
  }

  /** Steps of a walk by this runner. */
  predicate IsWalk(l: Label, rid: nat) {
    l == Fetch(rid) || l == Store(rid) || l == Checkpoint(rid)
  }

  predicate AllWalk(ls: seq<Label>, rid: nat) {
    forall l :: l in ls ==> IsWalk(l, rid)
  }

  // ------------------------------------------------------------------ the server's answer

  lemma {:induction false} Greatest(uids: set<Uid>) returns (m: Uid)
    requires uids != {}
    ensures m in uids && forall u :: u in uids ==> u <= m
    decreases |uids|
  {
    var x :| x in uids;
    var others := uids - {x};
    m := x;
    if others != {} {
      var g := Greatest(others);
      m := if g < x then x else g;
    }
    assert forall u :: u in uids ==> u == x || u in others;
  }

  lemma {:induction false} InOrder(uids: set<Uid>) returns (list: seq<Uid>)
    ensures Ascending(list) && forall u :: u in list <==> u in uids
    decreases |uids|
  {
    if uids == {} {
      list := [];
    } else {
      var m := Greatest(uids);
      var rest := InOrder(uids - {m});
      list := rest + [m];
      forall i | 0 <= i < |rest| ensures rest[i] < m {
        assert rest[i] in rest;
      }
    }
  }

  lemma {:induction false} SearchHasAnswer(mailbox: Mailbox, range: Range,
                                           checkpoint: Option<Uid>) returns (uids: seq<Uid>)
    ensures IsSearchResult(mailbox, range, checkpoint, uids)
  {
    uids := InOrder(set u | u in mailbox.ever && mailbox.Live(u)
                            && SearchMatches(range, mailbox.ever[u].instant, mailbox.ever[u].zone)
                            && (checkpoint.Some? ==> u > checkpoint.value));
  }

  // ------------------------------------------------------------------ one job to the end

  /** `t` is `s` further on: the runner differs in its phase only, and nobody else moved. */
  predicate Onward(s: State, t: State, rid: nat) {
    && t.accounts == s.accounts && t.boxes == s.boxes && t.jobs.Keys == s.jobs.Keys
    && rid in s.runners && rid in t.runners && t.runners[rid].(phase := s.runners[rid].phase) == s.runners[rid]
  }

  lemma {:induction false} StoreOut(s: State, rid: nat) returns (ls: seq<Label>, t: State)
    requires rid in s.runners && s.runners[rid].phase.Storing?
    ensures AllWalk(ls, rid) && Run(s, ls) == Some(t) && Onward(s, t, rid)
    ensures t.runners[rid].phase == s.runners[rid].phase.(todo := [])
    decreases |s.runners[rid].phase.todo|
  {
    if s.runners[rid].phase.todo == [] {
      ls, t := [], s;
    } else {
      var mid := Apply(s, Store(rid));
      RunOne(s, Store(rid));
      var rest;
      rest, t := StoreOut(mid, rid);
      RunThen(s, [Store(rid)], mid, rest, t);
      ls := [Store(rid)] + rest;
    }
  }

  lemma {:induction false} WalkOne(s: State, rid: nat) returns (ls: seq<Label>, t: State)
    requires rid in s.runners && s.runners[rid].phase.Walking? && s.runners[rid].phase.rest != []
    requires s.runners[rid].batch > 0 && s.runners[rid].box in s.boxes
    ensures AllWalk(ls, rid) && Run(s, ls) == Some(t) && Onward(s, t, rid)
    ensures t.runners[rid].phase.Walking? && |t.runners[rid].phase.rest| < |s.runners[rid].phase.rest|
  {
    var fetched := Apply(s, Fetch(rid));
    RunOne(s, Fetch(rid));
    var stores, stored := StoreOut(fetched, rid);
    RunThen(s, [Fetch(rid)], fetched, stores, stored);
    t := Apply(stored, Checkpoint(rid));
    RunStep(s, [Fetch(rid)] + stores, Checkpoint(rid));
    ls := [Fetch(rid)] + stores + [Checkpoint(rid)];
  }

  lemma {:induction false} WalkOut(s: State, rid: nat) returns (ls: seq<Label>, t: State)
    requires rid in s.runners && s.runners[rid].phase.Walking?
    requires s.runners[rid].batch > 0 && s.runners[rid].box in s.boxes
    ensures AllWalk(ls, rid) && Run(s, ls) == Some(t) && Onward(s, t, rid)
    ensures t.runners[rid].phase == Walking([])
    decreases |s.runners[rid].phase.rest|
  {
    if s.runners[rid].phase.rest == [] {
      ls, t := [], s;
    } else {
      var first, mid := WalkOne(s, rid);
      var rest;
      rest, t := WalkOut(mid, rid);
      RunThen(s, first, mid, rest, t);
      ls := first + rest;
    }
  }

  /** The job is retried, claimed with this batch size, and searched. */
  lemma {:induction false} Begin(s: State, job: nat, batch: int) returns (ls: seq<Label>, t: State)
    requires Resumable(s, job) && s.jobs[job].box.account in s.accounts && batch > 0
    ensures Run(s, ls) == Some(t) && forall l :: l in ls ==> QuietFor(l, job) && (l.Claim? ==> l.batch == batch)
    ensures t.jobs.Keys == s.jobs.Keys && 0 in t.runners && t.runners[0].phase.Walking?
    ensures t.runners[0].job == job && t.runners[0].batch == batch && t.runners[0].box in t.boxes
  {
    var retry, claim := Retry(job), Claim(job, 0, batch);
    var s1 := Apply(s, retry);
    RunOne(s, retry);
    var s2 := Apply(s1, claim);
    RunStep(s, [retry], claim);
    var uids := SearchHasAnswer(s2.boxes[s2.runners[0].box], s2.runners[0].range, s2.runners[0].checkpoint);
    RunStep(s, [retry] + [claim], Search(0, uids));
    t := Apply(s2, Search(0, uids));
    ls := [retry] + [claim] + [Search(0, uids)];
  }

  /** With no batch left the range is recorded and the job done. */
  lemma {:induction false} End(s: State, rid: nat) returns (ls: seq<Label>, t: State)
    requires rid in s.runners && s.runners[rid].phase == Walking([]) && s.runners[rid].batch > 0
    requires s.runners[rid].job in s.jobs
    ensures ls == [Record(rid), Complete(rid)] && Run(s, ls) == Some(t) && IsDone(t, s.runners[rid].job)
  {
    ls := [Record(rid)] + [Complete(rid)];
    RunOne(s, Record(rid));
    RunStep(s, [Record(rid)], Complete(rid));
    t := Apply(Apply(s, Record(rid)), Complete(rid));
  }

  /** From every resumable state, whatever interrupted the job before, and for every batch size
      of at least one, there is a quiet run that finishes it, with the emails of a one-shot fetch. */
  lemma {:induction false} EveryJobCanFinish(s: State, job: nat, batch: int) returns (ls: seq<Label>)
    requires Resumable(s, job) && s.jobs[job].box.account in s.accounts && batch > 0
    ensures forall l :: l in ls ==> QuietFor(l, job) && (l.Claim? ==> l.batch == batch)
    ensures Run(s, ls).Some? && IsDone(Run(s, ls).value, job)
    ensures Run(s, ls).value.emails == OneShot(s.emails, s.jobs[job].box, s.boxes[s.jobs[job].box], s.jobs[job].range)
  {
    var begin, begun := Begin(s, job, batch);
    var walk, walked := WalkOut(begun, 0);
    RunThen(s, begin, begun, walk, walked);
    var end, done := End(walked, 0);
    RunThen(s, begin + walk, walked, end, done);
    ls := begin + walk + end;
    ResumedEqualsOneShot(s, ls, job);
  }
}
