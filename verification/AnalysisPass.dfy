/** The analysis pass: keyset paging over a query whose answer shrinks while it is walked
    (src/heron/worker/analysis.py, the work-finding queries of src/heron/core/analysis_storage.py). */
module AnalysisPass {
  import opened Wrappers
  import opened Alerts

  /** What happens when a stored message is analysed: its file cannot be read, the pipeline
      raises, or it yields a score and a verdict under the current rules. */
  datatype Outcome = Unreadable | Raises | Scored(score: int, verdict: Verdict)

  /** Which emails a pass is about: those without an analysis, or those with an old one. */
  datatype Kind = Missing | Stale

  /** The emails in id order, what analysing each yields and when, and the current rules. */
  datatype Emails = Emails(ids: seq<nat>, outcome: nat -> Outcome, stamp: nat -> int, rulesVersion: string)

  predicate Ascending(ids: seq<nat>) {
    forall i, j :: 0 <= i < j < |ids| ==> ids[i] < ids[j]
  }

  /** Row ids start at 1. */
  predicate EmailsOk(e: Emails) {
    Ascending(e.ids) && forall id :: id in e.ids ==> id >= 1
  }

  predicate NeedsWork(kind: Kind, rulesVersion: string, analyses: map<nat, Analysis>, id: nat) {
    match kind
    case Missing => id !in analyses
    case Stale => id in analyses && analyses[id].rulesVersion != rulesVersion
  }

  /** The query: ids after `afterId` that need work, in order. */
  function Pending(kind: Kind, rulesVersion: string, analyses: map<nat, Analysis>, ids: seq<nat>, afterId: nat): (r: seq<nat>)
    ensures forall id :: id in r <==> id in ids && id > afterId && NeedsWork(kind, rulesVersion, analyses, id)
  {
    if ids == [] then [] else
    (if ids[0] > afterId && NeedsWork(kind, rulesVersion, analyses, ids[0]) then [ids[0]] else [])
    + Pending(kind, rulesVersion, analyses, ids[1..], afterId)
  }

  /** LIMIT: a negative limit is no limit. */
  function Limit(ids: seq<nat>, limit: int): seq<nat> {
    if limit < 0 || limit >= |ids| then ids else ids[..limit]
  }

  lemma {:induction false} PendingAscending(kind: Kind, v: string, analyses: map<nat, Analysis>, ids: seq<nat>,
                                            afterId: nat)
    requires Ascending(ids)
    ensures Ascending(Pending(kind, v, analyses, ids, afterId))
  {
    if ids != [] {
      PendingAscending(kind, v, analyses, ids[1..], afterId);
      var rest := Pending(kind, v, analyses, ids[1..], afterId);
      forall j | 0 <= j < |rest| ensures ids[0] < rest[j] {
        assert rest[j] in rest && rest[j] in ids[1..];
      }
    }
  }

  /** Ascending lists with the same elements are equal. */
  lemma {:induction false} AscendingUnique(a: seq<nat>, b: seq<nat>)
    requires Ascending(a) && Ascending(b) && forall x :: x in a <==> x in b
    ensures a == b
  {
    if a == [] {
      HasElement(b);
    } else {
      assert a[0] in b && b != [] && b[0] in a;
      assert a[0] == b[0];
      forall x ensures x in a[1..] <==> x in b[1..] {
        InTail(a, x);
        InTail(b, x);
      }
      AscendingUnique(a[1..], b[1..]);
    }
  }

  lemma {:induction false} HasElement(a: seq<nat>)
    ensures a != [] ==> exists x :: x in a
  {
    if a != [] { assert a[0] in a; }
  }

  lemma {:induction false} InTail(a: seq<nat>, x: nat)
    requires Ascending(a) && a != []
    ensures x in a[1..] <==> x in a && x != a[0]
  {
    assert a == [a[0]] + a[1..];
  }

  // ------------------------------------------------------------------ what a pass does

  function AssessmentOf(e: Emails, id: nat): Assessment
    requires e.outcome(id).Scored?
  {
    Assessment(e.outcome(id).score, e.outcome(id).verdict, e.rulesVersion)
  }

  /** Attempting the listed emails one by one. */
  ghost function AfterAttempts(s: Store, e: Emails, ids: seq<nat>): Store {
    if ids == [] then s else
    var before := AfterAttempts(s, e, ids[..|ids| - 1]);
    var id := ids[|ids| - 1];
    if e.outcome(id).Scored? then Assessed(before, id, AssessmentOf(e, id), e.stamp(id)) else before
  }

  /** How many of the listed emails are scored. */
  function CountScored(e: Emails, ids: seq<nat>): nat {
    if ids == [] then 0 else CountScored(e, ids[..|ids| - 1]) + if e.outcome(ids[|ids| - 1]).Scored? then 1 else 0
  }

  /** Exactly the scored ones of the attempted emails get a new analysis. */
  lemma {:induction false} AttemptsAnalyse(s: Store, e: Emails, ids: seq<nat>, id: nat)
    ensures var after := AfterAttempts(s, e, ids).analyses;
            && (id in ids && e.outcome(id).Scored? ==>
                  id in after && Mirrors'(after[id], e, id))
            && (!(id in ids && e.outcome(id).Scored?) ==>
                  (id in after <==> id in s.analyses) && (id in after ==> after[id] == s.analyses[id]))
  {
    if ids != [] {
      assert ids == ids[..|ids| - 1] + [ids[|ids| - 1]];
      AttemptsAnalyse(s, e, ids[..|ids| - 1], id);
    }
  }

  predicate Mirrors'(a: Analysis, e: Emails, id: nat) {
    e.outcome(id).Scored? && a == Analysis(e.outcome(id).score, e.outcome(id).verdict, e.rulesVersion, e.stamp(id))
  }

  /** After attempting the first `k` of the initially pending emails, the query after the last of
      them returns exactly the rest: saving results does not disturb the walk. */
  lemma {:induction false} QueryReturnsRest(kind: Kind, s: Store, e: Emails, all: seq<nat>, k: nat, afterId: nat)
    requires EmailsOk(e) && all == Pending(kind, e.rulesVersion, s.analyses, e.ids, 0) && k <= |all|
    requires afterId == if k == 0 then 0 else all[k - 1]
    ensures Pending(kind, e.rulesVersion, AfterAttempts(s, e, all[..k]).analyses, e.ids, afterId) == all[k..]
  {
    var now := AfterAttempts(s, e, all[..k]).analyses;
    var rest := Pending(kind, e.rulesVersion, now, e.ids, afterId);
    PendingAscending(kind, e.rulesVersion, s.analyses, e.ids, 0);
    PendingAscending(kind, e.rulesVersion, now, e.ids, afterId);
    forall id ensures id in rest <==> id in all[k..] {
      AttemptsAnalyse(s, e, all[..k], id);
      SplitAscending(all, k, id);
    }
    AscendingUnique(rest, all[k..]);
  }

  lemma {:induction false} SplitAscending(all: seq<nat>, k: nat, id: nat)
    requires Ascending(all) && k <= |all| && forall x :: x in all ==> x >= 1
    ensures var afterId := if k == 0 then 0 else all[k - 1];
            (id in all[k..] <==> id in all && id > afterId) && (id in all[..k] ==> id <= afterId)
  {
    if id in all {
      var i :| 0 <= i < |all| && all[i] == id;
      InSlices(all, k, i);
      if k > 0 { assert i < k - 1 ==> all[i] < all[k - 1]; }
    }
    if id in all[k..] { assert id in all; }
  }

  /** Where the `i`th element lies when a list without repetition is cut. */
  lemma {:induction false} InSlices(all: seq<nat>, k: nat, i: nat)
    requires Ascending(all) && k <= |all| && i < |all|
    ensures all[i] in all[k..] <==> i >= k
    ensures all[i] in all[..k] <==> i < k
  {
    if i >= k { assert all[k..][i - k] == all[i]; } else { assert all[..k][i] == all[i]; }
  }

  /** After a pass only unreadable emails are left, so a second pass saves nothing. */
  lemma {:induction false} SecondPassSavesNothing(kind: Kind, s: Store, e: Emails)
    requires EmailsOk(e)
    ensures var all := Pending(kind, e.rulesVersion, s.analyses, e.ids, 0);
            var left := Pending(kind, e.rulesVersion, AfterAttempts(s, e, all).analyses, e.ids, 0);
            && (forall id :: id in left <==> id in all && !e.outcome(id).Scored?)
            && CountScored(e, left) == 0
            && AfterAttempts(AfterAttempts(s, e, all), e, left) == AfterAttempts(s, e, all)
  {
    var all := Pending(kind, e.rulesVersion, s.analyses, e.ids, 0);
    var left := Pending(kind, e.rulesVersion, AfterAttempts(s, e, all).analyses, e.ids, 0);
    forall id ensures id in left <==> id in all && !e.outcome(id).Scored? {
      AttemptsAnalyse(s, e, all, id);
    }
    NoneScored(AfterAttempts(s, e, all), e, left);
  }

  lemma {:induction false} NoneScored(s: Store, e: Emails, ids: seq<nat>)
    requires forall id :: id in ids ==> !e.outcome(id).Scored?
    ensures CountScored(e, ids) == 0 && AfterAttempts(s, e, ids) == s
  {
    if ids != [] {
      NoneScored(s, e, ids[..|ids| - 1]);
      assert ids[|ids| - 1] in ids;
    }
  }

  // ------------------------------------------------------------------ the pass in place

  datatype PassError = PipelineRaised(id: nat)

  class Analyzer {
    const emails: Emails
    const alertStore: AlertStore
    // Every call of `AnalyzeStoredEmail`, in order.
    ghost var attempts: seq<nat>

    constructor (emails: Emails, alertStore: AlertStore)
      ensures this.emails == emails && this.alertStore == alertStore && attempts == []
    {
      this.emails, this.alertStore, attempts := emails, alertStore, [];
    }

    /** The pending emails after `afterId`, at most `limit` of them. */
    method Fetch(kind: Kind, afterId: nat, limit: int) returns (batch: seq<nat>)
      ensures batch == Limit(Pending(kind, emails.rulesVersion, alertStore.store.analyses, emails.ids, afterId), limit)
    {
      batch := Limit(Pending(kind, emails.rulesVersion, alertStore.store.analyses, emails.ids, afterId), limit);
    }

    /** Analyses one stored message and saves the result. False if it could not be read. */
    method AnalyzeStoredEmail(id: nat) returns (result: Result<bool, PassError>)
      requires alertStore.Valid()
      modifies this`attempts, alertStore
      ensures alertStore.Valid() && attempts == old(attempts) + [id]
      ensures result.Err? <==> emails.outcome(id).Raises?
      ensures result.Err? ==> result.error == PipelineRaised(id) && alertStore.store == old(alertStore.store)
      ensures result.Ok? ==> result.value == emails.outcome(id).Scored?
      ensures alertStore.store == AfterAttempts(old(alertStore.store), emails, [id])
    {
      attempts := attempts + [id];
      OneAttempt(alertStore.store, emails, id);
      match emails.outcome(id) {
        case Unreadable => result := Ok(false);
        case Raises => result := Err(PipelineRaised(id));
        case Scored(_, _) =>
          var _ := alertStore.RecordAssessment(id, AssessmentOf(emails, id), emails.stamp(id));
          result := Ok(true);
      }
    }

    /** One page: attempts its emails one by one until one raises. `n` counts the attempts. */
    method AttemptBatch(batch: seq<nat>) returns (result: Result<nat, PassError>, ghost n: nat)
      requires alertStore.Valid()
      modifies this`attempts, alertStore
      ensures alertStore.Valid() && n <= |batch| && attempts == old(attempts) + batch[..n]
      ensures alertStore.store == AfterAttempts(old(alertStore.store), emails, batch[..n])
      ensures result.Ok? ==> n == |batch| && NoneRaises(emails, batch) && result.value == CountScored(emails, batch)
      ensures result.Err? ==> Raised(emails, batch[..n], result.error)
    {
      var saved, i := 0, 0;
      while i < |batch|
        invariant 0 <= i <= |batch| && alertStore.Valid()
        invariant attempts == old(attempts) + batch[..i]
        invariant alertStore.store == AfterAttempts(old(alertStore.store), emails, batch[..i])
        invariant saved == CountScored(emails, batch[..i])
        invariant NoneRaises(emails, batch[..i])
      {
        OneMoreAttempt(old(alertStore.store), emails, batch[..i], batch[i]);
        assert batch[..i] + [batch[i]] == batch[..i + 1];
        var analysed := AnalyzeStoredEmail(batch[i]);
        if analysed.Err? {
          return Err(analysed.error), i + 1;
        }
        if analysed.value {
          saved := saved + 1;
        }
        i := i + 1;
      }
      assert batch[..i] == batch;
      return Ok(saved), i;
    }

    /** Attempts a page: the next emails of `all` after the first `k`. */
    method AttemptPage(batch: seq<nat>, saved: nat, ghost afterId: nat,
                       ghost before: Store, ghost all: seq<nat>, ghost k: nat)
      returns (saved': nat, lastId: nat, error: Option<PassError>, ghost n: nat)
      requires alertStore.Valid() && batch != [] && k <= |all| && batch <= all[k..]
      requires At(before, alertStore.store, emails, all, k, saved, afterId)
      modifies this`attempts, alertStore
      ensures alertStore.Valid() && k < n <= |all| && attempts == old(attempts) + all[k..n]
      ensures error.None? ==> At(before, alertStore.store, emails, all, n, saved', lastId)
      ensures error.Some? ==> Stopped(before, alertStore.store, emails, all, n, error.value)
    {
      ghost var mid := alertStore.store;
      var result, tried := AttemptBatch(batch);
      n := k + tried;
      PageSlice(all, k, batch, tried);
      saved', lastId, error := saved, batch[|batch| - 1], None;
      match result {
        case Err(e) =>
          PageStopped(before, mid, alertStore.store, emails, all, k, batch, tried, e);
          error := Some(e);
        case Ok(count) =>
          assert batch[..|batch|] == batch;
          PageDone(before, mid, alertStore.store, emails, all, k, saved, afterId, batch);
          saved' := saved + count;
      }
    }

    /** Fetches the page after `afterId` and attempts it. False when there is nothing to do. */
    method WalkPage(kind: Kind, batchSize: int, saved: nat, afterId: nat,
                    ghost before: Store, ghost all: seq<nat>, ghost k: nat)
      returns (more: bool, saved': nat, lastId: nat, error: Option<PassError>, ghost n: nat)
      requires EmailsOk(emails) && alertStore.Valid()
      requires all == Pending(kind, emails.rulesVersion, before.analyses, emails.ids, 0) && k <= |all|
      requires At(before, alertStore.store, emails, all, k, saved, afterId)
      modifies this`attempts, alertStore
      ensures alertStore.Valid()
      ensures !more ==> (k == |all| || batchSize == 0)
                        && alertStore.store == old(alertStore.store) && attempts == old(attempts)
      ensures more ==> batchSize != 0 && k < n <= |all| && attempts == old(attempts) + all[k..n]
      ensures more && error.None? ==> At(before, alertStore.store, emails, all, n, saved', lastId)
      ensures more && error.Some? ==> Stopped(before, alertStore.store, emails, all, n, error.value)
    {
      NextPage(kind, before, alertStore.store, emails, all, k, afterId, batchSize);
      var batch := Fetch(kind, afterId, batchSize);
      if batch == [] {
        return false, saved, afterId, None, k;
      }
      more := true;
      saved', lastId, error, n := AttemptPage(batch, saved, afterId, before, all, k);
    }

    /** Walks the pending emails page by page. Every initially pending email is attempted exactly
        once and in order, although saving results changes what the query returns, and unreadable
        ones stay pending. The pass ends early only when the pipeline raises. */
    method Run(kind: Kind, batchSize: int) returns (result: Result<nat, PassError>, ghost attempted: seq<nat>)
      requires EmailsOk(emails) && alertStore.Valid()
      modifies this`attempts, alertStore
      ensures alertStore.Valid() && attempts == old(attempts) + attempted
      ensures IsPass(kind, old(alertStore.store), alertStore.store, emails, batchSize, attempted, result)
    {
      ghost var before := alertStore.store;
      ghost var all := Pending(kind, emails.rulesVersion, before.analyses, emails.ids, 0);
      ghost var k := 0;
      var saved, afterId := 0, 0;
      while true
        invariant alertStore.Valid() && At(before, alertStore.store, emails, all, k, saved, afterId)
        invariant k <= |all| && (batchSize == 0 ==> k == 0)
        invariant attempts == old(attempts) + all[..k]
        decreases |all| - k
      {
        var more, saved', lastId, error, n := WalkPage(kind, batchSize, saved, afterId, before, all, k);
        if !more {
          AtEndIsPass(kind, before, alertStore.store, emails, batchSize, all, k, saved, afterId);
          return Ok(saved), all[..k];
        }
        SlicesJoin(old(attempts), all, k, n);
        if error.Some? {
          StoppedIsPass(kind, before, alertStore.store, emails, batchSize, all, n, error.value);
          return Err(error.value), all[..n];
        }
        saved, afterId, k := saved', lastId, n;
      }
    }
  }

  lemma {:induction false} SlicesJoin(past: seq<nat>, all: seq<nat>, k: nat, n: nat)
    requires k <= n <= |all|
    ensures past + all[..k] + all[k..n] == past + all[..n]
  {
    assert all[..k] + all[k..n] == all[..n];
  }

  predicate NoneRaises(e: Emails, ids: seq<nat>) {
    forall i :: 0 <= i < |ids| ==> !e.outcome(ids[i]).Raises?
  }

  /** The last of the attempted emails, and no other, raised. */
  predicate Raised(e: Emails, ids: seq<nat>, error: PassError) {
    && ids != [] && NoneRaises(e, ids[..|ids| - 1])
    && e.outcome(ids[|ids| - 1]).Raises? && error == PipelineRaised(ids[|ids| - 1])
  }

  /** What a pass does: it attempts each initially pending email once, in order, up to one that
      raises, and saves exactly what those attempts yield. */
  ghost predicate IsPass(kind: Kind, before: Store, after: Store, e: Emails, batchSize: int,
                         attempted: seq<nat>, result: Result<nat, PassError>)
  {
    var all := Pending(kind, e.rulesVersion, before.analyses, e.ids, 0);
    && attempted <= all && after == AfterAttempts(before, e, attempted)
    && match result {
         case Ok(saved) =>
           && attempted == (if batchSize == 0 then [] else all)
           && NoneRaises(e, attempted) && saved == CountScored(e, attempted)
         case Err(error) => Raised(e, attempted, error)
       }
  }

  /** An immediate second pass, of any batch size, succeeds, saves nothing and changes nothing;
      it attempts only emails that could not be read. */
  lemma {:induction false} SecondPassReturnsZero(kind: Kind, before: Store, after: Store, again: Store, e: Emails,
                                                 batchSize: int, first: seq<nat>, saved: nat, batchSize': int,
                                                 second: seq<nat>, result: Result<nat, PassError>)
    requires EmailsOk(e) && batchSize != 0
    requires IsPass(kind, before, after, e, batchSize, first, Ok(saved))
    requires IsPass(kind, after, again, e, batchSize', second, result)
    ensures result == Ok(0) && again == after
    ensures forall id :: id in second ==> e.outcome(id).Unreadable?
  {
    var left := Pending(kind, e.rulesVersion, after.analyses, e.ids, 0);
    SecondPassSavesNothing(kind, before, e);
    forall id | id in left ensures e.outcome(id).Unreadable? {
      var i :| 0 <= i < |first| && first[i] == id;
    }
    forall id | id in second ensures id in left {
      var i :| 0 <= i < |second| && second[i] == id;
      assert left[i] == id;
    }
    NoneScored(after, e, second);
  }

  /** After a pass that finished, every readable email is analysed, and those that were analysed
      before keep their analysis. */
  lemma {:induction false} EveryReadableIsAnalysed(before: Store, after: Store, e: Emails, batchSize: int,
                                                   attempted: seq<nat>, saved: nat)
    requires IsPass(Missing, before, after, e, batchSize, attempted, Ok(saved)) && batchSize != 0 && EmailsOk(e)
    ensures forall id :: id in e.ids && e.outcome(id).Scored? ==> id in after.analyses
    ensures forall id :: id in before.analyses ==> id in after.analyses && after.analyses[id] == before.analyses[id]
    ensures forall id :: id in after.analyses && id !in before.analyses ==>
              && id in e.ids && e.outcome(id).Scored? && after.analyses[id].rulesVersion == e.rulesVersion
              && after.analyses[id].score == e.outcome(id).score && after.analyses[id].verdict == e.outcome(id).verdict
  {
    PendingIs(Missing, e, before);
    forall id ensures (id in e.ids && e.outcome(id).Scored? ==> id in after.analyses)
                      && (id in before.analyses ==> id in after.analyses && after.analyses[id] == before.analyses[id])
    {
      AttemptsAnalyse(before, e, attempted, id);
    }
    forall id | id in after.analyses && id !in before.analyses
      ensures id in e.ids && e.outcome(id).Scored? && after.analyses[id].rulesVersion == e.rulesVersion
              && after.analyses[id].score == e.outcome(id).score && after.analyses[id].verdict == e.outcome(id).verdict
    {
      AttemptsAnalyse(before, e, attempted, id);
    }
  }

  /** After a re-analysis that finished, every readable analysed email is analysed under the current
      rules, nothing was analysed for the first time, and current analyses are kept. */
  lemma {:induction false} NoReadableIsStale(before: Store, after: Store, e: Emails, batchSize: int,
                                             attempted: seq<nat>, saved: nat)
    requires IsPass(Stale, before, after, e, batchSize, attempted, Ok(saved)) && batchSize != 0 && EmailsOk(e)
    ensures after.analyses.Keys == before.analyses.Keys
    ensures forall id :: id in e.ids && id in before.analyses && e.outcome(id).Scored? ==>
              after.analyses[id].rulesVersion == e.rulesVersion
    ensures forall id :: id in before.analyses && before.analyses[id].rulesVersion == e.rulesVersion ==>
              after.analyses[id] == before.analyses[id]
  {
    PendingIs(Stale, e, before);
    forall id ensures id in after.analyses <==> id in before.analyses {
      AttemptsAnalyse(before, e, attempted, id);
    }
    forall id | id in before.analyses
      ensures id in e.ids && e.outcome(id).Scored? ==> after.analyses[id].rulesVersion == e.rulesVersion
      ensures before.analyses[id].rulesVersion == e.rulesVersion ==> after.analyses[id] == before.analyses[id]
    {
      AttemptsAnalyse(before, e, attempted, id);
    }
  }

  /** The work that is found: emails without an analysis, or with one of another version. */
  lemma {:induction false} PendingIs(kind: Kind, e: Emails, s: Store)
    requires EmailsOk(e)
    ensures forall id :: id in Pending(kind, e.rulesVersion, s.analyses, e.ids, 0) <==>
              id in e.ids && if kind == Missing then id !in s.analyses
                             else id in s.analyses && s.analyses[id].rulesVersion != e.rulesVersion
  {
  }

  function Readable(e: Emails, ids: seq<nat>): set<nat> {
    set id | id in ids && e.outcome(id).Scored?
  }

  lemma {:induction false} ReadableLast(e: Emails, init: seq<nat>, last: nat)
    ensures Readable(e, init + [last]) == Readable(e, init) + if e.outcome(last).Scored? then {last} else {}
  {
    assert forall id :: id in init + [last] <==> id in init || id == last;
  }

  /** The number saved is how many of the attempted emails were readable. */
  lemma {:induction false} CountScoredIs(e: Emails, ids: seq<nat>)
    requires Ascending(ids)
    ensures CountScored(e, ids) == |Readable(e, ids)|
  {
    if ids == [] {
      assert Readable(e, ids) == {};
    } else {
      var init, last := ids[..|ids| - 1], ids[|ids| - 1];
      CountScoredIs(e, init);
      ReadableLast(e, init, last);
      assert ids == init + [last];
      OneMore(Readable(e, init), last);
    }
  }

  lemma {:induction false} OneMore(some: set<nat>, id: nat)
    requires id !in some
    ensures |some + {id}| == |some| + 1 && some + {} == some
  {
  }

  /** The first `n` of all pending emails were attempted without raising. */
  ghost predicate Walked(before: Store, after: Store, e: Emails, all: seq<nat>, n: nat) {
    n <= |all| && after == AfterAttempts(before, e, all[..n]) && NoneRaises(e, all[..n])
  }

  /** The pass stands after the first `n` pending emails. */
  ghost predicate At(before: Store, now: Store, e: Emails, all: seq<nat>, n: nat, saved: nat, afterId: nat) {
    && Walked(before, now, e, all, n)
    && afterId == (if n == 0 then 0 else all[n - 1])
    && saved == CountScored(e, all[..n])
  }

  /** The `n`th attempt raised. */
  ghost predicate Stopped(before: Store, now: Store, e: Emails, all: seq<nat>, n: nat, error: PassError) {
    n <= |all| && now == AfterAttempts(before, e, all[..n]) && Raised(e, all[..n], error)
  }

  lemma {:induction false} AtEndIsPass(kind: Kind, before: Store, now: Store, e: Emails, batchSize: int,
                                       all: seq<nat>, k: nat, saved: nat, afterId: nat)
    requires all == Pending(kind, e.rulesVersion, before.analyses, e.ids, 0)
    requires At(before, now, e, all, k, saved, afterId) && k == if batchSize == 0 then 0 else |all|
    ensures IsPass(kind, before, now, e, batchSize, all[..k], Ok(saved))
  {
    assert all[..|all|] == all;
  }

  lemma {:induction false} StoppedIsPass(kind: Kind, before: Store, now: Store, e: Emails, batchSize: int,
                                         all: seq<nat>, n: nat, error: PassError)
    requires all == Pending(kind, e.rulesVersion, before.analyses, e.ids, 0)
    requires Stopped(before, now, e, all, n, error)
    ensures IsPass(kind, before, now, e, batchSize, all[..n], Err(error))
  {
  }

  lemma {:induction false} NextPage(kind: Kind, before: Store, now: Store, e: Emails, all: seq<nat>, k: nat,
                                    afterId: nat, limit: int)
    requires EmailsOk(e) && all == Pending(kind, e.rulesVersion, before.analyses, e.ids, 0)
    requires Walked(before, now, e, all, k) && afterId == if k == 0 then 0 else all[k - 1]
    ensures var batch := Limit(Pending(kind, e.rulesVersion, now.analyses, e.ids, afterId), limit);
            batch <= all[k..] && (batch == [] <==> k == |all| || limit == 0)
  {
    QueryReturnsRest(kind, before, e, all, k, afterId);
  }

  lemma {:induction false} PageSlice(all: seq<nat>, k: nat, batch: seq<nat>, n: nat)
    requires k <= |all| && batch <= all[k..] && n <= |batch|
    ensures k + |batch| <= |all| && batch[..n] == all[k..k + n] && all[..k] + batch[..n] == all[..k + n]
  {
    assert batch == all[k..][..|batch|];
  }

  /** A page of which every email was attempted without raising. */
  lemma {:induction false} PageDone(before: Store, mid: Store, after: Store, e: Emails, all: seq<nat>, k: nat,
                                    saved: nat, afterId: nat, batch: seq<nat>)
    requires At(before, mid, e, all, k, saved, afterId) && batch != [] && batch <= all[k..]
    requires after == AfterAttempts(mid, e, batch) && NoneRaises(e, batch)
    ensures At(before, after, e, all, k + |batch|, saved + CountScored(e, batch), batch[|batch| - 1])
  {
    PageSlice(all, k, batch, |batch|);
    assert batch[..|batch|] == batch;
    MoreAttempts(before, e, all[..k], batch);
    NoneRaisesAppend(e, all[..k], batch);
    assert batch[|batch| - 1] == all[k..k + |batch|][|batch| - 1];
  }

  /** A page on which an email raised. */
  lemma {:induction false} PageStopped(before: Store, mid: Store, after: Store, e: Emails, all: seq<nat>, k: nat,
                                       batch: seq<nat>, n: nat, error: PassError)
    requires Walked(before, mid, e, all, k) && batch <= all[k..] && n <= |batch|
    requires after == AfterAttempts(mid, e, batch[..n]) && Raised(e, batch[..n], error)
    ensures Stopped(before, after, e, all, k + n, error)
  {
    PageSlice(all, k, batch, n);
    MoreAttempts(before, e, all[..k], batch[..n]);
    NoneRaisesAppend(e, all[..k], batch[..n][..n - 1]);
    assert (all[..k] + batch[..n])[..k + n - 1] == all[..k] + batch[..n][..n - 1];
  }

  lemma {:induction false} NoneRaisesAppend(e: Emails, ids: seq<nat>, more: seq<nat>)
    requires NoneRaises(e, ids) && NoneRaises(e, more)
    ensures NoneRaises(e, ids + more)
  {
  }

  lemma {:induction false} MoreAttempts(s: Store, e: Emails, ids: seq<nat>, more: seq<nat>)
    ensures AfterAttempts(s, e, ids + more) == AfterAttempts(AfterAttempts(s, e, ids), e, more)
    ensures CountScored(e, ids + more) == CountScored(e, ids) + CountScored(e, more)
  {
    if more == [] {
      assert ids + more == ids;
    } else {
      var init, last := more[..|more| - 1], more[|more| - 1];
      MoreAttempts(s, e, ids, init);
      assert ids + more == (ids + init) + [last];
      assert ((ids + init) + [last])[..|ids + init|] == ids + init;
    }
  }

  lemma {:induction false} OneAttempt(s: Store, e: Emails, id: nat)
    ensures AfterAttempts(s, e, [id])
            == if e.outcome(id).Scored? then Assessed(s, id, AssessmentOf(e, id), e.stamp(id)) else s
  {
    assert [id][..0] == [];
    assert AfterAttempts(s, e, []) == s;
  }

  lemma {:induction false} OneMoreAttempt(s: Store, e: Emails, ids: seq<nat>, id: nat)
    ensures AfterAttempts(s, e, ids + [id]) == AfterAttempts(AfterAttempts(s, e, ids), e, [id])
    ensures CountScored(e, ids + [id]) == CountScored(e, ids) + if e.outcome(id).Scored? then 1 else 0
  {
    assert (ids + [id])[..|ids|] == ids;
    assert [id][..0] == [];
    assert AfterAttempts(AfterAttempts(s, e, ids), e, []) == AfterAttempts(s, e, ids);
  }
}
