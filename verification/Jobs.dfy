/** The job queue kept in the vault (src/heron/core/jobs.py, src/heron/core/job_recovery.py):
    every statement as a function on the table, and the methods that execute them in place. */
module Jobs {
  import opened Wrappers
  import opened Ranges
  import opened Segments

  datatype Status = Pending | Running | Done | Failed

  /** A job row; `checkpoint` is the highest UID known to be stored. */
  datatype Job = Job(box: Box, range: Range, status: Status, checkpoint: Option<nat>, error: Option<string>)

  type Table = map<nat, Job>

  const INTERRUPTED := "Interrupted by a restart. Fetch again to resume."

  predicate IsPending(jobs: Table, id: nat) {
    id in jobs && jobs[id].status.Pending?
  }

  // Each statement as a function on the table. An UPDATE of a missing row changes nothing.

  function Claimed(jobs: Table, id: nat): Table {
    if IsPending(jobs, id) then jobs[id := jobs[id].(status := Running)] else jobs
  }

  function Checkpointed(jobs: Table, id: nat, uid: nat): Table {
    if id in jobs then jobs[id := jobs[id].(checkpoint := Some(uid))] else jobs
  }

  function Completed(jobs: Table, id: nat): Table {
    if id in jobs then jobs[id := jobs[id].(status := Done)] else jobs
  }

  function Failing(jobs: Table, id: nat, error: string): Table {
    if id in jobs then jobs[id := jobs[id].(status := Failed, error := Some(error))] else jobs
  }

  /** There is no guard on the status: any existing job becomes pending again. */
  function Retried(jobs: Table, id: nat): Table {
    if id in jobs then jobs[id := jobs[id].(status := Pending, error := None)] else jobs
  }

  function Recovered(jobs: Table): Table {
    map id | id in jobs ::
      if jobs[id].status.Running? then jobs[id].(status := Failed, error := Some(INTERRUPTED)) else jobs[id]
  }

  /** The same rows, and all but one of them unchanged. */
  ghost predicate SameExcept(before: Table, after: Table, id: nat) {
    before.Keys == after.Keys && forall other :: other in before && other != id ==> after[other] == before[other]
  }

  predicate KeepsRequest(before: Job, after: Job) {
    after.box == before.box && after.range == before.range
  }

  class JobTable {
    var jobs: Table
    var nextId: nat

    ghost predicate Valid()
      reads this
    {
      forall id :: id in jobs ==> id < nextId
    }

    constructor ()
      ensures Valid() && jobs == map[]
    {
      jobs, nextId := map[], 0;
    }

    method CreateJob(box: Box, range: Range) returns (id: nat)
      requires Valid()
      modifies this
      ensures Valid() && id !in old(jobs)
      ensures jobs == old(jobs)[id := Job(box, range, Pending, None, None)]
    {
      id := nextId;
      jobs := jobs[id := Job(box, range, Pending, None, None)];
      nextId := nextId + 1;
    }

    /** Claims one job by id. None when it does not exist or is not pending. */
    method ClaimJob(id: nat) returns (job: Option<Job>)
      requires Valid()
      modifies this`jobs
      ensures Valid() && jobs == Claimed(old(jobs), id) && SameExcept(old(jobs), jobs, id)
      ensures job.None? ==> jobs == old(jobs)
      ensures job.Some? ==> id in old(jobs) && KeepsRequest(old(jobs)[id], jobs[id]) && jobs[id].status.Running? &&
                            jobs[id].checkpoint == old(jobs)[id].checkpoint && jobs[id].error == old(jobs)[id].error
      ensures job == if IsPending(old(jobs), id) then Some(jobs[id]) else None
    {
      if id in jobs && jobs[id].status.Pending? {
        jobs := jobs[id := jobs[id].(status := Running)];
        job := Some(jobs[id]);
      } else {
        job := None;
      }
    }

    /** Claims the pending job with the least id. None when the queue is empty. */
    method ClaimNextJob() returns (claimed: Option<(nat, Job)>)
      requires Valid()
      modifies this`jobs
      ensures Valid()
      ensures claimed.None? <==> forall id :: !IsPending(old(jobs), id)
      ensures claimed.None? ==> jobs == old(jobs)
      ensures claimed.Some? ==>
                && var id := claimed.value.0;
                && IsPending(old(jobs), id) && (forall other :: IsPending(old(jobs), other) ==> id <= other)
                && jobs == Claimed(old(jobs), id) && claimed.value.1 == jobs[id]
    {
      var id := 0;
      while id < nextId && !(id in jobs && jobs[id].status.Pending?)
        invariant id <= nextId
        invariant forall other :: IsPending(jobs, other) ==> id <= other
      {
        id := id + 1;
      }
      if id == nextId {
        return None;
      }
      var job := ClaimJob(id);
      claimed := Some((id, job.value));
    }

    method UpdateCheckpoint(id: nat, uid: nat)
      requires Valid()
      modifies this`jobs
      ensures Valid() && jobs == Checkpointed(old(jobs), id, uid) && SameExcept(old(jobs), jobs, id)
      ensures id in jobs ==> KeepsRequest(old(jobs)[id], jobs[id]) && jobs[id].checkpoint == Some(uid) &&
                             jobs[id].status == old(jobs)[id].status && jobs[id].error == old(jobs)[id].error
    {
      if id in jobs {
        jobs := jobs[id := jobs[id].(checkpoint := Some(uid))];
      }
    }

    method MarkDone(id: nat)
      requires Valid()
      modifies this`jobs
      ensures Valid() && jobs == Completed(old(jobs), id) && SameExcept(old(jobs), jobs, id)
      ensures id in jobs ==> KeepsRequest(old(jobs)[id], jobs[id]) && jobs[id].status.Done? &&
                             jobs[id].checkpoint == old(jobs)[id].checkpoint && jobs[id].error == old(jobs)[id].error
    {
      if id in jobs {
        jobs := jobs[id := jobs[id].(status := Done)];
      }
    }

    method MarkFailed(id: nat, error: string)
      requires Valid()
      modifies this`jobs
      ensures Valid() && jobs == Failing(old(jobs), id, error) && SameExcept(old(jobs), jobs, id)
      ensures id in jobs ==> KeepsRequest(old(jobs)[id], jobs[id]) && jobs[id].status.Failed? &&
                             jobs[id].error == Some(error) && jobs[id].checkpoint == old(jobs)[id].checkpoint
    {
      if id in jobs {
        jobs := jobs[id := jobs[id].(status := Failed, error := Some(error))];
      }
    }

    method RetryJob(id: nat)
      requires Valid()
      modifies this`jobs
      ensures Valid() && jobs == Retried(old(jobs), id) && SameExcept(old(jobs), jobs, id)
      ensures id in jobs ==> KeepsRequest(old(jobs)[id], jobs[id]) && jobs[id].status.Pending? &&
                             jobs[id].error.None? && jobs[id].checkpoint == old(jobs)[id].checkpoint
    {
      if id in jobs {
        jobs := jobs[id := jobs[id].(status := Pending, error := None)];
      }
    }

    /** Run at startup: every job still running is orphaned. Returns how many were changed. */
    method FailInterruptedJobs() returns (changed: nat)
      requires Valid()
      modifies this`jobs
      ensures Valid() && jobs == Recovered(old(jobs))
      ensures changed == |set id | id in old(jobs) && old(jobs)[id].status.Running?|
      ensures jobs.Keys == old(jobs).Keys && forall id :: id in jobs ==> !jobs[id].status.Running?
      ensures forall id :: id in jobs && !old(jobs)[id].status.Running? ==> jobs[id] == old(jobs)[id]
      ensures forall id :: id in jobs && old(jobs)[id].status.Running? ==>
                && KeepsRequest(old(jobs)[id], jobs[id]) && jobs[id].checkpoint == old(jobs)[id].checkpoint
                && jobs[id].status.Failed? && jobs[id].error == Some(INTERRUPTED)
    {
      changed := |set id | id in jobs && jobs[id].status.Running?|;
      jobs := Recovered(jobs);
    }
  }
}
