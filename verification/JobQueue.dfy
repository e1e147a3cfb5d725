/** The `background_job` table: enqueueing, leasing and deleting jobs. */
module JobQueue {
  import opened Collections

  datatype JobId = JobId(uuid: nat)
  datatype UserId = UserId(uuid: nat)

  /** The payload of one activity; deliveries of it descend from one call of `enqueue`. */
  datatype Activity = Activity(number: nat)

  datatype Recipient = Recipient(id: string, inbox: string, isDelivered: bool)

  datatype JobType = IncomingActivity | OutgoingActivity
  datatype JobStatus = Queued | Running

  datatype JobData =
    | Incoming(activity: Activity, isAuthenticated: bool, failureCount: nat)
    | Outgoing(activity: Activity, sender: UserId, recipients: seq<Recipient>, failureCount: nat)
  {
    function Type(): JobType {
      if Incoming? then IncomingActivity else OutgoingActivity
    }
  }

  /** Times are in seconds. */
  datatype Job = Job(data: JobData, status: JobStatus, scheduledFor: int, updatedAt: int)

  type JobTable = map<JobId, Job>

  const JOB_TIMEOUT := 3600
  const INCOMING_QUEUE_BATCH_SIZE := 10
  const OUTGOING_QUEUE_BATCH_SIZE := 1

  /** `enqueue_job` with the defaults of the table. */
  function NewJob(data: JobData, now: int, delay: nat): Job {
    Job(data, Queued, now + delay, now)
  }

  /** The WHERE clause of `get_job_batch`. */
  predicate Eligible(job: Job, kind: JobType, timeout: nat, now: int) {
    && job.data.Type() == kind
    && job.scheduledFor < now
    && (job.status.Queued? || job.updatedAt < now - timeout)
  }

  /** A new job waits for its delay, whatever the lease, and not a second longer. */
  lemma NewJobWaits(data: JobData, now: int, delay: nat, timeout: nat, t: int)
    ensures Eligible(NewJob(data, now, delay), data.Type(), timeout, t) <==> now + delay < t
    ensures NewJob(data, now, delay).data == data && NewJob(data, now, delay).status == Queued
  {
  }

  function EligibleJobs(jobs: JobTable, kind: JobType, timeout: nat, now: int): set<JobId> {
    set i | i in jobs && Eligible(jobs[i], kind, timeout, now)
  }

  /** `ORDER BY job_status ASC, scheduled_for ASC` */
  predicate Before(a: Job, b: Job) {
    || (a.status.Queued? && b.status.Running?)
    || (a.status == b.status && a.scheduledFor < b.scheduledFor)
  }

  /** No job of `others` has to be given out before one of `chosen`. */
  predicate NoneBefore(jobs: JobTable, chosen: set<JobId>, others: set<JobId>)
    requires chosen <= jobs.Keys && others <= jobs.Keys
  {
    forall x, y :: x in chosen && y in others ==> !Before(jobs[y], jobs[x])
  }

  /** A job that none of `s` has to be given out before. */
  method PickFirst(jobs: JobTable, s: set<JobId>) returns (x: JobId)
    requires s != {} && s <= jobs.Keys
    ensures x in s && NoneBefore(jobs, {x}, s)
  {
    x :| x in s;
    var rest := s - {x};
    while rest != {}
      invariant x in s && rest <= s && NoneBefore(jobs, {x}, s - rest)
      decreases rest
    {
      var y :| y in rest;
      rest := rest - {y};
      if Before(jobs[y], jobs[x]) {
        x := y;
      }
    }
  }

  /** No eligible job outside `batch` comes before one inside, and only LIMIT or the lack of
      eligible jobs keeps the batch small. */
  predicate IsBatch(jobs: JobTable, kind: JobType, size: nat, timeout: nat, now: int, batch: set<JobId>) {
    var eligible := EligibleJobs(jobs, kind, timeout, now);
    && batch <= eligible
    && |batch| == (if |eligible| < size then |eligible| else size)
    && NoneBefore(jobs, batch, eligible - batch)
  }

  function Leased(jobs: JobTable, batch: set<JobId>, now: int): JobTable {
    map i | i in jobs :: if i in batch then jobs[i].(status := Running, updatedAt := now) else jobs[i]
  }

  /** A leased job is not given out again before the lease has run out. */
  lemma LeaseIsExclusive(jobs: JobTable, kind: JobType, size: nat, timeout: nat, now: int, batch: set<JobId>,
                         i: JobId, later: int)
    requires IsBatch(jobs, kind, size, timeout, now, batch) && i in batch
    ensures later <= now + timeout ==> i !in EligibleJobs(Leased(jobs, batch, now), kind, timeout, later)
    ensures later > now + timeout ==> i in EligibleJobs(Leased(jobs, batch, now), kind, timeout, later)
  {
  }

  /** `ORDER BY ... LIMIT size` */
  method TakeFirst(jobs: JobTable, candidates: set<JobId>, size: nat) returns (batch: seq<JobId>)
    requires candidates <= jobs.Keys
    ensures NoDuplicates(batch) && Elements(batch) <= candidates
    ensures |batch| == size || (|batch| < size && Elements(batch) == candidates)
    ensures NoneBefore(jobs, Elements(batch), candidates - Elements(batch))
  {
    var rest := candidates;
    batch := [];
    while rest != {} && |batch| < size
      invariant NoDuplicates(batch) && |batch| <= size
      invariant Elements(batch) <= candidates && rest == candidates - Elements(batch)
      invariant NoneBefore(jobs, Elements(batch), rest)
      decreases rest
    {
      var x := PickFirst(jobs, rest);
      assert x !in Elements(batch);
      assert Elements(batch + [x]) == Elements(batch) + {x};
      batch, rest := batch + [x], rest - {x};
    }
    forall x | x in candidates ensures x in Elements(batch) || x in rest {
    }
  }

  /** The subquery of `get_job_batch`. */
  method SelectBatch(jobs: JobTable, kind: JobType, size: nat, timeout: nat, now: int) returns (batch: seq<JobId>)
    ensures NoDuplicates(batch) && IsBatch(jobs, kind, size, timeout, now, Elements(batch))
    ensures |batch| <= size
    ensures forall i :: i in batch ==>
              && i in jobs && jobs[i].data.Type() == kind && jobs[i].scheduledFor < now
              && (jobs[i].status == Queued || jobs[i].updatedAt + timeout < now)
    ensures forall i, j :: i in batch && j in jobs && j !in batch && Eligible(jobs[j], kind, timeout, now) ==>
              && !(jobs[i].status == Running && jobs[j].status == Queued)
              && !(jobs[i].status == jobs[j].status && jobs[j].scheduledFor < jobs[i].scheduledFor)
  {
    var eligible := EligibleJobs(jobs, kind, timeout, now);
    batch := TakeFirst(jobs, eligible, size);
    DistinctLength(batch);
    SubsetCardinality(Elements(batch), eligible);
    forall i | i in batch ensures i in Elements(batch) && i in eligible {
    }
    forall i, j | i in batch && j in jobs && j !in batch && Eligible(jobs[j], kind, timeout, now) ensures !Before(jobs[j], jobs[i]) {
      assert i in Elements(batch) && j in eligible && j !in Elements(batch);
      assert j in eligible - Elements(batch);
    }
  }

  predicate IdsBelow(jobs: JobTable, nextId: nat) {
    forall i :: i in jobs ==> i.uuid < nextId
  }

  class Queue {
    var jobs: JobTable
    var nextId: nat // random UUIDs do not repeat

    predicate Valid()
      reads this
    {
      IdsBelow(jobs, nextId)
    }

    constructor ()
      ensures Valid() && jobs == map[]
    {
      jobs, nextId := map[], 0;
    }

    /** `enqueue_job`: one more row, under an id that was never in use. */
    method EnqueueJob(data: JobData, now: int, delay: nat) returns (id: JobId)
      requires Valid()
      modifies this
      ensures Valid() && nextId == old(nextId) + 1 && id == JobId(old(nextId))
      ensures id !in old(jobs) && jobs == old(jobs)[id := NewJob(data, now, delay)]
      ensures jobs.Keys == old(jobs).Keys + {id} && jobs[id].data == data
      ensures forall timeout, t {:trigger Eligible(jobs[id], data.Type(), timeout, t)} ::
                0 <= timeout ==> (Eligible(jobs[id], data.Type(), timeout, t) <==> now + delay < t)
    {
      id := JobId(nextId);
      nextId := nextId + 1;
      jobs := jobs[id := NewJob(data, now, delay)];
    }

    /** `get_job_batch`: the rows it returns are Running from now on. */
    method GetJobBatch(kind: JobType, size: nat, timeout: nat, now: int) returns (batch: seq<JobId>)
      requires Valid()
      modifies this`jobs
      ensures Valid()
      ensures NoDuplicates(batch)
      ensures IsBatch(old(jobs), kind, size, timeout, now, Elements(batch))
      ensures jobs == Leased(old(jobs), Elements(batch), now)
    {
      batch := SelectBatch(jobs, kind, size, timeout, now);
      var picked := Elements(batch);
      jobs := Leased(jobs, picked, now);
    }

    /** `delete_job_from_queue` */
    method DeleteJob(id: JobId) returns (r: Result<bool>)
      requires Valid()
      modifies this`jobs
      ensures Valid()
      ensures r.Success? <==> id in old(jobs)
      ensures jobs == old(jobs) - {id}
      ensures r.Failure? ==> r.error == NotFound("background job") && jobs == old(jobs)
    {
      if id !in jobs {
        assert jobs - {id} == jobs;
        return Failure(NotFound("background job"));
      }
      jobs := jobs - {id};
      r := Success(true);
    }
  }
}
