/** The outgoing queue as a protocol: any number of executors, which may stop for good between
    any two database or network actions, and a clock. */
module JobProtocol {
  import opened Collections
  import opened JobQueue
  import opened Delivery

  datatype WorkerId = WorkerId(number: nat)

  /** One activity for one recipient. */
  datatype Target = Target(activity: Activity, recipient: string)

  /** What an executor is doing with the job it took at `takenAt`. */
  datatype Worker =
    | Idle
    | Loaded(job: JobId, data: JobData, takenAt: int)
    | Sending(job: JobId, data: JobData, takenAt: int, recipients: seq<Recipient>, at: nat)
    | Finishing(job: JobId, data: JobData, takenAt: int)
  {
    predicate Busy() {
      !Idle?
    }
  }

  /** What has happened so far; nothing in the program reads it. */
  datatype Log = Log(
    enqueued: set<Target>,
    delivered: set<Target>,    // acknowledged by the inbox
    gaveUp: set<Target>,       // undelivered when the retry limit was reached
    dropped: set<Activity>,    // lost to an unexpected delivery error
    failures: multiset<Target>,
    rounds: multiset<Activity>) // deliveries begun

  /** Users that are gone never come back: ids are random. */
  datatype State = State(
    jobs: JobTable,
    nextId: nat,
    workers: map<WorkerId, Worker>,
    users: set<UserId>,
    gone: set<UserId>,
    now: int,
    log: Log)

  datatype Action =
    | Tick(seconds: nat)
    | AddUser(user: UserId)
    | RemoveUser(user: UserId)
    | EnqueueActivity(activity: Activity, sender: UserId, recipients: seq<Recipient>)
    | Take(w: WorkerId, job: JobId)
    | SenderMissing(w: WorkerId)
    | Begin(w: WorkerId)
    | DropJob(w: WorkerId)
    | Send(w: WorkerId, ok: bool)
    | Requeue(w: WorkerId)
    | GiveUp(w: WorkerId)
    | Delete(w: WorkerId)
    | Crash(w: WorkerId)

  function Targets(activity: Activity, recipients: seq<Recipient>): set<Target> {
    set k | 0 <= k < |recipients| :: Target(activity, recipients[k].id)
  }

  function UndeliveredTargets(activity: Activity, recipients: seq<Recipient>): set<Target> {
    set k | 0 <= k < |recipients| && !recipients[k].isDelivered :: Target(activity, recipients[k].id)
  }

  function WorkerOf(s: State, w: WorkerId): Worker {
    if w in s.workers then s.workers[w] else Idle
  }

  /** The action can be taken. */
  predicate Enabled(s: State, a: Action) {
    match a
    case Tick(_) => true
    case AddUser(user) => user !in s.users && user !in s.gone
    case RemoveUser(user) => user in s.users
    case EnqueueActivity(activity, sender, recipients) =>
      && sender in s.users + s.gone // it was loaded before, and may be gone by now
      && recipients != [] && (forall r :: r in recipients ==> !r.isDelivered) && NoDuplicates(RecipientIds(recipients))
      && (forall t :: t in s.log.enqueued ==> t.activity != activity)
    case Take(w, job) =>
      WorkerOf(s, w).Idle? && IsBatch(s.jobs, OutgoingActivity, OUTGOING_QUEUE_BATCH_SIZE, JOB_TIMEOUT, s.now, {job})
    case SenderMissing(w) =>
      WorkerOf(s, w).Loaded? && WorkerOf(s, w).data.Outgoing? && WorkerOf(s, w).data.sender !in s.users
    case Begin(w) =>
      WorkerOf(s, w).Loaded? && WorkerOf(s, w).data.Outgoing? && WorkerOf(s, w).data.sender in s.users
    case DropJob(w) =>
      WorkerOf(s, w).Loaded? && WorkerOf(s, w).data.Outgoing? && WorkerOf(s, w).data.sender in s.users
    case Send(w, _) =>
      WorkerOf(s, w).Sending? && WorkerOf(s, w).at < |WorkerOf(s, w).recipients|
    case Requeue(w) =>
      var worker := WorkerOf(s, w);
      && worker.Sending? && worker.at == |worker.recipients| && worker.data.Outgoing?
      && SomeUndelivered(worker.recipients) && worker.data.failureCount < OUTGOING_QUEUE_RETRIES_MAX
    case GiveUp(w) =>
      var worker := WorkerOf(s, w);
      && worker.Sending? && worker.at == |worker.recipients| && worker.data.Outgoing?
      && !(SomeUndelivered(worker.recipients) && worker.data.failureCount < OUTGOING_QUEUE_RETRIES_MAX)
    case Delete(w) => WorkerOf(s, w).Finishing?
    case Crash(w) => WorkerOf(s, w).Busy()
  }

  function AfterSend(worker: Worker, ok: bool): Worker
    requires worker.Sending? && worker.at < |worker.recipients|
  {
    var r := worker.recipients[worker.at];
    worker.(recipients := worker.recipients[worker.at := r.(isDelivered := r.isDelivered || ok)], at := worker.at + 1)
  }

  /** Sending is skipped for a recipient whose flag is set. */
  function LogSend(log: Log, worker: Worker, ok: bool): Log
    requires worker.Sending? && worker.at < |worker.recipients|
  {
    var r := worker.recipients[worker.at];
    var target := Target(worker.data.activity, r.id);
    if r.isDelivered then log
    else if ok then log.(delivered := log.delivered + {target})
    else log.(failures := log.failures + multiset{target})
  }

  function Perform(s: State, a: Action): State
    requires Enabled(s, a)
  {
    match a
    case Tick(seconds) => s.(now := s.now + seconds)
    case AddUser(user) => s.(users := s.users + {user})
    case RemoveUser(user) => s.(users := s.users - {user}, gone := s.gone + {user})
    case EnqueueActivity(activity, sender, recipients) =>
      s.(jobs := s.jobs[JobId(s.nextId) := NewJob(Outgoing(activity, sender, recipients, 0), s.now, 0)],
      nextId := s.nextId + 1,
      log := s.log.(enqueued := s.log.enqueued + Targets(activity, recipients)))
    case Take(w, job) =>
      assert job in {job} && job in EligibleJobs(s.jobs, OutgoingActivity, JOB_TIMEOUT, s.now);
      s.(jobs := Leased(s.jobs, {job}, s.now), workers := s.workers[w := Loaded(job, s.jobs[job].data, s.now)])
    case SenderMissing(w) => s.(workers := s.workers[w := Idle])
    case Begin(w) =>
      var worker := s.workers[w];
      s.(workers := s.workers[w := Sending(worker.job, worker.data, worker.takenAt, worker.data.recipients, 0)],
      log := s.log.(rounds := s.log.rounds + multiset{worker.data.activity}))
    case DropJob(w) =>
      var worker := s.workers[w];
      s.(workers := s.workers[w := Finishing(worker.job, worker.data, worker.takenAt)],
      log := s.log.(dropped := s.log.dropped + {worker.data.activity}))
    case Send(w, ok) =>
      s.(workers := s.workers[w := AfterSend(s.workers[w], ok)], log := LogSend(s.log, s.workers[w], ok))
    case Requeue(w) =>
      var worker := s.workers[w];
      var next := Outgoing(worker.data.activity, worker.data.sender, worker.recipients, worker.data.failureCount + 1);
      s.(jobs := s.jobs[JobId(s.nextId) := NewJob(next, s.now, OutgoingBackoff(next.failureCount))],
      nextId := s.nextId + 1,
      workers := s.workers[w := Finishing(worker.job, worker.data, worker.takenAt)])
    case GiveUp(w) =>
      var worker := s.workers[w];
      s.(workers := s.workers[w := Finishing(worker.job, worker.data, worker.takenAt)],
      log := s.log.(gaveUp := s.log.gaveUp + UndeliveredTargets(worker.data.activity, worker.recipients)))
    case Delete(w) => s.(jobs := s.jobs - {s.workers[w].job}, workers := s.workers[w := Idle])
    case Crash(w) => s.(workers := s.workers[w := Idle])
  }

  // The invariant

  /** Every set flag stands for an acknowledged send. */
  predicate FlagsTrue(log: Log, activity: Activity, recipients: seq<Recipient>) {
    forall k :: 0 <= k < |recipients| && recipients[k].isDelivered ==> Target(activity, recipients[k].id) in log.delivered
  }

  /** Sending to each of the first `n` undelivered recipients has failed `count` times. */
  predicate HaveFailed(log: Log, activity: Activity, recipients: seq<Recipient>, n: nat, count: nat) {
    forall k :: 0 <= k < n && k < |recipients| && !recipients[k].isDelivered ==>
      log.failures[Target(activity, recipients[k].id)] >= count
  }

  predicate DataOk(log: Log, data: JobData) {
    && data.Outgoing? && data.failureCount <= OUTGOING_QUEUE_RETRIES_MAX
    && FlagsTrue(log, data.activity, data.recipients)
    && HaveFailed(log, data.activity, data.recipients, |data.recipients|, data.failureCount)
  }

  predicate RowsOk(jobs: JobTable, nextId: nat, log: Log) {
    forall i {:trigger jobs[i]} :: i in jobs ==> i.uuid < nextId && DataOk(log, jobs[i].data)
  }

  /** `data` still awaits delivery to `t`. */
  predicate Awaits(data: JobData, t: Target) {
    && data.Outgoing? && data.activity == t.activity
    && exists k :: 0 <= k < |data.recipients| && data.recipients[k].id == t.recipient && !data.recipients[k].isDelivered
  }

  predicate Settled(log: Log, t: Target) {
    t in log.delivered || t in log.gaveUp || t.activity in log.dropped
  }

  /** Some job with at least `least` failures awaits delivery to `t`, unless that is settled. */
  predicate Covered(jobs: JobTable, log: Log, t: Target, least: nat) {
    || Settled(log, t)
    || exists i :: i in jobs && jobs[i].data.failureCount >= least && Awaits(jobs[i].data, t)
  }

  /** The working copy differs from the job only in flags; up to `at` everyone was tried. */
  predicate CopyOk(log: Log, data: JobData, recipients: seq<Recipient>, at: nat)
    requires data.Outgoing?
  {
    && at <= |recipients| == |data.recipients|
    && (forall k :: 0 <= k < |recipients| ==>
          && recipients[k].id == data.recipients[k].id
          && (data.recipients[k].isDelivered ==> recipients[k].isDelivered))
    && FlagsTrue(log, data.activity, recipients)
    && HaveFailed(log, data.activity, recipients, at, data.failureCount + 1)
  }

  ghost predicate WorkerOk(jobs: JobTable, nextId: nat, now: int, log: Log, worker: Worker) {
    worker.Busy() ==>
      && worker.job.uuid < nextId && worker.takenAt <= now
      && DataOk(log, worker.data)
      && (worker.job in jobs ==>
            && jobs[worker.job].data == worker.data
            && jobs[worker.job].status.Running? && worker.takenAt <= jobs[worker.job].updatedAt)
      && (worker.Sending? ==> CopyOk(log, worker.data, worker.recipients, worker.at))
      && (worker.Finishing? ==>
            forall t :: Awaits(worker.data, t) ==> Covered(jobs, log, t, worker.data.failureCount + 1))
  }

  /** Two executors hold the same job only if the lease of the first ran out in between. */
  predicate LeasesApart(a: Worker, b: Worker) {
    a.Busy() && b.Busy() && a.job == b.job ==>
      a.takenAt + JOB_TIMEOUT < b.takenAt || b.takenAt + JOB_TIMEOUT < a.takenAt
  }

  predicate LogOk(log: Log) {
    forall t :: t in log.gaveUp ==> log.failures[t] >= OUTGOING_QUEUE_RETRIES_MAX + 1
  }

  ghost predicate Inv(s: State) {
    && RowsOk(s.jobs, s.nextId, s.log)
    && LogOk(s.log)
    && (forall w {:trigger s.workers[w]} :: w in s.workers ==> WorkerOk(s.jobs, s.nextId, s.now, s.log, s.workers[w]))
    && (forall v, w {:trigger LeasesApart(s.workers[v], s.workers[w])} :: v in s.workers && w in s.workers && v != w ==>
          LeasesApart(s.workers[v], s.workers[w]))
    && (forall t :: t in s.log.enqueued ==> Covered(s.jobs, s.log, t, 0))
  }

  predicate LogGrows(a: Log, b: Log) {
    && a.enqueued <= b.enqueued && a.delivered <= b.delivered && a.gaveUp <= b.gaveUp && a.dropped <= b.dropped
    && a.failures <= b.failures
  }

  /** Rows keep their data and, once Running, are only ever leased again. */
  predicate RowsSurvive(jobs: JobTable, jobs': JobTable, nextId: nat) {
    && (forall i {:trigger jobs[i]} {:trigger jobs'[i]} :: i in jobs ==>
          && i in jobs' && jobs'[i].data == jobs[i].data
          && (jobs[i].status.Running? ==> jobs'[i].status.Running? && jobs[i].updatedAt <= jobs'[i].updatedAt))
    && (forall i {:trigger jobs'[i]} :: i in jobs' && i !in jobs ==> i.uuid >= nextId)
  }

  lemma DataStaysOk(log: Log, log': Log, data: JobData)
    requires LogGrows(log, log') && DataOk(log, data)
    ensures DataOk(log', data)
  {
  }

  lemma CoveredStays(jobs: JobTable, log: Log, jobs': JobTable, log': Log, nextId: nat, t: Target, least: nat)
    requires LogGrows(log, log') && RowsSurvive(jobs, jobs', nextId) && Covered(jobs, log, t, least)
    ensures Covered(jobs', log', t, least)
  {
  }

  lemma WorkerStaysOk(jobs: JobTable, nextId: nat, now: int, log: Log,
                      jobs': JobTable, nextId': nat, now': int, log': Log, worker: Worker)
    requires LogGrows(log, log') && RowsSurvive(jobs, jobs', nextId) && nextId <= nextId' && now <= now'
    requires WorkerOk(jobs, nextId, now, log, worker)
    ensures WorkerOk(jobs', nextId', now', log', worker)
  {
  }

  /** One executor moves on with the job it holds, or lets go of it. */
  predicate SameLease(a: Worker, b: Worker) {
    b.Idle? || (a.Busy() && b.Busy() && a.job == b.job && a.takenAt == b.takenAt)
  }

  /** A step that only adds to the tables and the log, and moves one executor. */
  lemma StepExtends(s: State, s': State, w: WorkerId, worker: Worker)
    requires Inv(s) && w in s.workers
    requires LogGrows(s.log, s'.log) && RowsSurvive(s.jobs, s'.jobs, s.nextId)
    requires s.nextId <= s'.nextId && s.now <= s'.now && s'.log.enqueued == s.log.enqueued
    requires s'.workers == s.workers[w := worker] && SameLease(s.workers[w], worker)
    requires RowsOk(s'.jobs, s'.nextId, s'.log) && LogOk(s'.log)
    requires WorkerOk(s'.jobs, s'.nextId, s'.now, s'.log, worker)
    ensures Inv(s')
  {
    forall v | v in s'.workers ensures WorkerOk(s'.jobs, s'.nextId, s'.now, s'.log, s'.workers[v]) {
      if v != w {
        assert s'.workers[v] == s.workers[v];
        WorkerStaysOk(s.jobs, s.nextId, s.now, s.log, s'.jobs, s'.nextId, s'.now, s'.log, s.workers[v]);
      }
    }
    forall u, v | u in s'.workers && v in s'.workers && u != v ensures LeasesApart(s'.workers[u], s'.workers[v]) {
      assert LeasesApart(s.workers[u], s.workers[v]);
    }
    forall t | t in s'.log.enqueued ensures Covered(s'.jobs, s'.log, t, 0) {
      CoveredStays(s.jobs, s.log, s'.jobs, s'.log, s.nextId, t, 0);
    }
  }

  lemma RowsStayOk(jobs: JobTable, nextId: nat, log: Log, log': Log)
    requires RowsOk(jobs, nextId, log) && LogGrows(log, log')
    ensures RowsOk(jobs, nextId, log')
  {
  }

  lemma SendKeepsInv(s: State, w: WorkerId, ok: bool)
    requires Inv(s) && Enabled(s, Send(w, ok))
    ensures Inv(Perform(s, Send(w, ok)))
  {
    var s', worker := Perform(s, Send(w, ok)), s.workers[w];
    assert WorkerOk(s.jobs, s.nextId, s.now, s.log, worker);
    RowsStayOk(s.jobs, s.nextId, s.log, s'.log);
    DataStaysOk(s.log, s'.log, worker.data);
    StepExtends(s, s', w, AfterSend(worker, ok));
  }

  lemma BeginKeepsInv(s: State, w: WorkerId)
    requires Inv(s) && Enabled(s, Begin(w))
    ensures Inv(Perform(s, Begin(w)))
  {
    var s', worker := Perform(s, Begin(w)), s.workers[w];
    assert WorkerOk(s.jobs, s.nextId, s.now, s.log, worker);
    StepExtends(s, s', w, s'.workers[w]);
  }

  lemma DropKeepsInv(s: State, w: WorkerId)
    requires Inv(s) && Enabled(s, DropJob(w))
    ensures Inv(Perform(s, DropJob(w)))
  {
    var s', worker := Perform(s, DropJob(w)), s.workers[w];
    assert WorkerOk(s.jobs, s.nextId, s.now, s.log, worker);
    RowsStayOk(s.jobs, s.nextId, s.log, s'.log);
    DataStaysOk(s.log, s'.log, worker.data);
    StepExtends(s, s', w, s'.workers[w]);
  }

  lemma LetGoKeepsInv(s: State, w: WorkerId)
    requires Inv(s) && w in s.workers
    ensures Inv(s.(workers := s.workers[w := Idle]))
  {
  }

  /** Once everyone was tried, whoever awaits delivery was tried in vain or has been reached. */
  lemma TriedInVain(log: Log, worker: Worker, t: Target)
    requires worker.Sending? && DataOk(log, worker.data) && Awaits(worker.data, t)
    requires CopyOk(log, worker.data, worker.recipients, worker.at) && worker.at == |worker.recipients|
    ensures t in log.delivered || t in UndeliveredTargets(worker.data.activity, worker.recipients)
  {
  }

  lemma GiveUpKeepsInv(s: State, w: WorkerId)
    requires Inv(s) && Enabled(s, GiveUp(w))
    ensures Inv(Perform(s, GiveUp(w)))
  {
    var s', worker := Perform(s, GiveUp(w)), s.workers[w];
    assert WorkerOk(s.jobs, s.nextId, s.now, s.log, worker);
    RowsStayOk(s.jobs, s.nextId, s.log, s'.log);
    DataStaysOk(s.log, s'.log, worker.data);
    forall t | Awaits(worker.data, t) ensures Covered(s'.jobs, s'.log, t, worker.data.failureCount + 1) {
      TriedInVain(s.log, worker, t);
    }
    StepExtends(s, s', w, s'.workers[w]);
  }

  lemma RequeueKeepsInv(s: State, w: WorkerId)
    requires Inv(s) && Enabled(s, Requeue(w))
    ensures Inv(Perform(s, Requeue(w)))
  {
    var s', worker := Perform(s, Requeue(w)), s.workers[w];
    assert WorkerOk(s.jobs, s.nextId, s.now, s.log, worker);
    var next := s'.jobs[JobId(s.nextId)].data;
    assert DataOk(s.log, next);
    forall i | i in s'.jobs ensures i.uuid < s'.nextId && DataOk(s'.log, s'.jobs[i].data) {
      assert i in s.jobs ==> s'.jobs[i] == s.jobs[i];
    }
    forall t | Awaits(worker.data, t) ensures Covered(s'.jobs, s'.log, t, worker.data.failureCount + 1) {
      TriedInVain(s.log, worker, t);
      if t in UndeliveredTargets(worker.data.activity, worker.recipients) {
        assert Awaits(next, t);
      }
    }
    StepExtends(s, s', w, s'.workers[w]);
  }

  /** A step that only adds to the tables and the log, and moves nobody. */
  lemma TablesExtend(s: State, s': State)
    requires Inv(s) && s'.workers == s.workers
    requires LogGrows(s.log, s'.log) && RowsSurvive(s.jobs, s'.jobs, s.nextId)
    requires s.nextId <= s'.nextId && s.now <= s'.now
    requires RowsOk(s'.jobs, s'.nextId, s'.log) && LogOk(s'.log)
    requires forall t :: t in s'.log.enqueued && t !in s.log.enqueued ==> Covered(s'.jobs, s'.log, t, 0)
    ensures Inv(s')
  {
  }

  lemma EnqueueKeepsInv(s: State, a: Action)
    requires Inv(s) && a.EnqueueActivity? && Enabled(s, a)
    ensures Inv(Perform(s, a))
  {
    var s' := Perform(s, a);
    var data := s'.jobs[JobId(s.nextId)].data;
    forall i | i in s'.jobs ensures i.uuid < s'.nextId && DataOk(s'.log, s'.jobs[i].data) {
      if i in s.jobs {
        DataStaysOk(s.log, s'.log, s.jobs[i].data);
      }
    }
    forall t | t in s'.log.enqueued && t !in s.log.enqueued ensures Covered(s'.jobs, s'.log, t, 0) {
      assert Awaits(data, t);
    }
    TablesExtend(s, s');
  }

  /** A job is only given out again when every lease on it has run out. */
  lemma TakeKeepsInv(s: State, w: WorkerId, job: JobId)
    requires Inv(s) && Enabled(s, Take(w, job))
    ensures Inv(Perform(s, Take(w, job)))
  {
    var s' := Perform(s, Take(w, job));
    assert job in {job} && job in EligibleJobs(s.jobs, OutgoingActivity, JOB_TIMEOUT, s.now);
    var leased := s.(jobs := s'.jobs);
    forall i | i in s'.jobs ensures i.uuid < s'.nextId && DataOk(s'.log, s'.jobs[i].data) {
      assert s'.jobs[i].data == s.jobs[i].data;
    }
    LeaseSurvives(s, job);
    TablesExtend(s, leased);
    forall v | v in s'.workers ensures WorkerOk(s'.jobs, s'.nextId, s'.now, s'.log, s'.workers[v]) {
      if v != w {
        assert s'.workers[v] == leased.workers[v];
      }
    }
    forall v | v in s.workers && v != w ensures LeasesApart(s'.workers[v], s'.workers[w]) {
      assert WorkerOk(s.jobs, s.nextId, s.now, s.log, s.workers[v]);
    }
    forall u, v | u in s'.workers && v in s'.workers && u != v ensures LeasesApart(s'.workers[u], s'.workers[v]) {
      if u == w {
        assert LeasesApart(s'.workers[v], s'.workers[w]);
      } else if v != w {
        assert LeasesApart(s.workers[u], s.workers[v]);
      }
    }
  }

  lemma LeaseSurvives(s: State, job: JobId)
    requires Inv(s) && job in s.jobs && Eligible(s.jobs[job], OutgoingActivity, JOB_TIMEOUT, s.now)
    ensures RowsSurvive(s.jobs, Leased(s.jobs, {job}, s.now), s.nextId)
  {
  }

  /** The row of a finished job goes: whoever it awaited is settled or covered by a later row. */
  lemma DeleteKeepsInv(s: State, w: WorkerId)
    requires Inv(s) && Enabled(s, Delete(w))
    ensures Inv(Perform(s, Delete(w)))
  {
    var s', worker := Perform(s, Delete(w)), s.workers[w];
    assert WorkerOk(s.jobs, s.nextId, s.now, s.log, worker);
    forall i | i in s'.jobs ensures i.uuid < s'.nextId && DataOk(s'.log, s'.jobs[i].data) {
      assert s'.jobs[i] == s.jobs[i];
    }
    forall t, least: nat | Covered(s.jobs, s.log, t, least) ensures Covered(s'.jobs, s'.log, t, least) {
      CoveredElsewhere(s, w, t, least);
    }
    forall v | v in s'.workers ensures WorkerOk(s'.jobs, s'.nextId, s'.now, s'.log, s'.workers[v]) {
      if v != w {
        assert WorkerOk(s.jobs, s.nextId, s.now, s.log, s.workers[v]);
      }
    }
    forall u, v | u in s'.workers && v in s'.workers && u != v ensures LeasesApart(s'.workers[u], s'.workers[v]) {
      assert LeasesApart(s.workers[u], s.workers[v]);
    }
  }

  lemma CoveredElsewhere(s: State, w: WorkerId, t: Target, least: nat)
    requires Inv(s) && Enabled(s, Delete(w)) && Covered(s.jobs, s.log, t, least)
    ensures Covered(s.jobs - {s.workers[w].job}, s.log, t, least)
  {
    var worker := s.workers[w];
    var rest := s.jobs - {worker.job};
    assert WorkerOk(s.jobs, s.nextId, s.now, s.log, worker);
    if !Settled(s.log, t) {
      var i :| i in s.jobs && s.jobs[i].data.failureCount >= least && Awaits(s.jobs[i].data, t);
      if i == worker.job {
        assert Awaits(worker.data, t);
        var j :| j in s.jobs && s.jobs[j].data.failureCount >= worker.data.failureCount + 1 && Awaits(s.jobs[j].data, t);
        assert rest[j] == s.jobs[j];
      } else {
        assert rest[i] == s.jobs[i];
      }
    }
  }

  /** Every step, whichever executor takes it or stops, keeps the invariant. */
  lemma StepKeepsInv(s: State, a: Action)
    requires Inv(s) && Enabled(s, a)
    ensures Inv(Perform(s, a))
  {
    match a
    case Tick(_) => TablesExtend(s, Perform(s, a));
    case AddUser(_) => TablesExtend(s, Perform(s, a));
    case RemoveUser(_) => TablesExtend(s, Perform(s, a));
    case EnqueueActivity(_, _, _) => EnqueueKeepsInv(s, a);
    case Take(w, job) => TakeKeepsInv(s, w, job);
    case SenderMissing(w) => LetGoKeepsInv(s, w);
    case Begin(w) => BeginKeepsInv(s, w);
    case DropJob(w) => DropKeepsInv(s, w);
    case Send(w, ok) => SendKeepsInv(s, w, ok);
    case Requeue(w) => RequeueKeepsInv(s, w);
    case GiveUp(w) => GiveUpKeepsInv(s, w);
    case Delete(w) => DeleteKeepsInv(s, w);
    case Crash(w) => LetGoKeepsInv(s, w);
  }

  // Runs

  const Empty := State(map[], 0, map[], {}, {}, 0, Log({}, {}, {}, {}, multiset{}, multiset{}))

  /** What a run may contain: executors that stop, and executors that take a job which another
      one still works on, its lease having run out. */
  datatype Discipline = Discipline(stops: bool, overlaps: bool)

  const Anything := Discipline(true, true)

  predicate IsHeld(s: State, job: JobId) {
    exists w :: w in s.workers && s.workers[w].Busy() && s.workers[w].job == job
  }

  predicate Permitted(d: Discipline, s: State, a: Action) {
    && Enabled(s, a)
    && (a.Crash? ==> d.stops)
    && (a.Take? && IsHeld(s, a.job) ==> d.overlaps)
  }

  /** The states passed through by taking `actions` one after another. */
  ghost predicate Reaches(d: Discipline, s: State, actions: seq<Action>, s': State)
    decreases |actions|
  {
    if actions == [] then s == s'
    else Permitted(d, s, actions[0]) && Reaches(d, Perform(s, actions[0]), actions[1..], s')
  }

  lemma {:induction false} ReachableInv(d: Discipline, s: State, actions: seq<Action>, s': State)
    requires Inv(s) && Reaches(d, s, actions, s')
    ensures Inv(s')
    decreases |actions|
  {
    if actions != [] {
      StepKeepsInv(s, actions[0]);
      ReachableInv(d, Perform(s, actions[0]), actions[1..], s');
    }
  }

  /** An enqueued delivery is never lost: in every reachable state it was acknowledged, or was
      given up after four failed sends, or fell to an unexpected delivery error, or a job row
      awaits it that an executor will be offered again once its time has come. */
  lemma NothingIsLost(actions: seq<Action>, s: State, t: Target)
    requires Reaches(Anything, Empty, actions, s) && t in s.log.enqueued
    ensures || t in s.log.delivered
            || (t in s.log.gaveUp && s.log.failures[t] >= 4)
            || t.activity in s.log.dropped
            || exists i :: i in s.jobs && Awaits(s.jobs[i].data, t)
                        && forall now :: now > s.jobs[i].scheduledFor && now > s.jobs[i].updatedAt + JOB_TIMEOUT ==>
                             Eligible(s.jobs[i], OutgoingActivity, JOB_TIMEOUT, now)
  {
    ReachableInv(Anything, Empty, actions, s);
    assert Covered(s.jobs, s.log, t, 0);
    if !Settled(s.log, t) {
      var i :| i in s.jobs && Awaits(s.jobs[i].data, t);
      assert DataOk(s.log, s.jobs[i].data);
    }
  }

  /** Within a lease nobody else works on the same job. */
  lemma OneExecutorPerLease(actions: seq<Action>, s: State, v: WorkerId, w: WorkerId)
    requires Reaches(Anything, Empty, actions, s) && v in s.workers && w in s.workers && v != w
    requires s.workers[v].Busy() && s.workers[w].Busy() && s.workers[v].job == s.workers[w].job
    ensures s.now > s.workers[v].takenAt + 3600 || s.now > s.workers[w].takenAt + 3600
  {
    ReachableInv(Anything, Empty, actions, s);
    assert LeasesApart(s.workers[v], s.workers[w]);
    assert WorkerOk(s.jobs, s.nextId, s.now, s.log, s.workers[v]);
    assert WorkerOk(s.jobs, s.nextId, s.now, s.log, s.workers[w]);
  }
}
