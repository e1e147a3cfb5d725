/** Which runs of the outgoing queue send twice to a recipient that has acknowledged. */
module OrderlyRuns {
  import opened Collections
  import opened JobQueue
  import opened Delivery
  import opened JobProtocol

  /** `t` has been acknowledged, and an executor is about to send to it again. */
  ghost predicate SendsAgain(s: State, t: Target) {
    exists w :: w in s.workers && AboutToSend(s.workers[w], t) && t in s.log.delivered
  }

  predicate AboutToSend(worker: Worker, t: Target) {
    && worker.Sending? && worker.at < |worker.recipients|
    && !worker.recipients[worker.at].isDelivered
    && t == Target(worker.data.activity, worker.recipients[worker.at].id)
  }

  const Orderly := Discipline(false, false)

  // The invariant of orderly runs

  /** Whoever has acknowledged is flagged. */
  predicate AllFlagged(log: Log, activity: Activity, recipients: seq<Recipient>) {
    forall k :: 0 <= k < |recipients| && Target(activity, recipients[k].id) in log.delivered ==> recipients[k].isDelivered
  }

  predicate DistinctRecipients(recipients: seq<Recipient>) {
    forall j, k :: 0 <= j < k < |recipients| ==> recipients[j].id != recipients[k].id
  }

  /** The row is to somebody, to nobody twice, and only to whom the activity was enqueued for. */
  predicate RowShape(log: Log, data: JobData) {
    && data.Outgoing? && data.recipients != [] && DistinctRecipients(data.recipients)
    && Targets(data.activity, data.recipients) <= log.enqueued
  }

  predicate Started(log: Log, activity: Activity) {
    exists t :: t in log.enqueued && t.activity == activity
  }

  /** Only the deletion of the row is left to do. */
  predicate Done(s: State, i: JobId) {
    exists w :: w in s.workers && s.workers[w].Finishing? && s.workers[w].job == i
  }

  predicate InProgress(s: State, i: JobId) {
    exists w :: w in s.workers && s.workers[w].Sending? && s.workers[w].job == i
  }

  predicate DifferentJobs(a: Worker, b: Worker) {
    a.Busy() && b.Busy() ==> a.job != b.job
  }

  /** Every executor has a row of its own. */
  predicate HoldersOk(s: State) {
    && (forall w {:trigger s.workers[w]} :: w in s.workers && s.workers[w].Busy() ==> s.workers[w].job in s.jobs)
    && (forall v, w {:trigger DifferentJobs(s.workers[v], s.workers[w])} :: v in s.workers && w in s.workers && v != w ==>
          DifferentJobs(s.workers[v], s.workers[w]))
  }

  predicate RowsShaped(s: State) {
    && (forall i {:trigger s.jobs[i]} :: i in s.jobs ==> RowShape(s.log, s.jobs[i].data))
    && s.log.delivered <= s.log.enqueued
    && (forall a :: a in s.log.rounds ==> Started(s.log, a))
  }

  /** An activity has one row that is not done. */
  predicate OneRowEach(s: State) {
    forall i, j {:trigger Done(s, i), Done(s, j)} :: i in s.jobs && j in s.jobs && i != j && !Done(s, i) && !Done(s, j) ==>
      s.jobs[i].data.activity != s.jobs[j].data.activity
  }

  /** A row awaits exactly whoever has not acknowledged, in its own round. */
  predicate RowAccurate(log: Log, data: JobData) {
    data.Outgoing? ==> AllFlagged(log, data.activity, data.recipients) && log.rounds[data.activity] == data.failureCount
  }

  predicate CopyAccurate(log: Log, worker: Worker) {
    worker.Sending? ==>
      AllFlagged(log, worker.data.activity, worker.recipients) && log.rounds[worker.data.activity] == worker.data.failureCount + 1
  }

  predicate Accurate(s: State) {
    && (forall i {:trigger RowAccurate(s.log, s.jobs[i].data)} :: i in s.jobs && !Done(s, i) && !InProgress(s, i) ==>
          RowAccurate(s.log, s.jobs[i].data))
    && (forall w {:trigger s.workers[w]} :: w in s.workers ==> CopyAccurate(s.log, s.workers[w]))
  }

  predicate FewRounds(log: Log) {
    forall a :: a in log.rounds ==> log.rounds[a] <= OUTGOING_QUEUE_RETRIES_MAX + 1
  }

  predicate Tidy(s: State) {
    HoldersOk(s) && RowsShaped(s) && OneRowEach(s) && Accurate(s) && FewRounds(s.log)
  }

  ghost predicate OrderlyInv(s: State) {
    Inv(s) && Tidy(s)
  }

  /** What the invariant says of one executor and its row. */
  lemma WorkerFacts(s: State, w: WorkerId)
    requires OrderlyInv(s) && w in s.workers && s.workers[w].Busy()
    ensures var worker := s.workers[w];
            && worker.job in s.jobs && s.jobs[worker.job].data == worker.data && RowShape(s.log, worker.data)
            && worker.data.failureCount <= OUTGOING_QUEUE_RETRIES_MAX
            && (worker.Sending? ==> CopyOk(s.log, worker.data, worker.recipients, worker.at))
            && (Done(s, worker.job) <==> worker.Finishing?) && (InProgress(s, worker.job) <==> worker.Sending?)
  {
    var worker := s.workers[w];
    assert WorkerOk(s.jobs, s.nextId, s.now, s.log, worker);
    assert RowShape(s.log, s.jobs[worker.job].data);
    forall v | v in s.workers && s.workers[v].Busy() && s.workers[v].job == worker.job ensures v == w {
      assert v != w ==> DifferentJobs(s.workers[v], worker);
    }
  }

  /** Moving one executor changes nothing about the rows it has no part in. */
  lemma StageUnchanged(s: State, s': State, w: WorkerId, worker: Worker, i: JobId)
    requires s'.workers == s.workers[w := worker]
    requires w in s.workers && s.workers[w].Busy() ==> s.workers[w].job != i
    requires worker.Busy() ==> worker.job != i
    ensures Done(s', i) == Done(s, i) && InProgress(s', i) == InProgress(s, i)
  {
    forall v | v in s.workers && s.workers[v].Busy() && s.workers[v].job == i ensures v in s'.workers && s'.workers[v] == s.workers[v] {
    }
    forall v | v in s'.workers && s'.workers[v].Busy() && s'.workers[v].job == i ensures v in s.workers && s'.workers[v] == s.workers[v] {
    }
  }

  /** The log only says more about one activity. */
  ghost predicate LogAbout(log: Log, log': Log, activity: Activity) {
    && log'.enqueued == log.enqueued && log.delivered <= log'.delivered <= log.enqueued
    && (forall t :: t in log'.delivered && t !in log.delivered ==> t.activity == activity)
    && (forall a :: a != activity ==> log'.rounds[a] == log.rounds[a])
  }

  lemma OthersStayAccurate(log: Log, log': Log, activity: Activity, data: JobData, worker: Worker)
    requires LogAbout(log, log', activity)
    ensures RowAccurate(log, data) && data.activity != activity ==> RowAccurate(log', data)
    ensures CopyAccurate(log, worker) && worker.Sending? && worker.data.activity != activity ==> CopyAccurate(log', worker)
  {
  }

  /** One executor goes on with its row, or leaves it as it was. */
  lemma WorkerMoves(s: State, s': State, w: WorkerId)
    requires OrderlyInv(s) && Inv(s') && w in s.workers && s.workers[w].Busy() && !s.workers[w].Finishing?
    requires s'.jobs == s.jobs && w in s'.workers && s'.workers == s.workers[w := s'.workers[w]]
    requires s'.workers[w].Busy() ==> s'.workers[w].job == s.workers[w].job && s'.workers[w].data == s.workers[w].data
    requires LogAbout(s.log, s'.log, s.workers[w].data.activity)
    requires s'.log.rounds[s.workers[w].data.activity] <= OUTGOING_QUEUE_RETRIES_MAX + 1
    requires CopyAccurate(s'.log, s'.workers[w])
    requires !s'.workers[w].Sending? && !s'.workers[w].Finishing? ==> RowAccurate(s'.log, s.workers[w].data)
    ensures OrderlyInv(s')
  {
    var worker, worker' := s.workers[w], s'.workers[w];
    WorkerFacts(s, w);
    forall i | i != worker.job ensures Done(s', i) == Done(s, i) && InProgress(s', i) == InProgress(s, i) {
      StageUnchanged(s, s', w, worker', i);
    }
    assert Started(s'.log, worker.data.activity) by {
      assert Target(worker.data.activity, worker.data.recipients[0].id) in s.log.enqueued;
    }
    MovedHolders(s, s', w);
    MovedAccurate(s, s', w);
    forall a | a in s'.log.rounds ensures Started(s'.log, a) && s'.log.rounds[a] <= OUTGOING_QUEUE_RETRIES_MAX + 1 {
      assert a != worker.data.activity ==> s.log.rounds[a] == s'.log.rounds[a];
    }
  }

  lemma MovedHolders(s: State, s': State, w: WorkerId)
    requires HoldersOk(s) && w in s.workers && s.workers[w].Busy() && s'.jobs == s.jobs
    requires w in s'.workers && s'.workers == s.workers[w := s'.workers[w]]
    requires s'.workers[w].Busy() ==> s'.workers[w].job == s.workers[w].job
    ensures HoldersOk(s')
  {
    forall u, v | u in s'.workers && v in s'.workers && u != v ensures DifferentJobs(s'.workers[u], s'.workers[v]) {
      assert DifferentJobs(s.workers[u], s.workers[v]);
    }
  }

  lemma MovedAccurate(s: State, s': State, w: WorkerId)
    requires OrderlyInv(s) && w in s.workers && s.workers[w].Busy() && !s.workers[w].Finishing?
    requires s'.jobs == s.jobs && w in s'.workers && s'.workers == s.workers[w := s'.workers[w]]
    requires s'.workers[w].Busy() ==> s'.workers[w].job == s.workers[w].job
    requires LogAbout(s.log, s'.log, s.workers[w].data.activity)
    requires forall i :: i != s.workers[w].job ==> Done(s', i) == Done(s, i) && InProgress(s', i) == InProgress(s, i)
    requires CopyAccurate(s'.log, s'.workers[w])
    requires !s'.workers[w].Sending? && !s'.workers[w].Finishing? ==> RowAccurate(s'.log, s.workers[w].data)
    ensures Accurate(s')
  {
    var worker := s.workers[w];
    WorkerFacts(s, w);
    assert s'.workers[w].Sending? ==> InProgress(s', s'.workers[w].job);
    assert s'.workers[w].Finishing? ==> Done(s', s'.workers[w].job);
    forall i | i in s'.jobs && !Done(s', i) && !InProgress(s', i) ensures RowAccurate(s'.log, s'.jobs[i].data) {
      if i != worker.job {
        assert RowAccurate(s.log, s.jobs[i].data);
        assert !Done(s, i) && !Done(s, worker.job);
        OthersStayAccurate(s.log, s'.log, worker.data.activity, s.jobs[i].data, worker);
      }
    }
    forall v | v in s'.workers ensures CopyAccurate(s'.log, s'.workers[v]) {
      if v != w && s.workers[v].Sending? {
        WorkerFacts(s, v);
        assert DifferentJobs(s.workers[v], worker);
        assert !Done(s, s.workers[v].job) && !Done(s, worker.job);
        assert CopyAccurate(s.log, s.workers[v]);
        OthersStayAccurate(s.log, s'.log, worker.data.activity, worker.data, s.workers[v]);
      }
    }
  }

  /** Rows that are there keep their data, and no executor starts to send. */
  lemma StillAccurate(s: State, s': State)
    requires Accurate(s) && s'.log == s.log
    requires forall i :: i in s.jobs && i in s'.jobs && !Done(s', i) && !InProgress(s', i) ==>
               s'.jobs[i].data == s.jobs[i].data && !Done(s, i) && !InProgress(s, i)
    requires forall i :: i in s'.jobs && i !in s.jobs ==> RowAccurate(s.log, s'.jobs[i].data)
    requires forall v :: v in s'.workers && s'.workers[v].Sending? ==> v in s.workers && s'.workers[v] == s.workers[v]
    ensures Accurate(s')
  {
    forall i | i in s'.jobs && !Done(s', i) && !InProgress(s', i) ensures RowAccurate(s'.log, s'.jobs[i].data) {
      assert i in s.jobs ==> RowAccurate(s.log, s.jobs[i].data);
    }
    forall v | v in s'.workers ensures CopyAccurate(s'.log, s'.workers[v]) {
      assert s'.workers[v].Sending? ==> CopyAccurate(s.log, s.workers[v]);
    }
  }

  // Every step of an orderly run

  lemma BeginIsOrderly(s: State, w: WorkerId)
    requires OrderlyInv(s) && Enabled(s, Begin(w))
    ensures OrderlyInv(Perform(s, Begin(w)))
  {
    StepKeepsInv(s, Begin(w));
    WorkerFacts(s, w);
    assert RowAccurate(s.log, s.jobs[s.workers[w].job].data);
    WorkerMoves(s, Perform(s, Begin(w)), w);
  }

  lemma SenderMissingIsOrderly(s: State, w: WorkerId)
    requires OrderlyInv(s) && Enabled(s, SenderMissing(w))
    ensures OrderlyInv(Perform(s, SenderMissing(w)))
  {
    StepKeepsInv(s, SenderMissing(w));
    WorkerFacts(s, w);
    assert RowAccurate(s.log, s.jobs[s.workers[w].job].data);
    WorkerMoves(s, Perform(s, SenderMissing(w)), w);
  }

  lemma DropIsOrderly(s: State, w: WorkerId)
    requires OrderlyInv(s) && Enabled(s, DropJob(w))
    ensures OrderlyInv(Perform(s, DropJob(w)))
  {
    StepKeepsInv(s, DropJob(w));
    WorkerMoves(s, Perform(s, DropJob(w)), w);
  }

  lemma GiveUpIsOrderly(s: State, w: WorkerId)
    requires OrderlyInv(s) && Enabled(s, GiveUp(w))
    ensures OrderlyInv(Perform(s, GiveUp(w)))
  {
    StepKeepsInv(s, GiveUp(w));
    WorkerMoves(s, Perform(s, GiveUp(w)), w);
  }

  /** An acknowledgement and the flag of that recipient, and of no other, go together. */
  lemma SentCopy(log: Log, worker: Worker, ok: bool)
    requires worker.Sending? && worker.at < |worker.recipients| && CopyAccurate(log, worker)
    requires RowShape(log, worker.data) && log.delivered <= log.enqueued && CopyOk(log, worker.data, worker.recipients, worker.at)
    ensures CopyAccurate(LogSend(log, worker, ok), AfterSend(worker, ok))
    ensures LogAbout(log, LogSend(log, worker, ok), worker.data.activity)
  {
    assert Target(worker.data.activity, worker.recipients[worker.at].id) in log.enqueued by {
      assert worker.recipients[worker.at].id == worker.data.recipients[worker.at].id;
    }
    forall k | 0 <= k < |worker.recipients| && k != worker.at ensures worker.recipients[k].id != worker.recipients[worker.at].id {
      assert worker.recipients[k].id == worker.data.recipients[k].id;
    }
  }

  lemma SendIsOrderly(s: State, w: WorkerId, ok: bool)
    requires OrderlyInv(s) && Enabled(s, Send(w, ok))
    ensures OrderlyInv(Perform(s, Send(w, ok)))
  {
    StepKeepsInv(s, Send(w, ok));
    WorkerFacts(s, w);
    assert CopyAccurate(s.log, s.workers[w]);
    SentCopy(s.log, s.workers[w], ok);
    WorkerMoves(s, Perform(s, Send(w, ok)), w);
  }

  /** A row for nobody's use yet is added. */
  lemma NewRow(s: State, s': State, i: JobId, i': JobId)
    requires OrderlyInv(s) && s'.workers == s.workers && i' !in s.jobs && i'.uuid >= s.nextId
    ensures Done(s', i) == Done(s, i) && InProgress(s', i) == InProgress(s, i)
    ensures !Done(s', i') && !InProgress(s', i')
  {
    forall w | w in s.workers && s.workers[w].Busy() ensures s.workers[w].job != i' {
      assert s.workers[w].job in s.jobs;
    }
  }

  lemma EnqueueIsOrderly(s: State, a: Action)
    requires OrderlyInv(s) && a.EnqueueActivity? && Enabled(s, a)
    ensures OrderlyInv(Perform(s, a))
  {
    var s', n := Perform(s, a), JobId(s.nextId);
    StepKeepsInv(s, a);
    assert n !in s.jobs;
    NewIsShaped(s, a);
    forall i ensures Done(s', i) == Done(s, i) && InProgress(s', i) == InProgress(s, i) {
      NewRow(s, s', i, n);
    }
    NewRow(s, s', n, n);
    forall i | i in s.jobs ensures s.jobs[i].data.activity != a.activity {
      assert RowShape(s.log, s.jobs[i].data);
      assert Target(s.jobs[i].data.activity, s.jobs[i].data.recipients[0].id) in s.log.enqueued;
    }
    forall i | i in s'.jobs && !Done(s', i) && !InProgress(s', i) ensures RowAccurate(s'.log, s'.jobs[i].data) {
      assert i != n ==> RowAccurate(s.log, s.jobs[i].data);
    }
    forall w | w in s'.workers ensures CopyAccurate(s'.log, s'.workers[w]) {
      assert CopyAccurate(s.log, s.workers[w]);
    }
  }

  lemma NewIsShaped(s: State, a: Action)
    requires OrderlyInv(s) && a.EnqueueActivity? && Enabled(s, a)
    ensures RowsShaped(Perform(s, a))
    ensures a.activity !in s.log.rounds && forall t :: t in s.log.delivered ==> t.activity != a.activity
  {
    var s', n := Perform(s, a), JobId(s.nextId);
    forall j, k | 0 <= j < k < |a.recipients| ensures a.recipients[j].id != a.recipients[k].id {
      assert RecipientIds(a.recipients)[j] != RecipientIds(a.recipients)[k];
    }
    forall i | i in s'.jobs ensures RowShape(s'.log, s'.jobs[i].data) {
      assert i != n ==> RowShape(s.log, s.jobs[i].data);
    }
    forall b | b in s'.log.rounds ensures Started(s'.log, b) {
      assert Started(s.log, b);
      var t :| t in s.log.enqueued && t.activity == b;
    }
  }

  lemma TakenHolders(s: State, w: WorkerId, job: JobId)
    requires HoldersOk(s) && Enabled(s, Take(w, job)) && !IsHeld(s, job)
    ensures HoldersOk(Perform(s, Take(w, job)))
  {
    var s' := Perform(s, Take(w, job));
    forall u, v | u in s'.workers && v in s'.workers && u != v ensures DifferentJobs(s'.workers[u], s'.workers[v]) {
      if u in s.workers && v in s.workers {
        assert DifferentJobs(s.workers[u], s.workers[v]);
      }
    }
  }

  lemma TakenRows(s: State, w: WorkerId, job: JobId)
    requires RowsShaped(s) && Enabled(s, Take(w, job))
    ensures RowsShaped(Perform(s, Take(w, job)))
    ensures var s' := Perform(s, Take(w, job));
            s'.jobs.Keys == s.jobs.Keys && forall i :: i in s.jobs ==> s'.jobs[i].data == s.jobs[i].data
  {
    var s' := Perform(s, Take(w, job));
    forall i | i in s'.jobs ensures RowShape(s'.log, s'.jobs[i].data) {
      assert RowShape(s.log, s.jobs[i].data);
    }
  }

  /** Taking a row that nobody holds moves no row on. */
  lemma TakenStages(s: State, w: WorkerId, job: JobId, i: JobId)
    requires Enabled(s, Take(w, job)) && !IsHeld(s, job)
    ensures var s' := Perform(s, Take(w, job));
            Done(s', i) == Done(s, i) && InProgress(s', i) == InProgress(s, i)
  {
    var s' := Perform(s, Take(w, job));
    if i != job {
      StageUnchanged(s, s', w, s'.workers[w], i);
    }
  }

  lemma TakeIsOrderly(s: State, w: WorkerId, job: JobId)
    requires OrderlyInv(s) && Enabled(s, Take(w, job)) && !IsHeld(s, job)
    ensures OrderlyInv(Perform(s, Take(w, job)))
  {
    var s' := Perform(s, Take(w, job));
    StepKeepsInv(s, Take(w, job));
    TakenHolders(s, w, job);
    TakenRows(s, w, job);
    forall i ensures Done(s', i) == Done(s, i) && InProgress(s', i) == InProgress(s, i) {
      TakenStages(s, w, job, i);
    }
    StillAccurate(s, s');
  }

  lemma RequeueStages(s: State, w: WorkerId, i: JobId)
    requires OrderlyInv(s) && Enabled(s, Requeue(w))
    ensures var s', job := Perform(s, Requeue(w)), s.workers[w].job;
            && (i != job ==> Done(s', i) == Done(s, i) && InProgress(s', i) == InProgress(s, i))
            && Done(s', job) && !Done(s, job) && !Done(s, JobId(s.nextId)) && !InProgress(s, JobId(s.nextId))
  {
    var s', worker, n := Perform(s, Requeue(w)), s.workers[w], JobId(s.nextId);
    WorkerFacts(s, w);
    if i != worker.job {
      StageUnchanged(s, s', w, s'.workers[w], i);
    }
    assert n !in s.jobs;
    NewRow(s, s.(jobs := s'.jobs), n, n);
    assert s'.workers[w].Finishing? && s'.workers[w].job == worker.job;
  }

  lemma RequeuedHolders(s: State, w: WorkerId)
    requires HoldersOk(s) && Enabled(s, Requeue(w))
    ensures HoldersOk(Perform(s, Requeue(w)))
  {
    var s' := Perform(s, Requeue(w));
    var moved := s.(workers := s'.workers);
    MovedHolders(s, moved, w);
    forall u, v | u in s'.workers && v in s'.workers && u != v ensures DifferentJobs(s'.workers[u], s'.workers[v]) {
      assert DifferentJobs(moved.workers[u], moved.workers[v]);
    }
  }

  lemma RequeueIsTidy(s: State, w: WorkerId)
    requires Tidy(s) && Enabled(s, Requeue(w)) && JobId(s.nextId) !in s.jobs && s.workers[w].job in s.jobs
    requires s.jobs[s.workers[w].job].data.activity == s.workers[w].data.activity
    requires var s', job, n := Perform(s, Requeue(w)), s.workers[w].job, JobId(s.nextId);
             && (forall i :: i != job ==> Done(s', i) == Done(s, i) && InProgress(s', i) == InProgress(s, i))
             && Done(s', job) && !Done(s, job) && !Done(s, n)
             && RowShape(s.log, s'.jobs[n].data) && RowAccurate(s.log, s'.jobs[n].data)
    ensures Tidy(Perform(s, Requeue(w)))
  {
    var s', n := Perform(s, Requeue(w)), JobId(s.nextId);
    RequeuedHolders(s, w);
    forall i | i in s'.jobs ensures RowShape(s'.log, s'.jobs[i].data) {
      assert i != n ==> RowShape(s.log, s.jobs[i].data);
    }
    StillAccurate(s, s');
  }

  /** Whoever has not acknowledged goes on in a new row; the old one is done. */
  lemma RequeueIsOrderly(s: State, w: WorkerId)
    requires OrderlyInv(s) && Enabled(s, Requeue(w))
    ensures OrderlyInv(Perform(s, Requeue(w)))
  {
    StepKeepsInv(s, Requeue(w));
    WorkerFacts(s, w);
    CopyIsShaped(s, w);
    RequeueStages(s, w, JobId(s.nextId));
    forall i ensures var s', job := Perform(s, Requeue(w)), s.workers[w].job;
                     i != job ==> Done(s', i) == Done(s, i) && InProgress(s', i) == InProgress(s, i)
    {
      RequeueStages(s, w, i);
    }
    assert CopyAccurate(s.log, s.workers[w]);
    RequeueIsTidy(s, w);
  }

  lemma CopyIsShaped(s: State, w: WorkerId)
    requires OrderlyInv(s) && Enabled(s, Requeue(w))
    ensures RowShape(s.log, Perform(s, Requeue(w)).jobs[JobId(s.nextId)].data)
  {
    var worker := s.workers[w];
    WorkerFacts(s, w);
    forall j, k | 0 <= j < k < |worker.recipients| ensures worker.recipients[j].id != worker.recipients[k].id {
      assert worker.data.recipients[j].id != worker.data.recipients[k].id;
    }
    forall k | 0 <= k < |worker.recipients| ensures Target(worker.data.activity, worker.recipients[k].id) in s.log.enqueued {
      assert Target(worker.data.activity, worker.data.recipients[k].id) in Targets(worker.data.activity, worker.data.recipients);
    }
  }

  lemma DeleteIsOrderly(s: State, w: WorkerId)
    requires OrderlyInv(s) && Enabled(s, Delete(w))
    ensures OrderlyInv(Perform(s, Delete(w)))
  {
    var s', worker := Perform(s, Delete(w)), s.workers[w];
    StepKeepsInv(s, Delete(w));
    forall i | i != worker.job ensures Done(s', i) == Done(s, i) && InProgress(s', i) == InProgress(s, i) {
      StageUnchanged(s, s', w, Idle, i);
    }
    forall u, v | u in s'.workers && v in s'.workers && u != v ensures DifferentJobs(s'.workers[u], s'.workers[v]) {
      assert DifferentJobs(s.workers[u], s.workers[v]);
    }
    forall v | v in s'.workers && s'.workers[v].Busy() ensures s'.workers[v].job in s'.jobs {
      assert DifferentJobs(s.workers[v], worker);
    }
    StillAccurate(s, s');
  }

  lemma ElsewhereIsOrderly(s: State, s': State)
    requires OrderlyInv(s) && Inv(s') && s'.jobs == s.jobs && s'.workers == s.workers && s'.log == s.log
    ensures OrderlyInv(s')
  {
    forall i ensures Done(s', i) == Done(s, i) && InProgress(s', i) == InProgress(s, i) {
    }
    forall i | i in s'.jobs && !Done(s', i) && !InProgress(s', i) ensures RowAccurate(s'.log, s'.jobs[i].data) {
      assert RowAccurate(s.log, s.jobs[i].data);
    }
  }

  /** Every step of an orderly run keeps the invariant. */
  lemma StepIsOrderly(s: State, a: Action)
    requires OrderlyInv(s) && Permitted(Orderly, s, a)
    ensures OrderlyInv(Perform(s, a))
  {
    match a
    case Tick(_) => StepKeepsInv(s, a); ElsewhereIsOrderly(s, Perform(s, a));
    case AddUser(_) => StepKeepsInv(s, a); ElsewhereIsOrderly(s, Perform(s, a));
    case RemoveUser(_) => StepKeepsInv(s, a); ElsewhereIsOrderly(s, Perform(s, a));
    case EnqueueActivity(_, _, _) => EnqueueIsOrderly(s, a);
    case Take(w, job) => TakeIsOrderly(s, w, job);
    case SenderMissing(w) => SenderMissingIsOrderly(s, w);
    case Begin(w) => BeginIsOrderly(s, w);
    case DropJob(w) => DropIsOrderly(s, w);
    case Send(w, ok) => SendIsOrderly(s, w, ok);
    case Requeue(w) => RequeueIsOrderly(s, w);
    case GiveUp(w) => GiveUpIsOrderly(s, w);
    case Delete(w) => DeleteIsOrderly(s, w);
    case Crash(_) =>
  }

  lemma {:induction false} OrderlyStates(s: State, actions: seq<Action>, s': State)
    requires OrderlyInv(s) && Reaches(Orderly, s, actions, s')
    ensures OrderlyInv(s')
    decreases |actions|
  {
    if actions != [] {
      StepIsOrderly(s, actions[0]);
      OrderlyStates(Perform(s, actions[0]), actions[1..], s');
    }
  }

  /** When no executor stops, and none takes a job that another one still works on, nobody who
      has acknowledged is sent to again, and no activity has more than four rounds. */
  lemma OrderlyRunsSendOnce(actions: seq<Action>, s: State)
    requires Reaches(Orderly, Empty, actions, s)
    ensures forall t :: !SendsAgain(s, t)
    ensures forall a :: a in s.log.rounds ==> s.log.rounds[a] <= 4
  {
    OrderlyStates(Empty, actions, s);
    forall w, t | w in s.workers && t in s.log.delivered ensures !AboutToSend(s.workers[w], t) {
      assert CopyAccurate(s.log, s.workers[w]);
    }
  }
}
