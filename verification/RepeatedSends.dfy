/** The two ways in which a recipient that has acknowledged is sent to again, and that there
    is no third. */
module RepeatedSends {
  import opened Collections
  import opened JobQueue
  import opened Delivery
  import opened JobProtocol
  import opened OrderlyRuns

  ghost predicate CanReach(d: Discipline, s: State, end: State) {
    exists actions :: Reaches(d, s, actions, end)
  }

  lemma {:induction false} ReachesThenPerforms(d: Discipline, s: State, actions: seq<Action>, middle: State, a: Action)
    requires Reaches(d, s, actions, middle) && Permitted(d, middle, a)
    ensures Reaches(d, s, actions + [a], Perform(middle, a))
    decreases |actions|
  {
    if actions == [] {
      assert actions + [a] == [a] && [a][1..] == [];
      assert Reaches(d, Perform(s, a), [], Perform(middle, a));
    } else {
      assert (actions + [a])[1..] == actions[1..] + [a];
      ReachesThenPerforms(d, Perform(s, actions[0]), actions[1..], middle, a);
    }
  }

  lemma ThenPerform(d: Discipline, s: State, middle: State, a: Action)
    requires CanReach(d, s, middle) && Permitted(d, middle, a)
    ensures CanReach(d, s, Perform(middle, a))
  {
    var actions :| Reaches(d, s, actions, middle);
    ReachesThenPerforms(d, s, actions, middle, a);
  }

  lemma Stay(d: Discipline, s: State)
    ensures CanReach(d, s, s)
  {
    assert Reaches(d, s, [], s);
  }

  lemma OnlyJobIsBatch(jobs: JobTable, id: JobId, now: int)
    requires jobs.Keys == {id} && Eligible(jobs[id], OutgoingActivity, JOB_TIMEOUT, now)
    ensures IsBatch(jobs, OutgoingActivity, OUTGOING_QUEUE_BATCH_SIZE, JOB_TIMEOUT, now, {id})
  {
  }

  // One activity for one recipient

  const FIRST := WorkerId(0)
  const SECOND := WorkerId(1)
  const JOB := JobId(0)

  /** The only row is that of an activity for one recipient, due, and its sender is there. */
  ghost predicate OneRow(s: State, activity: Activity, r: Recipient) {
    && s.jobs.Keys == {JOB} && s.jobs[JOB].data.Outgoing?
    && s.jobs[JOB].data.activity == activity && s.jobs[JOB].data.recipients == [r]
    && s.jobs[JOB].data.sender in s.users
    && Eligible(s.jobs[JOB], OutgoingActivity, JOB_TIMEOUT, s.now)
  }

  ghost predicate StartedBy(s: State, w: WorkerId, activity: Activity, r: Recipient) {
    && w in s.workers && s.workers[w].Sending? && s.workers[w].data.activity == activity
    && s.workers[w].recipients == [r] && s.workers[w].at == 0
  }

  lemma EnqueueOne(d: Discipline, activity: Activity, sender: UserId, r: Recipient) returns (s: State)
    requires !r.isDelivered
    ensures CanReach(d, Empty, s) && OneRow(s, activity, r) && s.workers == map[]
  {
    var add, enqueue := AddUser(sender), EnqueueActivity(activity, sender, [r]);
    var s1 := Perform(Empty, add);
    assert Permitted(d, s1, enqueue);
    var s2 := Perform(s1, enqueue);
    s := Perform(s2, Tick(1));
    Stay(d, Empty);
    ThenPerform(d, Empty, Empty, add);
    ThenPerform(d, Empty, s1, enqueue);
    ThenPerform(d, Empty, s2, Tick(1));
  }

  /** An executor takes the only row, which nobody else holds unless that is permitted, and
      starts to send. */
  lemma TakeAndBegin(d: Discipline, s: State, w: WorkerId, activity: Activity, r: Recipient) returns (s': State)
    requires CanReach(d, Empty, s) && OneRow(s, activity, r) && WorkerOf(s, w).Idle? && (IsHeld(s, JOB) ==> d.overlaps)
    ensures CanReach(d, Empty, s') && StartedBy(s', w, activity, r)
    ensures s'.users == s.users && s'.log.delivered == s.log.delivered && s'.now == s.now
    ensures s'.jobs == Leased(s.jobs, {JOB}, s.now) && s'.workers.Keys == s.workers.Keys + {w}
  {
    OnlyJobIsBatch(s.jobs, JOB, s.now);
    var s1 := Perform(s, Take(w, JOB));
    s' := Perform(s1, Begin(w));
    ThenPerform(d, Empty, s, Take(w, JOB));
    ThenPerform(d, Empty, s1, Begin(w));
  }

  /** The recipient acknowledges, and nothing more happens until the lease has run out. */
  lemma SendAndWait(d: Discipline, s: State, w: WorkerId, activity: Activity, r: Recipient) returns (s': State)
    requires CanReach(d, Empty, s) && StartedBy(s, w, activity, r) && !r.isDelivered
    requires s.jobs.Keys == {JOB} && s.jobs[JOB].status.Running? && s.jobs[JOB].updatedAt == s.now
    requires s.jobs[JOB].data.Outgoing? && s.jobs[JOB].data.activity == activity && s.jobs[JOB].data.recipients == [r]
    requires s.jobs[JOB].data.sender in s.users && s.jobs[JOB].scheduledFor < s.now
    ensures CanReach(d, Empty, s') && OneRow(s', activity, r) && Target(activity, r.id) in s'.log.delivered
    ensures s'.workers.Keys == s.workers.Keys && w in s'.workers && s'.workers[w].Busy()
  {
    var s1 := Perform(s, Send(w, true));
    s' := Perform(s1, Tick(JOB_TIMEOUT + 1));
    ThenPerform(d, Empty, s, Send(w, true));
    ThenPerform(d, Empty, s1, Tick(JOB_TIMEOUT + 1));
  }

  /** An executor that stops, or one that is slower than its lease, is enough. */
  lemma RepeatedSend(d: Discipline, activity: Activity, sender: UserId, r: Recipient)
    requires !r.isDelivered && (d.stops || d.overlaps)
    ensures exists s :: CanReach(d, Empty, s) && SendsAgain(s, Target(activity, r.id))
  {
    var queued := EnqueueOne(d, activity, sender, r);
    var started := TakeAndBegin(d, queued, FIRST, activity, r);
    var sent := SendAndWait(d, started, FIRST, activity, r);
    var again: State;
    if d.stops {
      ThenPerform(d, Empty, sent, Crash(FIRST));
      again := TakeAndBegin(d, Perform(sent, Crash(FIRST)), FIRST, activity, r);
      assert AboutToSend(again.workers[FIRST], Target(activity, r.id));
    } else {
      again := TakeAndBegin(d, sent, SECOND, activity, r);
      assert AboutToSend(again.workers[SECOND], Target(activity, r.id));
    }
  }

  /** Someone who has acknowledged can be sent to again exactly when executors may stop, or may
      take a job that another one still works on. */
  lemma RepeatedSendIff(d: Discipline, activity: Activity, r: Recipient)
    requires !r.isDelivered
    ensures (exists s :: CanReach(d, Empty, s) && SendsAgain(s, Target(activity, r.id))) <==> d.stops || d.overlaps
  {
    if d.stops || d.overlaps {
      RepeatedSend(d, activity, UserId(0), r);
    } else {
      forall s | CanReach(d, Empty, s) ensures !SendsAgain(s, Target(activity, r.id)) {
        var actions :| Reaches(d, Empty, actions, s);
        OrderlyRunsSendOnce(actions, s);
      }
    }
  }
}
