/** What becomes of the queued deliveries of a user that has been removed. */
module MissingSenders {
  import opened Collections
  import opened JobQueue
  import opened JobProtocol

  predicate SenderKnown(s: State, data: JobData) {
    data.Outgoing? ==> data.sender in s.users + s.gone
  }

  /** Whoever sends was a user once, and whoever is gone is not a user. */
  predicate SendersKnown(s: State) {
    && s.users !! s.gone
    && (forall i {:trigger s.jobs[i]} :: i in s.jobs ==> SenderKnown(s, s.jobs[i].data))
    && (forall w {:trigger s.workers[w]} :: w in s.workers && s.workers[w].Busy() ==> SenderKnown(s, s.workers[w].data))
  }

  lemma StepKeepsSendersKnown(s: State, a: Action)
    requires SendersKnown(s) && Enabled(s, a)
    ensures SendersKnown(Perform(s, a))
  {
    var s' := Perform(s, a);
    forall i | i in s'.jobs ensures SenderKnown(s', s'.jobs[i].data) {
      assert i in s.jobs ==> SenderKnown(s, s.jobs[i].data);
    }
    forall w | w in s'.workers && s'.workers[w].Busy() ensures SenderKnown(s', s'.workers[w].data) {
      assert w in s.workers && s.workers[w].Busy() ==> SenderKnown(s, s.workers[w].data);
    }
  }

  /** The sender of the row is gone before any delivery of it has begun. */
  predicate Abandoned(s: State, i: JobId) {
    && i in s.jobs && s.jobs[i].data.Outgoing? && s.jobs[i].data.sender in s.gone && s.users !! s.gone
    && forall w {:trigger s.workers[w]} :: w in s.workers && s.workers[w].Busy() && s.workers[w].job == i ==> s.workers[w].Loaded?
  }

  /** Whatever happens next, an executor that holds the row can only let go of it. */
  lemma StepKeepsAbandoned(s: State, a: Action, i: JobId)
    requires Inv(s) && Enabled(s, a) && Abandoned(s, i)
    ensures Abandoned(Perform(s, a), i) && Perform(s, a).jobs[i].data == s.jobs[i].data
  {
    var s' := Perform(s, a);
    forall w | w in s.workers && s.workers[w].Busy() && s.workers[w].job == i ensures s.workers[w].data == s.jobs[i].data {
      assert WorkerOk(s.jobs, s.nextId, s.now, s.log, s.workers[w]);
    }
    assert i.uuid < s.nextId;
    forall w | w in s'.workers && s'.workers[w].Busy() && s'.workers[w].job == i ensures s'.workers[w].Loaded? {
      assert w in s.workers && s.workers[w].Busy() && s.workers[w].job == i ==> s.workers[w].Loaded?;
    }
  }

  lemma {:induction false} RunKeepsSendersKnown(s: State, actions: seq<Action>, s': State)
    requires SendersKnown(s) && Reaches(Anything, s, actions, s')
    ensures SendersKnown(s')
    decreases |actions|
  {
    if actions != [] {
      StepKeepsSendersKnown(s, actions[0]);
      RunKeepsSendersKnown(Perform(s, actions[0]), actions[1..], s');
    }
  }

  lemma {:induction false} RunKeepsAbandoned(s: State, actions: seq<Action>, s': State, i: JobId)
    requires Inv(s) && Abandoned(s, i) && Reaches(Anything, s, actions, s')
    ensures Abandoned(s', i) && s'.jobs[i].data == s.jobs[i].data
    decreases |actions|
  {
    if actions != [] {
      StepKeepsInv(s, actions[0]);
      StepKeepsAbandoned(s, actions[0], i);
      RunKeepsAbandoned(Perform(s, actions[0]), actions[1..], s', i);
    }
  }

  /** Nobody can begin its delivery, and it is given out again once its lease has run out. */
  ghost predicate Stuck(s: State, i: JobId)
    requires i in s.jobs
  {
    && (forall w {:trigger s.workers[w]} :: w in s.workers && s.workers[w].Busy() && s.workers[w].job == i ==>
          s.workers[w].Loaded? && !Enabled(s, Begin(w)) && !Enabled(s, DropJob(w)))
    && (forall now :: now > s.jobs[i].scheduledFor && now > s.jobs[i].updatedAt + JOB_TIMEOUT ==>
          Eligible(s.jobs[i], OutgoingActivity, JOB_TIMEOUT, now))
  }

  lemma AbandonedIsStuck(s: State, i: JobId)
    requires Inv(s) && Abandoned(s, i)
    ensures Stuck(s, i)
  {
    forall w | w in s.workers && s.workers[w].Busy() && s.workers[w].job == i ensures s.workers[w].data == s.jobs[i].data {
      assert WorkerOk(s.jobs, s.nextId, s.now, s.log, s.workers[w]);
    }
    assert s.jobs[i].data.Outgoing?;
  }

  lemma GoneInEveryRun(actions: seq<Action>, s: State, i: JobId)
    requires Reaches(Anything, Empty, actions, s)
    requires i in s.jobs && s.jobs[i].data.Outgoing? && s.jobs[i].data.sender !in s.users
    ensures s.jobs[i].data.sender in s.gone && s.users !! s.gone
  {
    RunKeepsSendersKnown(Empty, actions, s);
    assert SenderKnown(s, s.jobs[i].data);
  }

  /** A row whose sender is missing before its delivery has begun is never deleted: in every
      later state of every run it is there with the same data, and as stuck as before. */
  lemma AbandonedForEver(before: seq<Action>, s: State, after: seq<Action>, s': State, i: JobId)
    requires Reaches(Anything, Empty, before, s) && Reaches(Anything, s, after, s')
    requires i in s.jobs && s.jobs[i].data.Outgoing? && s.jobs[i].data.sender !in s.users
    requires forall w :: w in s.workers && s.workers[w].Busy() && s.workers[w].job == i ==> s.workers[w].Loaded?
    ensures i in s'.jobs && s'.jobs[i].data == s.jobs[i].data && s.jobs[i].data.sender !in s'.users
    ensures Stuck(s', i)
  {
    GoneInEveryRun(before, s, i);
    ReachableInv(Anything, Empty, before, s);
    RunKeepsAbandoned(s, after, s', i);
    ReachableInv(Anything, s, after, s');
    AbandonedIsStuck(s', i);
  }
}
