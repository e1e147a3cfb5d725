/** The executor of the outgoing queue takes part in the protocol: what one undisturbed run of it
    does to the table is what a sequence of protocol actions does. */
module ProtocolTurn {
  import opened Collections
  import opened JobQueue
  import opened Delivery
  import opened JobProtocol
  import opened RepeatedSends

  /** The recipients once the first `k` of them have been tried. */
  function PartRound(recipients: seq<Recipient>, ok: nat -> bool, k: nat): (part: seq<Recipient>)
    ensures |part| == |recipients|
  {
    seq(|recipients|, i requires 0 <= i < |recipients| =>
      recipients[i].(isDelivered := recipients[i].isDelivered || (i < k && ok(i))))
  }

  /** Executor `w` is about to try the k-th recipient of its job; the tables are those of `s`. */
  predicate Trying(s: State, now: State, w: WorkerId, job: JobId, data: JobData, ok: nat -> bool, k: nat) {
    && data.Outgoing? && w in now.workers && now.workers[w].Sending?
    && now.workers[w].job == job && now.workers[w].data == data && now.workers[w].at == k
    && now.workers[w].recipients == PartRound(data.recipients, ok, k)
    && now.jobs == s.jobs && now.nextId == s.nextId && now.users == s.users && now.now == s.now
  }

  lemma {:induction false} TryAll(d: Discipline, from: State, s: State, now: State, w: WorkerId, job: JobId, data: JobData,
                                  ok: nat -> bool, k: nat) returns (end: State)
    requires data.Outgoing? && CanReach(d, from, now) && Trying(s, now, w, job, data, ok, k) && k <= |data.recipients|
    ensures CanReach(d, from, end) && Trying(s, end, w, job, data, ok, |data.recipients|)
    decreases |data.recipients| - k
  {
    if k == |data.recipients| {
      end := now;
    } else {
      var next := Perform(now, Send(w, ok(k)));
      ThenPerform(d, from, now, Send(w, ok(k)));
      assert PartRound(data.recipients, ok, k + 1)
          == PartRound(data.recipients, ok, k)[k := data.recipients[k].(isDelivered := data.recipients[k].isDelivered || ok(k))];
      end := TryAll(d, from, s, next, w, job, data, ok, k + 1);
    }
  }

  /** The job is taken and its delivery begun. */
  lemma TakeAndStart(d: Discipline, s: State, w: WorkerId, job: JobId, ok: nat -> bool) returns (now: State)
    requires Permitted(d, s, Take(w, job)) && s.jobs[job].data.Outgoing? && s.jobs[job].data.sender in s.users
    ensures CanReach(d, s, now)
    ensures Trying(s.(jobs := Leased(s.jobs, {job}, s.now)), now, w, job, s.jobs[job].data, ok, 0)
  {
    var taken := Perform(s, Take(w, job));
    now := Perform(taken, Begin(w));
    Stay(d, s);
    ThenPerform(d, s, s, Take(w, job));
    ThenPerform(d, s, taken, Begin(w));
    var recipients := s.jobs[job].data.recipients;
    assert PartRound(recipients, ok, 0) == recipients by {
      forall i | 0 <= i < |recipients| ensures PartRound(recipients, ok, 0)[i] == recipients[i] {
      }
    }
  }

  /** When everybody has been tried, the next round is queued, or the delivery is given up or
      complete; then the row goes. */
  lemma FinishTurn(d: Discipline, from: State, s: State, now: State, w: WorkerId, job: JobId, data: JobData, ok: nat -> bool)
    returns (end: State)
    requires data.Outgoing? && CanReach(d, from, now) && Trying(s, now, w, job, data, ok, |data.recipients|)
    ensures CanReach(d, from, end) && WorkerOf(end, w).Idle? && end.now == s.now
    ensures end.jobs == AfterDelivery(s.jobs, s.nextId, job, NextRound(data, ok), s.now)
    ensures end.nextId == s.nextId + if NextRound(data, ok).Some? then 1 else 0
  {
    assert PartRound(data.recipients, ok, |data.recipients|) == AfterRound(data.recipients, ok);
    var last := if NextRound(data, ok).Some? then Requeue(w) else GiveUp(w);
    var finishing := Perform(now, last);
    ThenPerform(d, from, now, last);
    end := Perform(finishing, Delete(w));
    ThenPerform(d, from, finishing, Delete(w));
  }

  /** One run of `process_queued_outgoing_activities`, which takes the job at `s.now` and finishes
      it at `later`, is such a sequence of actions: the table it leaves, as its contract states
      it, is reached in the protocol, with the executor free again. */
  lemma TurnIsReached(d: Discipline, s: State, w: WorkerId, job: JobId, ok: nat -> bool, later: int)
    requires Permitted(d, s, Take(w, job)) && s.jobs[job].data.Outgoing? && s.jobs[job].data.sender in s.users && s.now <= later
    ensures var data := s.jobs[job].data;
            exists end :: && CanReach(d, s, end) && WorkerOf(end, w).Idle? && end.now == later
                          && end.jobs == AfterDelivery(Leased(s.jobs, {job}, s.now), s.nextId, job, NextRound(data, ok), later)
  {
    var data := s.jobs[job].data;
    var taken := TakeAndStart(d, s, w, job, ok);
    var tried := TryAll(d, s, s.(jobs := Leased(s.jobs, {job}, s.now)), taken, w, job, data, ok, 0);
    var waited := Perform(tried, Tick(later - s.now));
    ThenPerform(d, s, tried, Tick(later - s.now));
    var end := FinishTurn(d, s, waited, waited, w, job, data, ok);
  }
}
