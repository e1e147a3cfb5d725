/** Delivering activities to remote inboxes, and handling received ones, from the job queue. */
module Delivery {
  import opened Collections
  import opened Text
  import opened JobQueue

  datatype Actor = Actor(id: string, inbox: string)

  // OutgoingActivity::new

  /** `r` is the first of `actors` that has its id. */
  predicate IsFirst(actors: seq<Actor>, r: Recipient) {
    exists i :: 0 <= i < |actors| && actors[i] == Actor(r.id, r.inbox) && forall j :: 0 <= j < i ==> actors[j].id != r.id
  }

  function RecipientIds(recipients: seq<Recipient>): (ids: seq<string>)
    ensures |ids| == |recipients| && forall i :: 0 <= i < |ids| ==> ids[i] == recipients[i].id
  {
    seq(|recipients|, i requires 0 <= i < |recipients| => recipients[i].id)
  }

  /** One recipient for each actor id, in the order of the ids, none delivered yet. */
  method NewRecipients(actors: seq<Actor>) returns (recipients: seq<Recipient>)
    ensures Increasing(RecipientIds(recipients)) && NoDuplicates(RecipientIds(recipients))
    ensures forall x :: x in RecipientIds(recipients) <==> exists i :: 0 <= i < |actors| && actors[i].id == x
    ensures forall r :: r in recipients ==> !r.isDelivered && IsFirst(actors, r)
  {
    var recipientMap: map<string, Recipient> := map[];
    for i := 0 to |actors|
      invariant forall x :: x in recipientMap <==> exists j :: 0 <= j < i && actors[j].id == x
      invariant forall x :: x in recipientMap ==>
                  recipientMap[x].id == x && !recipientMap[x].isDelivered && IsFirst(actors, recipientMap[x])
    {
      var actor := actors[i];
      if actor.id !in recipientMap {
        var recipient := Recipient(actor.id, actor.inbox, false);
        assert IsFirst(actors, recipient);
        recipientMap := recipientMap[actor.id := recipient];
      }
    }
    var keys := Sorted(recipientMap.Keys);
    assert forall i :: 0 <= i < |keys| ==> keys[i] in recipientMap;
    recipients := seq(|keys|, i requires 0 <= i < |keys| => recipientMap[keys[i]]);
    assert RecipientIds(recipients) == keys;
    IncreasingIsDistinct(keys);
  }

  // deliver_activity_worker

  /** The recipients after a round in which sending to the i-th one returns `ok(i)`. */
  function AfterRound(recipients: seq<Recipient>, ok: nat -> bool): (after: seq<Recipient>)
    ensures |after| == |recipients|
    ensures forall i :: 0 <= i < |after| ==>
              after[i] == recipients[i].(isDelivered := recipients[i].isDelivered || ok(i))
  {
    seq(|recipients|, i requires 0 <= i < |recipients| => recipients[i].(isDelivered := recipients[i].isDelivered || ok(i)))
  }

  /** A round sends to the k-th recipient. */
  predicate SendsTo(recipients: seq<Recipient>, k: nat) {
    k < |recipients| && !recipients[k].isDelivered
  }

  /** The positions to which a round sends, in order. */
  function Undelivered(recipients: seq<Recipient>): (sent: seq<nat>)
    ensures forall k :: k in sent <==> SendsTo(recipients, k)
  {
    if recipients == [] then []
    else
      var n := |recipients| - 1;
      Undelivered(recipients[..n]) + (if recipients[n].isDelivered then [] else [n])
  }

  /** Signing can fail, before anything is sent. Every undelivered recipient is sent to once,
      in order; a flag that is set stays set. */
  method DeliverActivityWorker(recipients: array<Recipient>, canSign: bool, ok: nat -> bool)
    returns (fatal: bool, sent: seq<nat>)
    modifies recipients
    ensures fatal == !canSign
    ensures sent == if fatal then [] else Undelivered(old(recipients[..]))
    ensures recipients[..] == if fatal then old(recipients[..]) else AfterRound(old(recipients[..]), ok)
  {
    if !canSign {
      return true, [];
    }
    fatal, sent := false, [];
    ghost var was := recipients[..];
    for i := 0 to recipients.Length
      invariant sent == Undelivered(was[..i])
      invariant forall j :: 0 <= j < i ==> recipients[j] == AfterRound(was, ok)[j]
      invariant forall j :: i <= j < recipients.Length ==> recipients[j] == was[j]
    {
      assert was[..i + 1][..i] == was[..i];
      if !recipients[i].isDelivered {
        sent := sent + [i];
        if ok(i) {
          recipients[i] := recipients[i].(isDelivered := true);
        }
      }
    }
    assert was[..recipients.Length] == was;
  }

  // Rounds of one delivery

  const OUTGOING_QUEUE_RETRIES_MAX := 3

  function Pow10(k: nat): nat {
    if k == 0 then 1 else 10 * Pow10(k - 1)
  }

  function OutgoingBackoff(failureCount: nat): nat {
    30 * Pow10(failureCount)
  }

  lemma {:induction false} Pow10Grows(k: nat, n: nat)
    requires k <= n
    ensures Pow10(k) <= Pow10(n)
  {
    if k < n {
      Pow10Grows(k, n - 1);
    }
  }

  /** `30 * 10_u32.pow(n)` overflows exactly from n = 9 on; a delivery uses n = 1, 2, 3. */
  lemma {:induction false} BackoffFits(n: nat)
    ensures Pow10(n) < 0x1_0000_0000 && OutgoingBackoff(n) < 0x1_0000_0000 <==> n <= 8
  {
    assert Pow10(8) == 100000000 by {
      assert Pow10(4) == 10000;
      assert Pow10(6) == 100 * Pow10(4);
    }
    if n <= 8 {
      Pow10Grows(n, 8);
    } else {
      Pow10Grows(9, n);
    }
  }

  predicate SomeUndelivered(recipients: seq<Recipient>) {
    exists k :: 0 <= k < |recipients| && !recipients[k].isDelivered
  }

  /** The data of the job that a round leaves behind, if any. */
  function NextRound(data: JobData, ok: nat -> bool): (next: Option<JobData>)
    requires data.Outgoing?
    ensures next.Some? ==> next.value.Outgoing?
  {
    var after := AfterRound(data.recipients, ok);
    if SomeUndelivered(after) && data.failureCount < OUTGOING_QUEUE_RETRIES_MAX then
      Some(Outgoing(data.activity, data.sender, after, data.failureCount + 1))
    else
      None
  }

  /** The job data of the n-th round, when the sender exists, signing works and no worker crashes. */
  function Lineage(data: JobData, answers: nat -> nat -> bool, n: nat): (round: Option<JobData>)
    requires data.Outgoing?
    ensures round.Some? ==> round.value.Outgoing?
  {
    if n == 0 then Some(data)
    else
      var last := Lineage(data, answers, n - 1);
      if last.None? then None else NextRound(last.value, answers(n - 1))
  }

  /** A delivery takes at most four rounds, all to the same recipients. */
  lemma {:induction false} FourRounds(data: JobData, answers: nat -> nat -> bool, n: nat)
    requires data.Outgoing? && data.failureCount == 0 && Lineage(data, answers, n).Some?
    ensures n <= 3
    ensures Lineage(data, answers, n).value.failureCount == n
    ensures RecipientIds(Lineage(data, answers, n).value.recipients) == RecipientIds(data.recipients)
  {
    if n > 0 {
      FourRounds(data, answers, n - 1);
      var last := Lineage(data, answers, n - 1).value;
      assert RecipientIds(AfterRound(last.recipients, answers(n - 1))) == RecipientIds(last.recipients);
    }
  }

  /** It ends early exactly when every recipient has been reached. */
  lemma LineageEnds(data: JobData, answers: nat -> nat -> bool, n: nat)
    requires data.Outgoing? && data.failureCount == 0 && Lineage(data, answers, n).Some?
    ensures var recipients := Lineage(data, answers, n).value.recipients;
            Lineage(data, answers, n + 1).None? <==>
              n == 3 || forall k :: 0 <= k < |recipients| ==> recipients[k].isDelivered || answers(n)(k)
  {
    FourRounds(data, answers, n);
    var recipients := Lineage(data, answers, n).value.recipients;
    var after := AfterRound(recipients, answers(n));
    assert Lineage(data, answers, n + 1) == NextRound(Lineage(data, answers, n).value, answers(n));
    assert forall k :: 0 <= k < |recipients| ==> (after[k].isDelivered <==> recipients[k].isDelivered || answers(n)(k));
  }

  /** The k-th recipient has acknowledged by the end of the n-th round. */
  predicate Reached(round: Option<JobData>, ok: nat -> bool, k: nat) {
    && round.Some? && round.value.Outgoing? && k < |round.value.recipients|
    && (round.value.recipients[k].isDelivered || ok(k))
  }

  predicate Flagged(round: Option<JobData>, k: nat) {
    && round.Some? && round.value.Outgoing? && k < |round.value.recipients|
    && !SendsTo(round.value.recipients, k)
  }

  lemma FlagSticks(data: JobData, answers: nat -> nat -> bool, n: nat, k: nat)
    requires data.Outgoing? && Lineage(data, answers, n + 1).Some?
    requires Reached(Lineage(data, answers, n), answers(n), k)
    ensures Flagged(Lineage(data, answers, n + 1), k)
  {
  }

  lemma FlagStays(data: JobData, answers: nat -> nat -> bool, n: nat, k: nat)
    requires data.Outgoing? && Lineage(data, answers, n + 1).Some?
    requires Flagged(Lineage(data, answers, n), k)
    ensures Flagged(Lineage(data, answers, n + 1), k)
  {
  }

  lemma {:induction false} EarlierRound(data: JobData, answers: nat -> nat -> bool, n: nat, m: nat)
    requires data.Outgoing? && n <= m && Lineage(data, answers, m).Some?
    ensures Lineage(data, answers, n).Some?
  {
    if n < m {
      EarlierRound(data, answers, n, m - 1);
    }
  }

  lemma {:induction false} FlagLasts(data: JobData, answers: nat -> nat -> bool, n: nat, m: nat, k: nat)
    requires data.Outgoing? && n <= m && Lineage(data, answers, m).Some?
    requires Flagged(Lineage(data, answers, n), k)
    ensures Flagged(Lineage(data, answers, m), k)
    decreases m - n
  {
    if n < m {
      EarlierRound(data, answers, n + 1, m);
      FlagStays(data, answers, n, k);
      FlagLasts(data, answers, n + 1, m, k);
    }
  }

  /** Once a recipient has acknowledged, no later round of the same delivery sends to it. */
  lemma NeverSentAgain(data: JobData, answers: nat -> nat -> bool, n: nat, m: nat, k: nat)
    requires data.Outgoing? && n < m && Lineage(data, answers, m).Some?
    requires Reached(Lineage(data, answers, n), answers(n), k)
    ensures Flagged(Lineage(data, answers, m), k)
  {
    EarlierRound(data, answers, n + 1, m);
    FlagSticks(data, answers, n, k);
    FlagLasts(data, answers, n + 1, m, k);
  }

  // enqueue, process_queued_outgoing_activities

  /** The row is given out at every time after `time`, and at none before. */
  ghost predicate WaitsUntil(row: Job, kind: JobType, time: int) {
    forall t {:trigger Eligible(row, kind, JOB_TIMEOUT, t)} :: Eligible(row, kind, JOB_TIMEOUT, t) <==> time < t
  }

  /** `OutgoingActivity::enqueue`: nothing is queued for nobody. */
  method Enqueue(q: Queue, activity: Activity, sender: UserId, recipients: seq<Recipient>, now: int)
    requires q.Valid()
    modifies q
    ensures q.Valid()
    ensures recipients == [] ==> q.jobs == old(q.jobs)
    ensures recipients != [] ==>
              q.jobs == old(q.jobs)[JobId(old(q.nextId)) := NewJob(Outgoing(activity, sender, recipients, 0), now, 0)]
    ensures recipients != [] ==>
              exists i :: && i in q.jobs && i !in old(q.jobs) && q.jobs.Keys == old(q.jobs).Keys + {i}
                          && q.jobs[i].data == Outgoing(activity, sender, recipients, 0) && WaitsUntil(q.jobs[i], OutgoingActivity, now)
  {
    if |recipients| == 0 {
      return;
    }
    var i := q.EnqueueJob(Outgoing(activity, sender, recipients, 0), now, 0);
    assert WaitsUntil(q.jobs[i], OutgoingActivity, now);
  }

  /** The rows once the job `id` has been delivered: a row for the next round, if there is one,
      in place of the old row. */
  function AfterDelivery(jobs: JobTable, nextId: nat, id: JobId, next: Option<JobData>, now: int): JobTable {
    (if next.Some? then jobs[JobId(nextId) := NewJob(next.value, now, OutgoingBackoff(next.value.failureCount))] else jobs) - {id}
  }

  /** The row is for the same activity, sender and inboxes, one failure later. Exactly whoever has
      acknowledged is flagged, and it waits for 5 minutes, 50 minutes, or 8 hours and 20 minutes. */
  ghost predicate IsNextRound(data: JobData, row: Job, ok: nat -> bool, later: int)
    requires data.Outgoing?
  {
    && row.data.Outgoing? && row.data.activity == data.activity && row.data.sender == data.sender
    && row.data.failureCount == data.failureCount + 1 && |row.data.recipients| == |data.recipients|
    && (forall k :: 0 <= k < |data.recipients| ==>
          && row.data.recipients[k].id == data.recipients[k].id && row.data.recipients[k].inbox == data.recipients[k].inbox
          && (row.data.recipients[k].isDelivered <==> data.recipients[k].isDelivered || ok(k)))
    && WaitsUntil(row, OutgoingActivity, later + (if data.failureCount == 0 then 300 else if data.failureCount == 1 then 3000 else 30000))
  }

  /** The delivered row is gone, the others are as they were. There is a new one exactly when
      somebody has not acknowledged and fewer than three rounds have failed before. */
  ghost predicate Delivered(before: JobTable, after: JobTable, id: JobId, ok: nat -> bool, later: int)
    requires id in before && before[id].data.Outgoing?
  {
    var data := before[id].data;
    && id !in after
    && (forall i :: i in before && i != id ==> i in after && after[i] == before[i])
    && ((exists i :: i in after && i !in before) <==>
        data.failureCount < 3 && exists k :: 0 <= k < |data.recipients| && !data.recipients[k].isDelivered && !ok(k))
    && (forall i :: i in after && i !in before ==> IsNextRound(data, after[i], ok, later))
  }

  lemma NextRoundWaits(data: JobData, ok: nat -> bool, later: int)
    requires data.Outgoing? && NextRound(data, ok).Some?
    ensures var next := NextRound(data, ok).value;
            IsNextRound(data, NewJob(next, later, OutgoingBackoff(next.failureCount)), ok, later)
  {
    var next := NextRound(data, ok).value;
    assert OutgoingBackoff(1) == 300 && OutgoingBackoff(2) == 3000 && OutgoingBackoff(3) == 30000;
    forall t ensures Eligible(NewJob(next, later, OutgoingBackoff(next.failureCount)), OutgoingActivity, JOB_TIMEOUT, t) <==>
                     later + OutgoingBackoff(next.failureCount) < t
    {
      NewJobWaits(next, later, OutgoingBackoff(next.failureCount), JOB_TIMEOUT, t);
    }
  }

  lemma DeliveredAsSaid(jobs: JobTable, nextId: nat, id: JobId, ok: nat -> bool, now: int, later: int)
    requires IdsBelow(jobs, nextId) && id in jobs && jobs[id].data.Outgoing?
    ensures var after := AfterDelivery(Leased(jobs, {id}, now), nextId, id, NextRound(jobs[id].data, ok), later);
            Delivered(jobs, after, id, ok, later)
  {
    var data := jobs[id].data;
    var after := AfterDelivery(Leased(jobs, {id}, now), nextId, id, NextRound(data, ok), later);
    assert JobId(nextId) !in jobs && id != JobId(nextId);
    if NextRound(data, ok).Some? {
      NextRoundWaits(data, ok, later);
      assert JobId(nextId) in after;
      var k :| 0 <= k < |data.recipients| && !AfterRound(data.recipients, ok)[k].isDelivered;
      assert !data.recipients[k].isDelivered && !ok(k);
    } else if k :| 0 <= k < |data.recipients| && !data.recipients[k].isDelivered && !ok(k) {
      assert !AfterRound(data.recipients, ok)[k].isDelivered;
    }
  }

  function Reachability(recipients: seq<Recipient>): (updates: seq<(string, bool)>)
    ensures |updates| == |recipients|
    ensures forall i :: 0 <= i < |updates| ==> updates[i] == (recipients[i].id, recipients[i].isDelivered)
  {
    seq(|recipients|, i requires 0 <= i < |recipients| => (recipients[i].id, recipients[i].isDelivered))
  }

  /** `OutgoingActivity::deliver`, on recipients read from the job. */
  method Deliver(recipients: seq<Recipient>, canSign: bool, ok: nat -> bool) returns (r: Option<seq<Recipient>>)
    ensures r == if canSign then Some(AfterRound(recipients, ok)) else None
  {
    var slots := new Recipient[|recipients|](i requires 0 <= i < |recipients| => recipients[i]);
    assert slots[..] == recipients;
    var fatal, _ := DeliverActivityWorker(slots, canSign, ok);
    r := if fatal then None else Some(slots[..]);
  }

  /** The calls of `set_reachability_status` when a delivery ends. */
  method RecordReachability(recipients: seq<Recipient>) returns (updates: seq<(string, bool)>)
    ensures updates == Reachability(recipients)
  {
    updates := [];
    for k := 0 to |recipients|
      invariant updates == Reachability(recipients)[..k]
    {
      updates := updates + [(recipients[k].id, recipients[k].isDelivered)];
    }
  }

  /** A batch of the outgoing queue is at most one job. */
  method TakeOutgoing(q: Queue, now: int) returns (job: Option<JobId>)
    requires q.Valid()
    modifies q`jobs
    ensures q.Valid()
    ensures IsBatch(old(q.jobs), OutgoingActivity, OUTGOING_QUEUE_BATCH_SIZE, JOB_TIMEOUT, now,
                    if job.Some? then {job.value} else {})
    ensures job.None? ==> q.jobs == old(q.jobs)
    ensures job.Some? ==> job.value in q.jobs && q.jobs[job.value].data.Outgoing? && q.jobs == Leased(old(q.jobs), {job.value}, now)
  {
    var batch := q.GetJobBatch(OutgoingActivity, OUTGOING_QUEUE_BATCH_SIZE, JOB_TIMEOUT, now);
    DistinctLength(batch);
    if batch == [] {
      assert Elements(batch) == {};
      assert q.jobs == old(q.jobs);
      job := None;
    } else {
      assert batch == [batch[0]] && Elements(batch) == {batch[0]};
      assert batch[0] in EligibleJobs(old(q.jobs), OutgoingActivity, JOB_TIMEOUT, now);
      job := Some(batch[0]);
    }
  }

  /** After the round: the next one is queued, or reachability is recorded, before the row goes. */
  method FinishDelivery(q: Queue, id: JobId, data: JobData, after: seq<Recipient>, later: int)
    returns (r: Result<bool>, reachability: seq<(string, bool)>)
    requires q.Valid() && id in q.jobs && data.Outgoing?
    modifies q
    ensures q.Valid() && r.Success?
    ensures var next := if SomeUndelivered(after) && data.failureCount < OUTGOING_QUEUE_RETRIES_MAX
                        then Some(Outgoing(data.activity, data.sender, after, data.failureCount + 1)) else None;
            && q.jobs == AfterDelivery(old(q.jobs), old(q.nextId), id, next, later)
            && reachability == if next.Some? then [] else Reachability(after)
  {
    reachability := [];
    if SomeUndelivered(after) && data.failureCount < OUTGOING_QUEUE_RETRIES_MAX {
      var next := Outgoing(data.activity, data.sender, after, data.failureCount + 1);
      var _ := q.EnqueueJob(next, later, OutgoingBackoff(next.failureCount));
    } else {
      reachability := RecordReachability(after);
    }
    r := q.DeleteJob(id);
  }

  /** One run of the outgoing queue executor. A missing sender leaves the job Running, with its
      failure count; an unexpected error drops it; otherwise the next round is queued, or, if
      there is none, the reachability of every recipient is recorded. */
  method ProcessQueuedOutgoingActivities(q: Queue, users: set<UserId>, canSign: bool, ok: nat -> bool, now: int, later: int)
    returns (r: Result<bool>, job: Option<JobId>, reachability: seq<(string, bool)>)
    requires q.Valid()
    modifies q
    ensures q.Valid()
    ensures IsBatch(old(q.jobs), OutgoingActivity, OUTGOING_QUEUE_BATCH_SIZE, JOB_TIMEOUT, now,
                    if job.Some? then {job.value} else {})
    ensures job.None? ==> r.Success? && q.jobs == old(q.jobs) && reachability == []
    ensures job.Some? ==>
              var data := old(q.jobs)[job.value].data;
              var leased := Leased(old(q.jobs), {job.value}, now);
              if data.sender !in users then
                r == Failure(NotFound("user")) && q.jobs == leased && reachability == []
              else if !canSign then
                r.Success? && q.jobs == leased - {job.value} && reachability == []
              else
                && r.Success?
                && q.jobs == AfterDelivery(leased, old(q.nextId), job.value, NextRound(data, ok), later)
                && reachability == if NextRound(data, ok).Some? then [] else Reachability(AfterRound(data.recipients, ok))
    ensures job.Some? && old(q.jobs)[job.value].data.sender in users && canSign ==>
              Delivered(old(q.jobs), q.jobs, job.value, ok, later)
  {
    reachability := [];
    job := TakeOutgoing(q, now);
    if job.None? {
      return Success(true), job, [];
    }
    var id := job.value;
    var data := q.jobs[id].data;
    if data.sender !in users {
      return Failure(NotFound("user")), job, [];
    }
    var recipients := Deliver(data.recipients, canSign, ok);
    if recipients.None? {
      r := q.DeleteJob(id);
      return;
    }
    r, reachability := FinishDelivery(q, id, data, recipients.value, later);
    DeliveredAsSaid(old(q.jobs), old(q.nextId), id, ok, now, later);
  }

  // process_queued_incoming_activities

  const INCOMING_QUEUE_RETRIES_MAX := 2
  const INCOMING_QUEUE_BACKOFF := 600

  datatype HandlerOutcome = Handled | TimedOut | HandlerFailed(recursionError: bool)

  /** The data of the job that handling an activity leaves behind, if any. */
  function NextAttempt(data: JobData, outcome: HandlerOutcome): Option<JobData>
    requires data.Incoming?
  {
    if outcome.HandlerFailed? && data.failureCount + 1 <= INCOMING_QUEUE_RETRIES_MAX && !outcome.recursionError then
      Some(Incoming(data.activity, data.isAuthenticated, data.failureCount + 1))
    else
      None
  }

  /** How often an activity is handed to its handler, when no worker crashes. */
  function Attempts(data: JobData, outcomes: nat -> HandlerOutcome): (n: nat)
    requires data.Incoming?
    ensures data.failureCount == 0 ==> 1 <= n <= 3
    ensures n <= 1 || n + data.failureCount <= INCOMING_QUEUE_RETRIES_MAX + 1
    decreases INCOMING_QUEUE_RETRIES_MAX - data.failureCount
  {
    var next := NextAttempt(data, outcomes(data.failureCount));
    if next.None? then 1 else 1 + Attempts(next.value, outcomes)
  }

  function RetryRow(data: JobData, outcome: HandlerOutcome, now: int): Option<Job>
    requires data.Incoming?
  {
    var next := NextAttempt(data, outcome);
    if next.Some? then Some(NewJob(next.value, now, INCOMING_QUEUE_BACKOFF)) else None
  }

  /** `row` is stored under an id that is not older than `firstId`. */
  predicate Stored(jobs: JobTable, row: Job, firstId: nat) {
    exists n :: n in jobs && n.uuid >= firstId && jobs[n] == row
  }

  /** `row` is the retry of a job of the batch. */
  predicate IsRetry(before: JobTable, batch: set<JobId>, row: Job, now: int, outcomes: JobId -> HandlerOutcome) {
    exists i :: i in batch && i in before && before[i].data.Incoming? && RetryRow(before[i].data, outcomes(i), now) == Some(row)
  }

  /** Whatever happens, a handled row is gone and the rows outside the batch are untouched; an
      activity that may be retried, and no other, has a new row. */
  predicate IncomingProcessed(before: JobTable, after: JobTable, batch: set<JobId>, firstId: nat, now: int,
                              outcomes: JobId -> HandlerOutcome)
    requires forall i :: i in batch ==> i in before && before[i].data.Incoming?
  {
    && (forall i :: i in before && i !in batch ==> i in after && after[i] == before[i])
    && (forall i :: i in batch ==> i !in after)
    && (forall i :: i in batch && RetryRow(before[i].data, outcomes(i), now).Some? ==>
          Stored(after, RetryRow(before[i].data, outcomes(i), now).value, firstId))
    && (forall n :: n in after && n !in before ==> IsRetry(before, batch, after[n], now, outcomes))
  }

  /** The rows once one more job of the batch has been handled. */
  function AfterAttempt(jobs: JobTable, nextId: nat, id: JobId, retry: Option<Job>): JobTable {
    (if retry.Some? then jobs[JobId(nextId) := retry.value] else jobs) - {id}
  }

  lemma OneMoreProcessed(before: JobTable, after: JobTable, done: set<JobId>, firstId: nat, nextId: nat, id: JobId,
                         now: int, outcomes: JobId -> HandlerOutcome)
    requires forall i :: i in done ==> i in before && before[i].data.Incoming?
    requires IncomingProcessed(before, after, done, firstId, now, outcomes)
    requires IdsBelow(before, firstId) && IdsBelow(after, nextId) && firstId <= nextId
    requires id in before && id !in done && before[id].data.Incoming?
    ensures IncomingProcessed(before, AfterAttempt(after, nextId, id, RetryRow(before[id].data, outcomes(id), now)),
                              done + {id}, firstId, now, outcomes)
  {
    var retry := RetryRow(before[id].data, outcomes(id), now);
    var rest := AfterAttempt(after, nextId, id, retry);
    assert id.uuid < firstId;
    forall i | i in done + {id} && RetryRow(before[i].data, outcomes(i), now).Some?
      ensures Stored(rest, RetryRow(before[i].data, outcomes(i), now).value, firstId)
    {
      StillStored(after, nextId, id, retry, RetryRow(before[i].data, outcomes(i), now).value, firstId);
    }
    forall n | n in rest && n !in before ensures IsRetry(before, done + {id}, rest[n], now, outcomes) {
      if n in after {
        assert rest[n] == after[n] && IsRetry(before, done, after[n], now, outcomes);
      } else {
        assert id in done + {id} && retry == Some(rest[n]);
      }
    }
  }

  lemma StillStored(jobs: JobTable, nextId: nat, id: JobId, retry: Option<Job>, row: Job, firstId: nat)
    requires IdsBelow(jobs, nextId) && id.uuid < firstId <= nextId
    requires Stored(jobs, row, firstId) || retry == Some(row)
    ensures Stored(AfterAttempt(jobs, nextId, id, retry), row, firstId)
  {
  }

  lemma NotYetHandled(batch: seq<JobId>, k: nat)
    requires NoDuplicates(batch) && k < |batch|
    ensures batch[k] in Elements(batch) && batch[k] !in Elements(batch[..k])
  {
  }

  /** The row is for the same activity, one failure later, and waits for ten minutes. */
  ghost predicate IsNextAttempt(data: JobData, row: Job, later: int)
    requires data.Incoming?
  {
    && row.data == Incoming(data.activity, data.isAuthenticated, data.failureCount + 1)
    && WaitsUntil(row, IncomingActivity, later + 600)
  }

  /** The handler has failed for the first or second time, and not for a recursion error. */
  predicate MayRetry(data: JobData, outcome: HandlerOutcome)
    requires data.Incoming?
  {
    outcome == HandlerFailed(false) && data.failureCount < 2
  }

  /** The rows of the batch are gone, the others are as they were, and the new rows are the next
      attempts of exactly those that may be retried. */
  ghost predicate AllHandled(before: JobTable, after: JobTable, batch: set<JobId>, later: int, outcomes: JobId -> HandlerOutcome) {
    && (forall i :: i in batch ==> i in before && before[i].data.Incoming? && i !in after)
    && (forall i :: i in before && i !in batch ==> i in after && after[i] == before[i])
    && (forall i :: i in batch && i in before && before[i].data.Incoming? && MayRetry(before[i].data, outcomes(i)) ==>
          exists n :: n in after && n !in before && IsNextAttempt(before[i].data, after[n], later))
    && (forall n :: n in after && n !in before ==>
          exists i :: i in batch && i in before && before[i].data.Incoming? && MayRetry(before[i].data, outcomes(i))
                      && IsNextAttempt(before[i].data, after[n], later))
  }

  lemma RetryIsNextAttempt(data: JobData, outcome: HandlerOutcome, later: int)
    requires data.Incoming?
    ensures RetryRow(data, outcome, later).Some? <==> MayRetry(data, outcome)
    ensures RetryRow(data, outcome, later).Some? ==> IsNextAttempt(data, RetryRow(data, outcome, later).value, later)
  {
    if RetryRow(data, outcome, later).Some? {
      var next := NextAttempt(data, outcome).value;
      forall t ensures Eligible(NewJob(next, later, INCOMING_QUEUE_BACKOFF), IncomingActivity, JOB_TIMEOUT, t) <==> later + 600 < t {
        NewJobWaits(next, later, INCOMING_QUEUE_BACKOFF, JOB_TIMEOUT, t);
      }
    }
  }

  lemma HandledAsSaid(before: JobTable, after: JobTable, batch: set<JobId>, firstId: nat, now: int, later: int,
                      outcomes: JobId -> HandlerOutcome)
    requires IdsBelow(before, firstId) && forall i :: i in batch ==> i in before && before[i].data.Incoming?
    requires IncomingProcessed(Leased(before, batch, now), after, batch, firstId, later, outcomes)
    ensures AllHandled(before, after, batch, later, outcomes)
  {
    var leased := Leased(before, batch, now);
    forall i | i in batch && MayRetry(before[i].data, outcomes(i))
      ensures exists n :: n in after && n !in before && IsNextAttempt(before[i].data, after[n], later)
    {
      RetryIsNextAttempt(before[i].data, outcomes(i), later);
      assert leased[i].data == before[i].data;
      var n :| n in after && n.uuid >= firstId && after[n] == RetryRow(before[i].data, outcomes(i), later).value;
      assert n !in before;
    }
    forall n | n in after && n !in before
      ensures exists i :: i in batch && i in before && before[i].data.Incoming? && MayRetry(before[i].data, outcomes(i))
                          && IsNextAttempt(before[i].data, after[n], later)
    {
      assert n !in leased && IsRetry(leased, batch, after[n], later, outcomes);
      var i :| i in batch && i in leased && leased[i].data.Incoming? && RetryRow(leased[i].data, outcomes(i), later) == Some(after[n]);
      RetryIsNextAttempt(before[i].data, outcomes(i), later);
    }
  }

  /** One round of the loop over the batch. */
  method HandleOne(q: Queue, id: JobId, outcome: HandlerOutcome, now: int)
    requires q.Valid() && id in q.jobs && q.jobs[id].data.Incoming?
    modifies q
    ensures q.Valid() && q.nextId >= old(q.nextId)
    ensures q.jobs == AfterAttempt(old(q.jobs), old(q.nextId), id, RetryRow(old(q.jobs)[id].data, outcome, now))
  {
    var data := q.jobs[id].data;
    if outcome.HandlerFailed? && data.failureCount + 1 <= INCOMING_QUEUE_RETRIES_MAX && !outcome.recursionError {
      var _ := q.EnqueueJob(Incoming(data.activity, data.isAuthenticated, data.failureCount + 1), now, INCOMING_QUEUE_BACKOFF);
    }
    var _ := q.DeleteJob(id);
  }

  /** One run of the incoming queue executor. */
  method ProcessQueuedIncomingActivities(q: Queue, outcomes: JobId -> HandlerOutcome, now: int, later: int)
    returns (r: Result<bool>, batch: seq<JobId>)
    requires q.Valid()
    modifies q
    ensures q.Valid() && r.Success?
    ensures IsBatch(old(q.jobs), IncomingActivity, INCOMING_QUEUE_BATCH_SIZE, JOB_TIMEOUT, now, Elements(batch))
    ensures var leased := Leased(old(q.jobs), Elements(batch), now);
            && (forall i :: i in Elements(batch) ==> i in leased && leased[i].data.Incoming?)
            && IncomingProcessed(leased, q.jobs, Elements(batch), old(q.nextId), later, outcomes)
    ensures var eligible := EligibleJobs(old(q.jobs), IncomingActivity, 3600, now);
            |batch| == if |eligible| < 10 then |eligible| else 10
    ensures AllHandled(old(q.jobs), q.jobs, Elements(batch), later, outcomes)
  {
    ghost var before, firstId := q.jobs, q.nextId;
    batch := q.GetJobBatch(IncomingActivity, INCOMING_QUEUE_BATCH_SIZE, JOB_TIMEOUT, now);
    ghost var leased := q.jobs;
    assert Elements(batch[..0]) == {};
    forall i | i in Elements(batch) ensures i in leased && leased[i].data.Incoming? {
      assert i in EligibleJobs(before, IncomingActivity, JOB_TIMEOUT, now);
    }
    for k := 0 to |batch|
      invariant q.Valid() && q.nextId >= firstId
      invariant IncomingProcessed(leased, q.jobs, Elements(batch[..k]), firstId, later, outcomes)
    {
      var id := batch[k];
      assert Elements(batch[..k + 1]) == Elements(batch[..k]) + {id};
      NotYetHandled(batch, k);
      OneMoreProcessed(leased, q.jobs, Elements(batch[..k]), firstId, q.nextId, id, later, outcomes);
      HandleOne(q, id, outcomes(id), later);
    }
    assert batch[..|batch|] == batch;
    DistinctLength(batch);
    HandledAsSaid(before, q.jobs, Elements(batch), firstId, now, later, outcomes);
    r := Success(true);
  }
}
