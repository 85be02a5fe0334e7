/** The processing-job queue: claims, leases, retries with backoff, dead letters, manual retry. */
module JobQueue {
  import opened Wrappers

  type JobId = nat
  type WorkerId = nat

  datatype JobStatus = Queued | Running | Succeeded | FailedJob | DeadLetter

  datatype Job = Job(
    organization: string,
    status: JobStatus,
    attempts: nat,
    maxAttempts: nat,
    priority: int,
    queuedAt: real,
    heartbeatAt: Option<real>,
    nextAttemptAt: Option<real>,
    // the delivery that the payload of a webhook job names
    delivery: Option<string>)

  datatype DeliveryStatus = DeliveryQueued | Retrying | Delivered | DeliveryFailed

  datatype DeliveryState = DeliveryState(
    organization: string, subscription: string, status: DeliveryStatus, attempts: nat, nextAttemptAt: Option<real>)

  datatype SubscriptionState = SubscriptionState(organization: string, enabled: bool)

  /** Failed sends after which a dead letter disables the subscription. */
  const DISABLE_AFTER: nat := 5

  const WEBHOOK_ATTEMPTS: nat := 4

  predicate Eligible(j: Job, now: real) {
    j.status == Queued && (j.nextAttemptAt.None? || j.nextAttemptAt.value <= now)
  }

  /** Higher priority first, then the one queued longest. */
  predicate Before(a: Job, b: Job) {
    a.priority > b.priority || (a.priority == b.priority && a.queuedAt < b.queuedAt)
  }

  predicate Stale(j: Job, cutoff: real) {
    j.status == Running && (j.heartbeatAt.None? || j.heartbeatAt.value < cutoff)
  }

  /** Which of the first `n` jobs are stale. */
  function StaleAmong(jobs: seq<Job>, n: nat, cutoff: real): set<nat>
    requires n <= |jobs|
  {
    set i: nat | i < n && Stale(jobs[i], cutoff)
  }

  lemma StaleGrows(jobs: seq<Job>, n: nat, cutoff: real)
    requires n < |jobs|
    ensures |StaleAmong(jobs, n + 1, cutoff)| == |StaleAmong(jobs, n, cutoff)| + if Stale(jobs[n], cutoff) then 1 else 0
  {
    assert StaleAmong(jobs, n + 1, cutoff) == StaleAmong(jobs, n, cutoff) + if Stale(jobs[n], cutoff) then {n} else {};
  }

  function Claimed(j: Job, now: real): Job {
    j.(status := Running, attempts := j.attempts + 1, heartbeatAt := Some(now))
  }

  function Recovered(j: Job, now: real): Job {
    j.(status := Queued, nextAttemptAt := Some(now), heartbeatAt := Some(now))
  }

  function Power2(n: nat): nat {
    if n == 0 then 1 else 2 * Power2(n - 1)
  }

  /** Seconds before a failed attempt may be repeated, without the jitter. */
  function Backoff(attempts: nat): nat {
    var b := Power2(if attempts > 1 then attempts else 1) * 5;
    if b < 300 then b else 300
  }

  function Finished(j: Job, success: bool, now: real, jitter: real): Job {
    if success then j.(status := Succeeded, heartbeatAt := Some(now), nextAttemptAt := None)
    else if j.attempts >= j.maxAttempts then j.(status := DeadLetter, heartbeatAt := Some(now), nextAttemptAt := None)
    else
      var later := now + Backoff(j.attempts) as real + jitter;
      j.(status := Queued, heartbeatAt := Some(now), nextAttemptAt := Some(later))
  }

  /** The delivery of a webhook job, if it exists and belongs to the job's organization. */
  predicate HasDelivery(j: Job, deliveries: map<string, DeliveryState>) {
    j.delivery.Some? && j.delivery.value in deliveries && deliveries[j.delivery.value].organization == j.organization
  }

  predicate Buried(j: Job, success: bool) {
    !success && j.attempts >= j.maxAttempts
  }

  /** A job that becomes a dead letter fails its delivery. */
  function DeliveriesAfter(j: Job, success: bool, deliveries: map<string, DeliveryState>): map<string, DeliveryState> {
    if Buried(j, success) && HasDelivery(j, deliveries) then
      deliveries[j.delivery.value := deliveries[j.delivery.value].(status := DeliveryFailed, nextAttemptAt := None)]
    else deliveries
  }

  /** A dead letter whose delivery was sent in vain five times disables the subscription of the same organization. */
  predicate Disables(
      j: Job, success: bool, deliveries: map<string, DeliveryState>, subscriptions: map<string, SubscriptionState>)
  {
    && Buried(j, success) && HasDelivery(j, deliveries)
    && var d := deliveries[j.delivery.value];
       d.attempts >= DISABLE_AFTER && d.subscription in subscriptions
       && subscriptions[d.subscription].organization == j.organization
  }

  function SubscriptionsAfter(
      j: Job, success: bool, deliveries: map<string, DeliveryState>, subscriptions: map<string, SubscriptionState>)
      : map<string, SubscriptionState>
  {
    if Disables(j, success, deliveries, subscriptions) then
      var id := deliveries[j.delivery.value].subscription;
      subscriptions[id := subscriptions[id].(enabled := false)]
    else subscriptions
  }

  /** A job that sends a delivery, as it is queued. */
  function WebhookJob(organization: string, delivery: string, at: real): Job {
    Job(organization, Queued, 0, WEBHOOK_ATTEMPTS, 40, at, None, None, Some(delivery))
  }

  /** The delivery after a send that failed. */
  function Marked(d: DeliveryState, now: real): DeliveryState {
    d.(attempts := d.attempts + 1, status := Retrying, nextAttemptAt := Some(now + Backoff(d.attempts + 1) as real))
  }

  function Requeued(d: DeliveryState): DeliveryState {
    d.(status := DeliveryQueued, nextAttemptAt := None)
  }

  predicate Sendable(d: DeliveryState, organization: string, subscriptions: map<string, SubscriptionState>) {
    && d.organization == organization && d.subscription in subscriptions
    && subscriptions[d.subscription].organization == organization && subscriptions[d.subscription].enabled
  }

  predicate Retryable(j: Job) {
    j.status in {FailedJob, DeadLetter}
  }

  function Retried(j: Job, now: real): Job {
    j.(status := Queued, attempts := 0, heartbeatAt := None, nextAttemptAt := Some(now))
  }

  lemma {:induction false} Power2Grows(m: nat, n: nat)
    requires m <= n
    ensures Power2(m) <= Power2(n)
  {
    if m < n { Power2Grows(m, n - 1); }
  }

  /** Waiting times never shrink with further attempts, and stay between ten seconds and five minutes. */
  lemma BackoffGrows(a: nat, b: nat)
    requires a <= b
    ensures 10 <= Backoff(a) <= Backoff(b) <= 300
  {
    Power2Grows(1, if a > 1 then a else 1);
    Power2Grows(if a > 1 then a else 1, if b > 1 then b else 1);
  }

  /** Seconds to wait after the `k`-th failure: ten at first, then twice the last wait up to five minutes. */
  function Wait(k: nat): nat {
    if k <= 1 then 10 else if 2 * Wait(k - 1) < 300 then 2 * Wait(k - 1) else 300
  }

  lemma {:induction false} BackoffIsWait(k: nat)
    ensures Backoff(k) == Wait(k)
  {
    if k > 1 {
      BackoffIsWait(k - 1);
      Power2Grows(1, k - 1);
    } else {
      assert Power2(1) == 2;
    }
  }

  /** So the waits are 10, 20, 40, 80 and 160 seconds, and 300 from the sixth on. */
  lemma {:induction false} BackoffInSeconds(k: nat)
    ensures k >= 1 ==> Backoff(k) == if k <= 5 then [10, 20, 40, 80, 160][k - 1] else 300
  {
    BackoffIsWait(k);
    if k > 1 {
      BackoffInSeconds(k - 1);
      BackoffIsWait(k - 1);
    }
  }

  // ---------------------------------------------------------------------------------------------
  // The table
  // ---------------------------------------------------------------------------------------------

  class JobTable {
    var jobs: seq<Job>
    var deliveries: map<string, DeliveryState>
    var subscriptions: map<string, SubscriptionState>

    constructor (jobs: seq<Job>, deliveries: map<string, DeliveryState>, subscriptions: map<string, SubscriptionState>)
      ensures this.jobs == jobs && this.deliveries == deliveries && this.subscriptions == subscriptions
    {
      this.jobs, this.deliveries, this.subscriptions := jobs, deliveries, subscriptions;
    }

    /**
     * Claim a job that is queued and has no waiting time ahead of it, if there is one: no other such
     * job has a higher priority, and none of its priority was queued earlier.
     */
    method ClaimJob(now: real) returns (claimed: Option<JobId>)
      modifies this`jobs
      ensures claimed.None? ==>
                && jobs == old(jobs)
                && forall k :: 0 <= k < |jobs| && jobs[k].status == Queued ==>
                     jobs[k].nextAttemptAt.Some? && jobs[k].nextAttemptAt.value > now
      ensures claimed.Some? ==>
                var was, i := old(jobs), claimed.value;
                && i < |was| && was[i].status == Queued
                && (was[i].nextAttemptAt.Some? ==> was[i].nextAttemptAt.value <= now)
                && (forall k :: 0 <= k < |was| && was[k].status == Queued
                                && (was[k].nextAttemptAt.Some? ==> was[k].nextAttemptAt.value <= now) ==>
                     was[k].priority < was[i].priority
                     || (was[k].priority == was[i].priority && was[k].queuedAt >= was[i].queuedAt))
                && jobs == was[i :=
                     was[i].(status := Running, attempts := was[i].attempts + 1, heartbeatAt := Some(now))]
    {
      claimed := None;
      for i := 0 to |jobs|
        invariant jobs == old(jobs)
        invariant claimed.None? ==> forall k :: 0 <= k < i ==> !Eligible(jobs[k], now)
        invariant claimed.Some? ==>
                    && claimed.value < i && Eligible(jobs[claimed.value], now)
                    && forall k :: 0 <= k < i && Eligible(jobs[k], now) ==> !Before(jobs[k], jobs[claimed.value])
      {
        if Eligible(jobs[i], now) && (claimed.None? || Before(jobs[i], jobs[claimed.value])) {
          claimed := Some(i);
        }
      }
      if claimed.Some? {
        jobs := jobs[claimed.value := Claimed(jobs[claimed.value], now)];
      }
    }

    /** Put every job whose lease expired back in the queue; a lease lasts at least 30 seconds. */
    method RecoverStaleJobs(now: real, staleAfterSeconds: int) returns (count: nat)
      modifies this`jobs
      ensures var cutoff := now - (if staleAfterSeconds > 30 then staleAfterSeconds else 30) as real;
              && |jobs| == |old(jobs)|
              && (forall i :: 0 <= i < |jobs| ==>
                    jobs[i] ==
                      if old(jobs)[i].status == Running
                         && (old(jobs)[i].heartbeatAt.Some? ==> old(jobs)[i].heartbeatAt.value < cutoff)
                      then old(jobs)[i].(status := Queued, nextAttemptAt := Some(now), heartbeatAt := Some(now))
                      else old(jobs)[i])
              && count == |StaleAmong(old(jobs), |old(jobs)|, cutoff)|
    {
      var cutoff := now - (if staleAfterSeconds > 30 then staleAfterSeconds else 30) as real;
      count := 0;
      for i := 0 to |jobs|
        invariant |jobs| == |old(jobs)|
        invariant forall k :: 0 <= k < i ==>
                    jobs[k] == if Stale(old(jobs)[k], cutoff) then Recovered(old(jobs)[k], now) else old(jobs)[k]
        invariant forall k :: i <= k < |jobs| ==> jobs[k] == old(jobs)[k]
        invariant count == |StaleAmong(old(jobs), i, cutoff)|
      {
        StaleGrows(old(jobs), i, cutoff);
        if Stale(jobs[i], cutoff) {
          jobs := jobs[i := Recovered(jobs[i], now)];
          count := count + 1;
        }
      }
    }

    /**
     * Nobody asks whether the caller still holds the lease. A failure short of the limit waits ten
     * seconds after the first attempt, and twice as long after each later one, up to five minutes.
     */
    method FinishJob(id: JobId, success: bool, now: real, jitter: real)
      requires jitter >= 0.0
      modifies this
      ensures id >= |old(jobs)| ==> unchanged(this)
      ensures id < |old(jobs)| ==>
                && jobs == old(jobs)[id := Finished(old(jobs)[id], success, now, jitter)]
                && deliveries == DeliveriesAfter(old(jobs)[id], success, old(deliveries))
                && subscriptions == SubscriptionsAfter(old(jobs)[id], success, old(deliveries), old(subscriptions))
      ensures id < |old(jobs)| ==>
                var j := old(jobs)[id].(heartbeatAt := Some(now));
                jobs[id] ==
                  if success then j.(status := Succeeded, nextAttemptAt := None)
                  else if j.attempts >= j.maxAttempts then j.(status := DeadLetter, nextAttemptAt := None)
                  else j.(status := Queued, nextAttemptAt := Some(now + Wait(j.attempts) as real + jitter))
    {
      if id >= |jobs| {
        return;
      }
      var j := jobs[id];
      BackoffIsWait(j.attempts);
      if success {
        j := j.(status := Succeeded, nextAttemptAt := None);
      } else if j.attempts >= j.maxAttempts {
        j := j.(status := DeadLetter, nextAttemptAt := None);
        if HasDelivery(j, deliveries) {
          var d := deliveries[j.delivery.value];
          if d.attempts >= 5 && d.subscription in subscriptions
             && subscriptions[d.subscription].organization == j.organization
          {
            subscriptions := subscriptions[d.subscription := subscriptions[d.subscription].(enabled := false)];
          }
          deliveries := deliveries[j.delivery.value := d.(status := DeliveryFailed, nextAttemptAt := None)];
        }
      } else {
        j := j.(status := Queued, nextAttemptAt := Some(now + Backoff(j.attempts) as real + jitter));
      }
      jobs := jobs[id := j.(heartbeatAt := Some(now))];
    }

    /** A failed send is counted on the delivery, whichever job made it. */
    method MarkDeliveryRetry(id: string, now: real)
      modifies this`deliveries
      ensures deliveries == if id in old(deliveries) then old(deliveries)[id := Marked(old(deliveries)[id], now)]
                            else old(deliveries)
      ensures id in old(deliveries) ==>
                var d := old(deliveries)[id];
                deliveries[id] == d.(status := Retrying, attempts := d.attempts + 1,
                                     nextAttemptAt := Some(now + Wait(d.attempts + 1) as real))
    {
      if id in deliveries {
        BackoffIsWait(deliveries[id].attempts + 1);
        deliveries := deliveries[id := Marked(deliveries[id], now)];
      }
    }

    /** A manual retry queues a new job for the delivery; the failed sends counted on it stay. */
    method RetryDelivery(id: string, organization: string, now: real) returns (ok: bool)
      modifies this`jobs, this`deliveries
      ensures ok <==>
              && id in old(deliveries) && old(deliveries)[id].organization == organization
              && old(deliveries)[id].subscription in subscriptions
              && subscriptions[old(deliveries)[id].subscription] == SubscriptionState(organization, true)
      ensures jobs == if ok then old(jobs) + [Job(organization, Queued, 0, 4, 40, now, None, None, Some(id))]
                      else old(jobs)
      ensures deliveries == if ok then
                              old(deliveries)[id :=
                                old(deliveries)[id].(status := DeliveryQueued, nextAttemptAt := None)]
                            else old(deliveries)
    {
      ok := id in deliveries && Sendable(deliveries[id], organization, subscriptions);
      if ok {
        deliveries := deliveries[id := Requeued(deliveries[id])];
        jobs := jobs + [WebhookJob(organization, id, now)];
      }
    }

    method RetryJob(id: JobId, organization: string, now: real) returns (ok: bool)
      modifies this`jobs
      ensures ok <==> id < |old(jobs)| && old(jobs)[id].organization == organization
                      && old(jobs)[id].status in {FailedJob, DeadLetter}
      ensures jobs == if ok then
                        old(jobs)[id := old(jobs)[id].(
                          status := Queued, attempts := 0, heartbeatAt := None, nextAttemptAt := Some(now))]
                      else old(jobs)
    {
      ok := id < |jobs| && jobs[id].organization == organization && Retryable(jobs[id]);
      if ok {
        jobs := jobs[id := Retried(jobs[id], now)];
      }
    }
  }

  /** How a handler ends: well, with a failed webhook send that it records, or with any other error. */
  datatype Outcome = Handled | NotSent | Broken

  /** One turn of the worker loop: when it claims, how the handler ends, and when that is reported. */
  datatype Turn = Turn(claimAt: real, outcome: Outcome, finishAt: real, jitter: real)

  /** Nobody holds a lease, and every queued job has an attempt left. */
  predicate Settled(jobs: seq<Job>) {
    forall i :: 0 <= i < |jobs| ==>
      && jobs[i].status != Running && jobs[i].attempts <= jobs[i].maxAttempts
      && (jobs[i].status == Queued ==> jobs[i].attempts < jobs[i].maxAttempts)
  }

  /** The attempts a queued job has left. */
  function LeftOf(j: Job): nat {
    if j.status == Queued && j.attempts < j.maxAttempts then j.maxAttempts - j.attempts else 0
  }

  function Left(jobs: seq<Job>): nat {
    if jobs == [] then 0 else Left(jobs[..|jobs| - 1]) + LeftOf(jobs[|jobs| - 1])
  }

  lemma {:induction false} LeftUpdate(jobs: seq<Job>, i: nat, j: Job)
    requires i < |jobs|
    ensures Left(jobs[i := j]) + LeftOf(jobs[i]) == Left(jobs) + LeftOf(j)
  {
    var last := |jobs| - 1;
    if i < last {
      assert jobs[i := j][..last] == jobs[..last][i := j];
      LeftUpdate(jobs[..last], i, j);
    } else {
      assert jobs[i := j][..last] == jobs[..last];
    }
  }

  lemma {:induction false} NothingLeft(jobs: seq<Job>)
    requires Settled(jobs)
    ensures Left(jobs) == 0 <==> forall i :: 0 <= i < |jobs| ==> jobs[i].status != Queued
  {
    if jobs != [] {
      var rest := jobs[..|jobs| - 1];
      NothingLeft(rest);
      assert forall i :: 0 <= i < |rest| ==> rest[i] == jobs[i];
    }
  }

  /** No turn from the `n`-th on claims before a waiting time of these jobs is over. */
  predicate Waited(turns: seq<Turn>, n: nat, jobs: seq<Job>) {
    forall k, i | n <= k < |turns| && 0 <= i < |jobs| ::
      jobs[i].nextAttemptAt.Some? ==> jobs[i].nextAttemptAt.value <= turns[k].claimAt
  }

  /** Every turn claims after the waiting time any turn before it may have set. */
  predicate Patient(turns: seq<Turn>) {
    forall m, n :: 0 <= m < n < |turns| ==> turns[m].finishAt + 300.0 + turns[m].jitter <= turns[n].claimAt
  }

  /** A job after the turn that claims it. */
  function Tried(j: Job, turn: Turn): Job {
    Finished(Claimed(j, turn.claimAt), turn.outcome == Handled, turn.finishAt, turn.jitter)
  }

  lemma ClaimAndFinish(j: Job, turn: Turn)
    requires Eligible(j, turn.claimAt) && j.attempts < j.maxAttempts && turn.jitter >= 0.0
    ensures var f := Tried(j, turn);
            && LeftOf(f) < LeftOf(j) && f.attempts == j.attempts + 1 && f.maxAttempts == j.maxAttempts
            && f.status in {Succeeded, DeadLetter, Queued} && (f.status == Queued ==> f.attempts < f.maxAttempts)
            && (f.nextAttemptAt.Some? ==> f.nextAttemptAt.value <= turn.finishAt + 300.0 + turn.jitter)
  {
    BackoffGrows(j.attempts + 1, j.attempts + 1);
  }

  lemma TurnTaken(turns: seq<Turn>, n: nat, jobs: seq<Job>, i: nat)
    requires n < |turns| && i < |jobs| && Settled(jobs) && Waited(turns, n, jobs) && Patient(turns)
    requires Eligible(jobs[i], turns[n].claimAt) && turns[n].jitter >= 0.0
    ensures var after := jobs[i := Tried(jobs[i], turns[n])];
            Waited(turns, n + 1, after) && Left(after) < Left(jobs)
  {
    ClaimAndFinish(jobs[i], turns[n]);
    LeftUpdate(jobs, i, Tried(jobs[i], turns[n]));
  }

  lemma NothingEligible(turns: seq<Turn>, n: nat, jobs: seq<Job>)
    requires n < |turns| && Settled(jobs) && Waited(turns, n, jobs)
    requires forall i :: 0 <= i < |jobs| ==> !Eligible(jobs[i], turns[n].claimAt)
    ensures Left(jobs) == 0
  {
    NothingLeft(jobs);
  }

  lemma TurnSettles(jobs: seq<Job>, i: nat, turn: Turn)
    requires i < |jobs| && Settled(jobs) && Eligible(jobs[i], turn.claimAt) && turn.jitter >= 0.0
    ensures Settled(jobs[i := Tried(jobs[i], turn)])
    ensures Tried(jobs[i], turn).attempts == jobs[i].attempts + 1
    ensures Tried(jobs[i], turn).status in {Succeeded, DeadLetter, Queued}
  {
    ClaimAndFinish(jobs[i], turn);
  }

  lemma NoneStale(jobs: seq<Job>, cutoff: real)
    requires Settled(jobs)
    ensures StaleAmong(jobs, |jobs|, cutoff) == {}
  {
  }

  /** Handle a claimed job and report how that ended. */
  method HandleJob(table: JobTable, id: JobId, turn: Turn)
    requires id < |table.jobs| && turn.jitter >= 0.0
    modifies table
    ensures table.jobs == old(table.jobs)[id :=
              Finished(old(table.jobs)[id], turn.outcome == Handled, turn.finishAt, turn.jitter)]
  {
    if turn.outcome == NotSent && HasDelivery(table.jobs[id], table.deliveries) {
      table.MarkDeliveryRetry(table.jobs[id].delivery.value, turn.finishAt);
    }
    table.FinishJob(id, turn.outcome == Handled, turn.finishAt, turn.jitter);
  }

  /** One turn of the loop. */
  method TakeTurn(table: JobTable, turns: seq<Turn>, n: nat) returns (recovered: nat)
    requires Settled(table.jobs) && n < |turns| && turns[n].jitter >= 0.0
    modifies table
    ensures Settled(table.jobs) && recovered == 0
    ensures |table.jobs| == |old(table.jobs)|
    ensures forall i :: 0 <= i < |table.jobs| ==> table.jobs[i].attempts >= old(table.jobs)[i].attempts
    ensures forall i :: 0 <= i < |table.jobs| ==>
              table.jobs[i] == old(table.jobs)[i] || table.jobs[i].status in {Succeeded, DeadLetter, Queued}
    ensures Patient(turns) && Waited(turns, n, old(table.jobs)) ==>
              && Waited(turns, n + 1, table.jobs)
              && ((Left(table.jobs) == 0 && table.jobs == old(table.jobs)) || Left(table.jobs) < Left(old(table.jobs)))
  {
    ghost var before := table.jobs;
    var turn := turns[n];
    recovered := table.RecoverStaleJobs(turn.claimAt, 180);
    NoneStale(before, turn.claimAt - 180.0);
    assert table.jobs == before;
    var job := table.ClaimJob(turn.claimAt);
    if job.None? {
      if Patient(turns) && Waited(turns, n, before) { NothingEligible(turns, n, before); }
    } else {
      TurnSettles(before, job.value, turn);
      if Patient(turns) && Waited(turns, n, before) { TurnTaken(turns, n, before, job.value); }
      HandleJob(table, job.value, turn);
      assert table.jobs == before[job.value := Tried(before[job.value], turn)];
    }
  }

  /**
   * The loop of a worker that is alone on its queue: whatever the handlers do, between turns no job
   * is left running, no lease is ever recovered and no job is tried more often than it allows. When
   * the turns outlast all waiting times and are as many as the attempts left, no job stays queued.
   */
  method RunWorker(table: JobTable, turns: seq<Turn>) returns (recovered: nat)
    requires Settled(table.jobs) && forall t :: t in turns ==> t.jitter >= 0.0
    modifies table
    ensures Settled(table.jobs) && recovered == 0
    ensures |table.jobs| == |old(table.jobs)|
    ensures forall i :: 0 <= i < |table.jobs| ==> table.jobs[i].attempts >= old(table.jobs)[i].attempts
    ensures forall i :: 0 <= i < |table.jobs| ==>
              table.jobs[i] == old(table.jobs)[i] || table.jobs[i].status in {Succeeded, DeadLetter, Queued}
    ensures Patient(turns) && Waited(turns, 0, old(table.jobs)) && |turns| >= Left(old(table.jobs)) ==>
              forall i :: 0 <= i < |table.jobs| ==> table.jobs[i].status != Queued
  {
    recovered := 0;
    ghost var patient := Patient(turns) && Waited(turns, 0, table.jobs);
    for n := 0 to |turns|
      invariant Settled(table.jobs) && recovered == 0
      invariant |table.jobs| == |old(table.jobs)|
      invariant forall i :: 0 <= i < |table.jobs| ==> table.jobs[i].attempts >= old(table.jobs)[i].attempts
      invariant forall i :: 0 <= i < |table.jobs| ==>
                  table.jobs[i] == old(table.jobs)[i] || table.jobs[i].status in {Succeeded, DeadLetter, Queued}
      invariant patient ==> Waited(turns, n, table.jobs)
      invariant patient ==> Left(table.jobs) == 0 || Left(table.jobs) + n <= Left(old(table.jobs))
    {
      var worked := TakeTurn(table, turns, n);
      recovered := recovered + worked;
    }
    NothingLeft(table.jobs);
  }
}
