/** Runs of the job queue with several workers: every interleaving of their steps, late reports included. */
module JobRuns {
  import opened Wrappers
  import opened JobQueue

  /**
   * The rows, the job each busy worker is handling, how the webhook send ended that it recorded on
   * the delivery, and the lease recoveries since a job's last reset.
   */
  datatype State = State(
    jobs: seq<Job>,
    handling: map<WorkerId, JobId>,
    sends: map<WorkerId, bool>,
    recoveries: seq<nat>,
    deliveries: map<string, DeliveryState>,
    subscriptions: map<string, SubscriptionState>)

  datatype Action =
    | Claim(w: WorkerId, j: JobId, at: real)
    | SendFails(w: WorkerId, at: real)        // a handler counts a failed send on its delivery
    | SendSucceeds(w: WorkerId)               // a handler marks its delivery as delivered
    | Finish(w: WorkerId, success: bool, at: real, jitter: real)
    | Crash(w: WorkerId)
    | Recover(j: JobId, at: real)
    | Retry(j: JobId, at: real)               // a job is retried by hand
    | Enqueue(organization: string, maxAttempts: nat, priority: int, at: real)
    | Deliver(delivery: string, organization: string, subscription: string, at: real)
    | RetryDelivery(delivery: string, at: real)   // a delivery is retried by hand
    | SetEnabled(subscription: string, enabled: bool)

  predicate WellFormed(s: State) {
    && |s.recoveries| == |s.jobs|
    && s.sends.Keys <= s.handling.Keys
    && (forall w :: w in s.handling ==> s.handling[w] < |s.jobs|)
    && (forall i :: 0 <= i < |s.jobs| ==> s.jobs[i].maxAttempts >= 1)
    && (forall i :: 0 <= i < |s.jobs| && s.jobs[i].delivery.Some? ==> s.jobs[i].maxAttempts == WEBHOOK_ATTEMPTS)
  }

  /** The worker is handling a webhook job whose delivery exists. */
  predicate Sending(s: State, w: WorkerId) {
    w in s.handling && s.handling[w] < |s.jobs| && HasDelivery(s.jobs[s.handling[w]], s.deliveries)
  }

  predicate SendFailed(s: State, w: WorkerId) {
    w in s.sends && !s.sends[w]
  }

  predicate Enabled(s: State, a: Action) {
    match a
    case Claim(w, j, at) => w !in s.handling && j < |s.jobs| && Eligible(s.jobs[j], at)
    case SendFails(w, _) => Sending(s, w) && w !in s.sends
    case SendSucceeds(w) => Sending(s, w) && w !in s.sends
    case Finish(w, success, _, jitter) => w in s.handling && jitter >= 0.0 && (success ==> !SendFailed(s, w))
    case Crash(w) => w in s.handling
    case Recover(j, _) => j < |s.jobs| && s.jobs[j].status == Running
    case Retry(j, _) => j < |s.jobs| && Retryable(s.jobs[j])
    case Enqueue(_, maxAttempts, _, _) => maxAttempts >= 1
    case Deliver(d, organization, subscription, _) =>
      && d !in s.deliveries && subscription in s.subscriptions
      && s.subscriptions[subscription] == SubscriptionState(organization, true)
    case RetryDelivery(d, _) =>
      d in s.deliveries && Sendable(s.deliveries[d], s.deliveries[d].organization, s.subscriptions)
    case SetEnabled(subscription, _) => subscription in s.subscriptions
  }

  /** The delivery a sending worker works on. */
  function DeliveryOf(s: State, w: WorkerId): string
    requires Sending(s, w)
  {
    s.jobs[s.handling[w]].delivery.value
  }

  function WithJob(s: State, j: Job): State {
    s.(jobs := s.jobs + [j], recoveries := s.recoveries + [0])
  }

  function WithDelivery(s: State, id: string, d: DeliveryState): State {
    s.(deliveries := s.deliveries[id := d])
  }

  /** A worker reports how its handler ended; nobody asks whether it still holds the lease. */
  function Report(s: State, w: WorkerId, success: bool, at: real, jitter: real): State
    requires WellFormed(s) && w in s.handling
  {
    var i := s.handling[w];
    s.(jobs := s.jobs[i := Finished(s.jobs[i], success, at, jitter)],
       handling := s.handling - {w},
       sends := s.sends - {w},
       deliveries := DeliveriesAfter(s.jobs[i], success, s.deliveries),
       subscriptions := SubscriptionsAfter(s.jobs[i], success, s.deliveries, s.subscriptions))
  }

  function Apply(s: State, a: Action): (t: State)
    requires WellFormed(s)
    ensures WellFormed(t) && |t.jobs| >= |s.jobs|
  {
    if !Enabled(s, a) then s
    else
      match a
      case Claim(w, j, at) => s.(jobs := s.jobs[j := Claimed(s.jobs[j], at)], handling := s.handling[w := j])
      case SendFails(w, at) =>
        var d := DeliveryOf(s, w);
        WithDelivery(s, d, Marked(s.deliveries[d], at)).(sends := s.sends[w := false])
      case SendSucceeds(w) =>
        var d := DeliveryOf(s, w);
        WithDelivery(s, d, s.deliveries[d].(status := Delivered, nextAttemptAt := None)).(sends := s.sends[w := true])
      case Finish(w, success, at, jitter) => Report(s, w, success, at, jitter)
      case Crash(w) => s.(handling := s.handling - {w}, sends := s.sends - {w})
      case Recover(j, at) =>
        s.(jobs := s.jobs[j := Recovered(s.jobs[j], at)], recoveries := s.recoveries[j := s.recoveries[j] + 1])
      case Retry(j, at) => s.(jobs := s.jobs[j := Retried(s.jobs[j], at)], recoveries := s.recoveries[j := 0])
      case Enqueue(organization, maxAttempts, priority, at) =>
        WithJob(s, Job(organization, Queued, 0, maxAttempts, priority, at, None, None, None))
      case Deliver(d, organization, subscription, at) =>
        var delivery := DeliveryState(organization, subscription, DeliveryQueued, 0, None);
        WithJob(WithDelivery(s, d, delivery), WebhookJob(organization, d, at))
      case RetryDelivery(d, at) =>
        WithJob(WithDelivery(s, d, Requeued(s.deliveries[d])), WebhookJob(s.deliveries[d].organization, d, at))
      case SetEnabled(x, enabled) =>
        s.(subscriptions := s.subscriptions[x := s.subscriptions[x].(enabled := enabled)])
  }

  function Execute(s: State, run: seq<Action>): (t: State)
    requires WellFormed(s)
    ensures WellFormed(t) && |t.jobs| >= |s.jobs|
  {
    if run == [] then s else Apply(Execute(s, run[..|run| - 1]), run[|run| - 1])
  }

  lemma ExecuteTwo(s: State, a: Action, b: Action)
    requires WellFormed(s)
    ensures Execute(s, [a, b]) == Apply(Apply(s, a), b)
  {
    assert [a, b][..1] == [a] && [a][..0] == [];
    assert Execute(s, [a]) == Apply(s, a);
  }

  lemma {:induction false} ExecuteAppend(s: State, a: seq<Action>, b: seq<Action>)
    requires WellFormed(s)
    ensures Execute(s, a + b) == Execute(Execute(s, a), b)
  {
    if b == [] {
      assert a + b == a;
    } else {
      assert (a + b)[..|a + b| - 1] == a + b[..|b| - 1];
      ExecuteAppend(s, a, b[..|b| - 1]);
    }
  }

  /** A queue nobody has worked on: fresh jobs, no send failed yet. */
  predicate Initial(s: State) {
    && WellFormed(s) && s.handling == map[] && s.sends == map[]
    && (forall i :: 0 <= i < |s.jobs| ==>
          s.jobs[i].status == Queued && s.jobs[i].attempts == 0 && s.recoveries[i] == 0)
    && (forall d :: d in s.deliveries ==> s.deliveries[d].attempts == 0)
  }

  predicate Touches(s: State, a: Action, i: JobId) {
    && Enabled(s, a)
    && match a
       case Claim(_, j, _) => j == i
       case Finish(w, _, _, _) => s.handling[w] == i
       case Recover(j, _) => j == i
       case Retry(j, _) => j == i
       case _ => false
  }

  /** What a step does to a job that is there already. */
  lemma OldJob(s: State, a: Action, i: JobId)
    requires WellFormed(s) && i < |s.jobs|
    ensures var t := Apply(s, a);
            && t.jobs[i].maxAttempts == s.jobs[i].maxAttempts
            && t.jobs[i].delivery == s.jobs[i].delivery
            && t.jobs[i].organization == s.jobs[i].organization
            && (!Touches(s, a, i) ==> t.jobs[i] == s.jobs[i] && t.recoveries[i] == s.recoveries[i])
  {
  }

  lemma NewJob(s: State, a: Action, i: JobId)
    requires WellFormed(s) && |s.jobs| <= i < |Apply(s, a).jobs|
    ensures var t := Apply(s, a);
            && i == |s.jobs| && t.jobs[i].status == Queued && t.jobs[i].attempts == 0 && t.recoveries[i] == 0
            && t.handling == s.handling
  {
  }

  // ---------------------------------------------------------------------------------------------
  // Attempts
  // ---------------------------------------------------------------------------------------------

  predicate Bounded(s: State, i: JobId)
    requires WellFormed(s) && i < |s.jobs|
  {
    var j := s.jobs[i];
    && j.status != FailedJob
    && j.attempts <= j.maxAttempts + s.recoveries[i]
    && (j.status == Queued ==> j.attempts < j.maxAttempts + s.recoveries[i])
  }

  lemma BoundedStep(s: State, a: Action, i: JobId)
    requires WellFormed(s) && i < |Apply(s, a).jobs| && (i < |s.jobs| ==> Bounded(s, i))
    ensures Bounded(Apply(s, a), i)
  {
    if i < |s.jobs| { OldJob(s, a, i); } else { NewJob(s, a, i); }
  }

  /**
   * For every interleaving, late finishes by workers whose lease was recovered included, a job's
   * attempts never exceed its maximum plus the recoveries since its last reset.
   */
  lemma {:induction false} AttemptsBounded(s: State, run: seq<Action>, i: JobId)
    requires Initial(s) && i < |Execute(s, run).jobs|
    ensures Bounded(Execute(s, run), i)
    ensures i < |s.jobs| ==> Execute(s, run).jobs[i].maxAttempts == s.jobs[i].maxAttempts
  {
    if run != [] {
      var rest, a := run[..|run| - 1], run[|run| - 1];
      if i < |Execute(s, rest).jobs| {
        AttemptsBounded(s, rest, i);
        OldJob(Execute(s, rest), a, i);
      }
      BoundedStep(Execute(s, rest), a, i);
    }
  }

  // ---------------------------------------------------------------------------------------------
  // Without recoveries and retries of a job
  // ---------------------------------------------------------------------------------------------

  predicate Terminal(j: Job) {
    j.status in {Succeeded, DeadLetter}
  }

  predicate LeftAlone(run: seq<Action>, i: JobId) {
    forall a :: a in run ==> !(a.Recover? && a.j == i) && !(a.Retry? && a.j == i)
  }

  /** At most one worker handles job `i`, and then the job is running. */
  predicate Exclusive(s: State, i: JobId)
    requires i < |s.jobs|
  {
    && (forall v, w :: v in s.handling && w in s.handling && s.handling[v] == i && s.handling[w] == i ==> v == w)
    && (forall w :: w in s.handling && s.handling[w] == i ==> s.jobs[i].status == Running)
  }

  function ClaimsOf(s: State, run: seq<Action>, i: JobId): nat
    requires WellFormed(s)
  {
    if run == [] then 0
    else
      var before, a := Execute(s, run[..|run| - 1]), run[|run| - 1];
      ClaimsOf(s, run[..|run| - 1], i) + if Touches(before, a, i) && a.Claim? then 1 else 0
  }

  function TouchesOf(s: State, run: seq<Action>, i: JobId): nat
    requires WellFormed(s)
  {
    if run == [] then 0
    else
      var before, a := Execute(s, run[..|run| - 1]), run[|run| - 1];
      TouchesOf(s, run[..|run| - 1], i) + if Touches(before, a, i) then 1 else 0
  }

  lemma {:induction false} NotThereYet(s: State, run: seq<Action>, i: JobId)
    requires WellFormed(s) && i >= |Execute(s, run).jobs|
    ensures ClaimsOf(s, run, i) == 0 && TouchesOf(s, run, i) == 0
  {
    if run != [] { NotThereYet(s, run[..|run| - 1], i); }
  }

  /** Zero exactly for a finished job; every claim and every finish lowers it. */
  function Measure(j: Job): nat
    requires j.attempts <= j.maxAttempts
  {
    if Terminal(j) then 0
    else 2 * (j.maxAttempts - j.attempts) + if j.status == Running then 1 else 0
  }

  predicate Progressing(s: State, i: JobId)
    requires i < |s.jobs|
  {
    var j := s.jobs[i];
    && Exclusive(s, i)
    && j.status in {Queued, Running, Succeeded, DeadLetter}
    && j.attempts <= j.maxAttempts && (j.status == Queued ==> j.attempts < j.maxAttempts)
  }

  lemma ProgressStep(s: State, a: Action, i: JobId)
    requires WellFormed(s) && i < |s.jobs| && Progressing(s, i)
    requires !(a.Recover? && a.j == i) && !(a.Retry? && a.j == i)
    ensures var t := Apply(s, a);
            && Progressing(t, i)
            && t.jobs[i].attempts == s.jobs[i].attempts + (if Touches(s, a, i) && a.Claim? then 1 else 0)
            && Measure(t.jobs[i]) + (if Touches(s, a, i) then 1 else 0) <= Measure(s.jobs[i])
  {
    OldJob(s, a, i);
  }

  lemma NewJobProgresses(s: State, a: Action, i: JobId)
    requires WellFormed(s) && |s.jobs| <= i < |Apply(s, a).jobs|
    ensures var t := Apply(s, a);
            && Progressing(t, i) && t.jobs[i].attempts == 0 && Measure(t.jobs[i]) == 2 * t.jobs[i].maxAttempts
  {
    NewJob(s, a, i);
  }

  /**
   * Without lease recoveries and manual retries of a job, its claims are counted by its attempts
   * and never exceed its maximum, and its claims and finishes together use up a measure that is
   * zero exactly when the job has succeeded or is a dead letter.
   */
  lemma {:induction false} ClaimsBounded(s: State, run: seq<Action>, i: JobId)
    requires Initial(s) && i < |Execute(s, run).jobs| && LeftAlone(run, i)
    ensures var t := Execute(s, run);
            && Progressing(t, i)
            && ClaimsOf(s, run, i) == t.jobs[i].attempts
            && Measure(t.jobs[i]) + TouchesOf(s, run, i) <= 2 * t.jobs[i].maxAttempts
            && (Measure(t.jobs[i]) == 0 <==> Terminal(t.jobs[i]))
  {
    if run != [] {
      var rest, a := run[..|run| - 1], run[|run| - 1];
      var before := Execute(s, rest);
      assert a in run;
      if i < |before.jobs| {
        ClaimsBounded(s, rest, i);
        ProgressStep(before, a, i);
        OldJob(before, a, i);
      } else {
        NotThereYet(s, rest, i);
        NewJobProgresses(before, a, i);
      }
    }
  }

  // ---------------------------------------------------------------------------------------------
  // A job that is not finished can go on
  // ---------------------------------------------------------------------------------------------

  predicate Held(s: State, i: JobId) {
    exists w :: w in s.handling && s.handling[w] == i
  }

  lemma QueuedCanBeClaimed(s: State, i: JobId) returns (a: Action)
    requires WellFormed(s) && i < |s.jobs| && s.jobs[i].status == Queued
    ensures a.Claim? && Touches(s, a, i)
  {
    var w := Unused(s.handling.Keys);
    a := Claim(w, i, if s.jobs[i].nextAttemptAt.Some? then s.jobs[i].nextAttemptAt.value else 0.0);
  }

  /**
   * In every reachable state a job that is neither succeeded nor dead has a step ahead of it: it can
   * be claimed when it is queued, its worker can report while it has one, and when the worker has
   * crashed its lease can be recovered.
   */
  lemma UnfinishedCanGoOn(s: State, run: seq<Action>, i: JobId)
    requires Initial(s) && i < |Execute(s, run).jobs| && !Terminal(Execute(s, run).jobs[i])
    ensures var c := Execute(s, run);
            exists a :: Touches(c, a, i)
                        && if c.jobs[i].status == Queued then a.Claim? else if Held(c, i) then a.Finish? else a.Recover?
  {
    var c := Execute(s, run);
    AttemptsBounded(s, run, i);
    if c.jobs[i].status == Queued {
      var a := QueuedCanBeClaimed(c, i);
    } else if Held(c, i) {
      var w :| w in c.handling && c.handling[w] == i;
      assert Touches(c, Finish(w, false, 0.0, 0.0), i);
    } else {
      assert Touches(c, Recover(i, 0.0), i);
    }
  }

  lemma QueuedCanSucceed(s: State, i: JobId) returns (run: seq<Action>)
    requires WellFormed(s) && i < |s.jobs| && s.jobs[i].status == Queued
    ensures i < |Execute(s, run).jobs| && Execute(s, run).jobs[i].status == Succeeded
  {
    var a := QueuedCanBeClaimed(s, i);
    run := [a, Finish(a.w, true, a.at, 0.0)];
    ExecuteTwo(s, a, Finish(a.w, true, a.at, 0.0));
    assert a.w !in s.sends;
  }

  lemma ExecuteOne(s: State, a: Action)
    requires WellFormed(s)
    ensures Execute(s, [a]) == Apply(s, a)
  {
    assert [a][..0] == [];
  }

  /** From every reachable state every job can still succeed or be buried. */
  lemma EveryJobCanFinish(s: State, run: seq<Action>, i: JobId) returns (more: seq<Action>)
    requires Initial(s) && i < |Execute(s, run).jobs|
    ensures i < |Execute(Execute(s, run), more).jobs| && Terminal(Execute(Execute(s, run), more).jobs[i])
  {
    var c := Execute(s, run);
    AttemptsBounded(s, run, i);
    if Terminal(c.jobs[i]) {
      more := [];
    } else if c.jobs[i].status == Queued {
      more := QueuedCanSucceed(c, i);
    } else {
      var t := Apply(c, Recover(i, 0.0));
      ExecuteOne(c, Recover(i, 0.0));
      var rest := QueuedCanSucceed(t, i);
      ExecuteAppend(c, [Recover(i, 0.0)], rest);
      more := [Recover(i, 0.0)] + rest;
    }
  }

  // ---------------------------------------------------------------------------------------------
  // When success is final
  // ---------------------------------------------------------------------------------------------

  lemma UnheldStep(s: State, a: Action, i: JobId)
    requires WellFormed(s) && i < |s.jobs| && s.jobs[i].status == Succeeded && !Held(s, i)
    ensures Apply(s, a).jobs[i].status == Succeeded && !Held(Apply(s, a), i)
  {
    OldJob(s, a, i);
  }

  lemma {:induction false} UnheldSuccessStays(s: State, run: seq<Action>, i: JobId)
    requires WellFormed(s) && i < |s.jobs| && s.jobs[i].status == Succeeded && !Held(s, i)
    ensures Execute(s, run).jobs[i].status == Succeeded && !Held(Execute(s, run), i)
  {
    if run != [] {
      UnheldSuccessStays(s, run[..|run| - 1], i);
      UnheldStep(Execute(s, run[..|run| - 1]), run[|run| - 1], i);
    }
  }

  /**
   * A succeeded job stays succeeded in every continuation exactly when no worker is still handling
   * it: a late failure report of a worker that lost its lease reopens or buries the job.
   */
  lemma SuccessIsFinalIffUnheld(s: State, i: JobId)
    requires WellFormed(s) && i < |s.jobs| && s.jobs[i].status == Succeeded
    ensures (forall run :: Execute(s, run).jobs[i].status == Succeeded) <==> !Held(s, i)
  {
    if Held(s, i) {
      var w :| w in s.handling && s.handling[w] == i;
      ExecuteOne(s, Finish(w, false, 0.0, 0.0));
      assert Execute(s, [Finish(w, false, 0.0, 0.0)]).jobs[i].status != Succeeded;
    } else {
      forall run ensures Execute(s, run).jobs[i].status == Succeeded {
        UnheldSuccessStays(s, run, i);
      }
    }
  }

  /** Such a state is reached: a worker loses its lease, another one succeeds, and the first still handles the job. */
  lemma HeldSuccessIsReached(s: State, i: JobId, first: WorkerId, second: WorkerId, at: real) returns (run: seq<Action>)
    requires Initial(s) && i < |s.jobs| && first != second && Eligible(s.jobs[i], at)
    ensures Execute(s, run).jobs[i].status == Succeeded && Held(Execute(s, run), i)
  {
    var b := Apply(Apply(s, Claim(first, i, at)), Recover(i, at));
    ExecuteTwo(s, Claim(first, i, at), Recover(i, at));
    ExecuteTwo(b, Claim(second, i, at), Finish(second, true, at, 0.0));
    ExecuteAppend(s, [Claim(first, i, at), Recover(i, at)], [Claim(second, i, at), Finish(second, true, at, 0.0)]);
    run := [Claim(first, i, at), Recover(i, at)] + [Claim(second, i, at), Finish(second, true, at, 0.0)];
    assert first in Execute(s, run).handling;
  }
}
