/** How long a job or a delivery waits after each of its failures over a run. */
module FailureWaits {
  import opened Wrappers
  import opened JobQueue
  import opened JobRuns
  import opened WebhookFailures

  // ---------------------------------------------------------------------------------------------
  // Jobs
  // ---------------------------------------------------------------------------------------------

  /** Claims of job `i` since it was last retried by hand, whichever workers made them. */
  function ClaimsSinceRetry(s: State, run: seq<Action>, i: JobId): nat
    requires WellFormed(s)
  {
    if run == [] then 0
    else
      var before, a := Execute(s, run[..|run| - 1]), run[|run| - 1];
      if !Touches(before, a, i) then ClaimsSinceRetry(s, run[..|run| - 1], i)
      else if a.Retry? then 0
      else ClaimsSinceRetry(s, run[..|run| - 1], i) + if a.Claim? then 1 else 0
  }

  /** The worker reports that handling job `i` failed. */
  predicate Fails(s: State, a: Action, i: JobId) {
    a.Finish? && !a.success && Touches(s, a, i)
  }

  /** How many failures of job `i` were reported in the run. */
  function FailuresOf(s: State, run: seq<Action>, i: JobId): nat
    requires WellFormed(s)
  {
    if run == [] then 0
    else
      FailuresOf(s, run[..|run| - 1], i) +
      if Fails(Execute(s, run[..|run| - 1]), run[|run| - 1], i) then 1 else 0
  }

  lemma {:induction false} NotClaimedYet(s: State, run: seq<Action>, i: JobId)
    requires WellFormed(s) && i >= |Execute(s, run).jobs|
    ensures ClaimsSinceRetry(s, run, i) == 0 && FailuresOf(s, run, i) == 0
  {
    if run != [] { NotClaimedYet(s, run[..|run| - 1], i); }
  }

  lemma AttemptsStep(s: State, a: Action, i: JobId)
    requires WellFormed(s) && i < |s.jobs|
    ensures Apply(s, a).jobs[i].attempts ==
            if !Touches(s, a, i) then s.jobs[i].attempts
            else if a.Retry? then 0
            else s.jobs[i].attempts + if a.Claim? then 1 else 0
  {
    OldJob(s, a, i);
  }

  /** Attempts count the claims since the last manual retry; recovered leases and late reports do not. */
  lemma {:induction false} AttemptsAreClaims(s: State, run: seq<Action>, i: JobId)
    requires Initial(s) && i < |Execute(s, run).jobs|
    ensures Execute(s, run).jobs[i].attempts == ClaimsSinceRetry(s, run, i)
  {
    if run != [] {
      var rest, a := run[..|run| - 1], run[|run| - 1];
      if i < |Execute(s, rest).jobs| {
        AttemptsAreClaims(s, rest, i);
        AttemptsStep(Execute(s, rest), a, i);
      } else {
        NotClaimedYet(s, rest, i);
        NewJob(Execute(s, rest), a, i);
      }
    }
  }

  /** What a report of failure does to a job that was claimed `k` times since its last retry. */
  predicate WaitsAfter(t: State, i: JobId, k: nat, at: real, jitter: real)
    requires i < |t.jobs|
  {
    var j := t.jobs[i];
    if k >= j.maxAttempts then j.status == DeadLetter && j.nextAttemptAt == None
    else j.status == Queued && j.nextAttemptAt == Some(at + Wait(k) as real + jitter)
  }

  lemma FailureStep(s: State, a: Action, i: JobId, k: nat)
    requires WellFormed(s) && i < |s.jobs| && Fails(s, a, i) && s.jobs[i].attempts == k
    ensures WaitsAfter(Apply(s, a), i, k, a.at, a.jitter)
    ensures forall w, t :: Enabled(Apply(s, a), Claim(w, i, t)) ==> t >= a.at + Wait(k) as real + a.jitter
  {
    BackoffIsWait(k);
  }

  /**
   * Under every interleaving, a report of failure buries a job that was claimed as often as it
   * allows since its last manual retry. After the `k`-th claim short of that it queues the job
   * again, ten seconds and the jitter later after the first and twice as late after each further
   * one, five minutes at most; no worker can claim the job before.
   */
  lemma FailureSetsWait(s: State, run: seq<Action>, a: Action, i: JobId)
    requires Initial(s) && i < |Execute(s, run).jobs| && Fails(Execute(s, run), a, i)
    ensures var c := Execute(s, run);
            var k := ClaimsSinceRetry(s, run, i);
            && WaitsAfter(Apply(c, a), i, k, a.at, a.jitter)
            && forall w, t :: Enabled(Apply(c, a), Claim(w, i, t)) ==> t >= a.at + Wait(k) as real + a.jitter
  {
    AttemptsAreClaims(s, run, i);
    FailureStep(Execute(s, run), a, i, ClaimsSinceRetry(s, run, i));
  }

  /** While nobody recovers or retries the job, every attempt but a running one has failed. */
  predicate Tallied(j: Job, failures: nat) {
    && (j.status == Queued ==> failures == j.attempts)
    && (j.status == Running ==> failures + 1 == j.attempts)
  }

  lemma TallyStep(s: State, a: Action, i: JobId, failures: nat)
    requires WellFormed(s) && i < |s.jobs| && Progressing(s, i) && Tallied(s.jobs[i], failures)
    requires !(a.Recover? && a.j == i) && !(a.Retry? && a.j == i)
    ensures Tallied(Apply(s, a).jobs[i], failures + if Fails(s, a, i) then 1 else 0)
  {
    OldJob(s, a, i);
  }

  lemma {:induction false} FailuresTallied(s: State, run: seq<Action>, i: JobId)
    requires Initial(s) && i < |Execute(s, run).jobs| && LeftAlone(run, i)
    ensures Tallied(Execute(s, run).jobs[i], FailuresOf(s, run, i))
  {
    if run != [] {
      var rest, a := run[..|run| - 1], run[|run| - 1];
      assert a in run;
      if i < |Execute(s, rest).jobs| {
        FailuresTallied(s, rest, i);
        ClaimsBounded(s, rest, i);
        TallyStep(Execute(s, rest), a, i, FailuresOf(s, rest, i));
      } else {
        NotClaimedYet(s, rest, i);
        NewJob(Execute(s, rest), a, i);
      }
    }
  }

  lemma FailsWhileRunning(s: State, a: Action, i: JobId)
    requires WellFormed(s) && i < |s.jobs| && Progressing(s, i) && Fails(s, a, i)
    ensures s.jobs[i].status == Running
  {
  }

  lemma AttemptsWhenFailing(s: State, run: seq<Action>, a: Action, i: JobId)
    requires Initial(s) && i < |Execute(s, run).jobs| && LeftAlone(run, i) && Fails(Execute(s, run), a, i)
    ensures Execute(s, run).jobs[i].attempts == FailuresOf(s, run, i) + 1
  {
    FailuresTallied(s, run, i);
    ClaimsBounded(s, run, i);
    FailsWhileRunning(Execute(s, run), a, i);
  }

  /**
   * A job whose lease is never recovered and that nobody retries waits, after its `k`-th failure
   * over the whole run, 10, 20, 40, 80 and 160 seconds and then always 300, besides the jitter.
   */
  lemma KthFailureWaits(s: State, run: seq<Action>, a: Action, i: JobId)
    requires Initial(s) && i < |Execute(s, run).jobs| && LeftAlone(run, i) && Fails(Execute(s, run), a, i)
    ensures WaitsAfter(Apply(Execute(s, run), a), i, FailuresOf(s, run, i) + 1, a.at, a.jitter)
  {
    AttemptsWhenFailing(s, run, a, i);
    FailureStep(Execute(s, run), a, i, FailuresOf(s, run, i) + 1);
  }

  // ---------------------------------------------------------------------------------------------
  // Deliveries
  // ---------------------------------------------------------------------------------------------

  /** A report of failure that finds the delivery's job at its limit. */
  predicate BuriesJobOf(s: State, a: Action, d: string) {
    && a.Finish? && !a.success && Enabled(s, a) && Sending(s, a.w) && DeliveryOf(s, a.w) == d
    && s.jobs[s.handling[a.w]].attempts >= s.jobs[s.handling[a.w]].maxAttempts
  }

  predicate Delivers(s: State, a: Action, d: string) {
    a.SendSucceeds? && Enabled(s, a) && DeliveryOf(s, a.w) == d
  }

  /**
   * What a step makes of a delivery: retrying after a failed send, delivered after one that did not
   * fail, failed when a job of it is buried, queued when it is retried by hand, and otherwise as it was.
   */
  lemma DeliveryStep(s: State, a: Action, d: string)
    requires WellFormed(s) && d in s.deliveries
    ensures d in Apply(s, a).deliveries
    ensures var was, after := s.deliveries[d], Apply(s, a).deliveries[d];
            if FailsSend(s, a, d)
            then after == was.(status := Retrying, attempts := was.attempts + 1,
                               nextAttemptAt := Some(a.at + Wait(was.attempts + 1) as real))
            else if Delivers(s, a, d) then after == was.(status := Delivered, nextAttemptAt := None)
            else if BuriesJobOf(s, a, d) then after == was.(status := DeliveryFailed, nextAttemptAt := None)
            else if a.RetryDelivery? && a.delivery == d && Enabled(s, a)
            then after == was.(status := DeliveryQueued, nextAttemptAt := None)
            else after == was
  {
    BackoffIsWait(s.deliveries[d].attempts + 1);
  }

  /** The delivery has failed `k` sends, the last one just now. */
  predicate SendWaits(s: State, d: string, k: nat, at: real) {
    && d in s.deliveries && s.deliveries[d].status == Retrying && s.deliveries[d].attempts == k
    && s.deliveries[d].nextAttemptAt == Some(at + Wait(k) as real)
  }

  lemma FailedSendStep(s: State, a: Action, d: string, failures: nat)
    requires WellFormed(s) && FailsSend(s, a, d) && AttemptsOf(s, d) == failures
    ensures SendWaits(Apply(s, a), d, failures + 1, a.at)
  {
    DeliveryStep(s, a, d);
  }

  /** The `k`-th failed send of a delivery over the whole run sets the `k`-th waiting time. */
  lemma KthFailedSendWaits(s: State, run: seq<Action>, a: Action, d: string)
    requires Initial(s) && FailsSend(Execute(s, run), a, d)
    ensures SendWaits(Apply(Execute(s, run), a), d, FailedSends(s, run, d) + 1, a.at)
  {
    FailuresAreCounted(s, run, d);
    FailedSendStep(Execute(s, run), a, d, FailedSends(s, run, d));
  }
}
