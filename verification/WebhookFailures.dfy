/** Failed webhook sends over a run, and when a dead letter disables a subscription. */
module WebhookFailures {
  import opened Wrappers
  import opened JobQueue
  import opened JobRuns

  /** The step counts a failed send of the delivery. */
  predicate FailsSend(s: State, a: Action, d: string) {
    a.SendFails? && Enabled(s, a) && DeliveryOf(s, a.w) == d
  }

  /** How many sends of the delivery failed in the run, whichever jobs made them. */
  function FailedSends(s: State, run: seq<Action>, d: string): nat
    requires WellFormed(s)
  {
    if run == [] then 0
    else
      FailedSends(s, run[..|run| - 1], d) +
      if FailsSend(Execute(s, run[..|run| - 1]), run[|run| - 1], d) then 1 else 0
  }

  function AttemptsOf(s: State, d: string): nat {
    if d in s.deliveries then s.deliveries[d].attempts else 0
  }

  /** A send that fails is all that ever changes a delivery's count: no retry resets it. */
  lemma CountStep(s: State, a: Action, d: string)
    requires WellFormed(s)
    ensures AttemptsOf(Apply(s, a), d) == AttemptsOf(s, d) + if FailsSend(s, a, d) then 1 else 0
    ensures d in s.deliveries ==>
              var t := Apply(s, a);
              && d in t.deliveries && t.deliveries[d].organization == s.deliveries[d].organization
              && t.deliveries[d].subscription == s.deliveries[d].subscription
  {
  }

  lemma {:induction false} FailuresAreCounted(s: State, run: seq<Action>, d: string)
    requires Initial(s)
    ensures AttemptsOf(Execute(s, run), d) == FailedSends(s, run, d)
  {
    if run != [] {
      FailuresAreCounted(s, run[..|run| - 1], d);
      CountStep(Execute(s, run[..|run| - 1]), run[|run| - 1], d);
    }
  }

  predicate On(s: State, x: string) {
    x in s.subscriptions && s.subscriptions[x].enabled
  }

  /** The worker's failure report buries a job whose delivery belongs to the subscription. */
  predicate Buries(s: State, a: Action, x: string) {
    && a.Finish? && !a.success && Enabled(s, a) && Sending(s, a.w)
    && s.jobs[s.handling[a.w]].attempts >= s.jobs[s.handling[a.w]].maxAttempts
    && s.deliveries[DeliveryOf(s, a.w)].subscription == x
    && x in s.subscriptions && s.subscriptions[x].organization == s.jobs[s.handling[a.w]].organization
  }

  lemma SwitchedOffStep(s: State, a: Action, x: string)
    requires WellFormed(s) && On(s, x)
    ensures !On(Apply(s, a), x) <==>
            a == SetEnabled(x, false) || (Buries(s, a, x) && s.deliveries[DeliveryOf(s, a.w)].attempts >= DISABLE_AFTER)
  {
  }

  /**
   * In every reachable state, a step switches a subscription off exactly when it is the manual
   * switch, or a failure report that buries a job whose delivery has failed at least five sends
   * over the whole run, by this job or any other.
   */
  lemma SwitchedOffIff(s: State, run: seq<Action>, a: Action, x: string)
    requires Initial(s) && On(Execute(s, run), x)
    ensures var c := Execute(s, run);
            !On(Apply(c, a), x) <==>
            a == SetEnabled(x, false) || (Buries(c, a, x) && FailedSends(s, run, DeliveryOf(c, a.w)) >= 5)
  {
    var c := Execute(s, run);
    SwitchedOffStep(c, a, x);
    if Buries(c, a, x) { FailuresAreCounted(s, run, DeliveryOf(c, a.w)); }
  }

  // ---------------------------------------------------------------------------------------------
  // One job alone never does it
  // ---------------------------------------------------------------------------------------------

  /** Only job `i`, if any, sends the delivery. */
  predicate OnlyJob(s: State, i: JobId, d: string) {
    forall k :: 0 <= k < |s.jobs| && s.jobs[k].delivery == Some(d) ==> k == i
  }

  lemma OnlyJobBefore(s: State, a: Action, i: JobId, d: string)
    requires WellFormed(s) && OnlyJob(Apply(s, a), i, d)
    ensures OnlyJob(s, i, d)
  {
    forall k | 0 <= k < |s.jobs| ensures Apply(s, a).jobs[k].delivery == s.jobs[k].delivery { OldJob(s, a, k); }
  }

  /** A worker handles job `i` and has not recorded how its send ended. */
  predicate Trying(s: State, i: JobId) {
    exists w :: w in s.handling && s.handling[w] == i && w !in s.sends
  }

  lemma TryingStep(s: State, a: Action, i: JobId, d: string)
    requires WellFormed(s) && i < |s.jobs| && Exclusive(s, i) && OnlyJob(s, i, d)
    ensures FailsSend(s, a, d) ==> Trying(s, i) && !Trying(Apply(s, a), i)
    ensures Trying(Apply(s, a), i) ==> Trying(s, i) || (Touches(s, a, i) && a.Claim?)
  {
    if FailsSend(s, a, d) {
      assert s.handling[a.w] == i;
    }
  }

  lemma NoJobNoFailure(s: State, a: Action, i: JobId, d: string)
    requires WellFormed(s) && i >= |s.jobs| && OnlyJob(s, i, d)
    ensures !FailsSend(s, a, d)
  {
  }

  lemma {:induction false} NoJobNoFailures(s: State, run: seq<Action>, i: JobId, d: string)
    requires WellFormed(s) && i >= |Execute(s, run).jobs| && OnlyJob(Execute(s, run), i, d)
    ensures FailedSends(s, run, d) == 0
  {
    if run != [] {
      var before := Execute(s, run[..|run| - 1]);
      OnlyJobBefore(before, run[|run| - 1], i, d);
      NoJobNoFailures(s, run[..|run| - 1], i, d);
      NoJobNoFailure(before, run[|run| - 1], i, d);
    }
  }

  lemma NewJobIsNotTried(s: State, a: Action, i: JobId, d: string)
    requires WellFormed(s) && |s.jobs| <= i < |Apply(s, a).jobs| && OnlyJob(s, i, d)
    ensures !FailsSend(s, a, d) && !Trying(Apply(s, a), i)
  {
    NewJob(s, a, i);
  }

  /** Each failed send belongs to a claim of its own. */
  lemma {:induction false} SendsBounded(s: State, run: seq<Action>, i: JobId, d: string)
    requires Initial(s) && i < |Execute(s, run).jobs| && LeftAlone(run, i) && OnlyJob(Execute(s, run), i, d)
    ensures FailedSends(s, run, d) + (if Trying(Execute(s, run), i) then 1 else 0) <= ClaimsOf(s, run, i)
  {
    if run != [] {
      var rest, a := run[..|run| - 1], run[|run| - 1];
      var before := Execute(s, rest);
      OnlyJobBefore(before, a, i, d);
      assert a in run;
      if i < |before.jobs| {
        SendsBounded(s, rest, i, d);
        ClaimsBounded(s, rest, i);
        TryingStep(before, a, i, d);
      } else {
        NoJobNoFailures(s, rest, i, d);
        NewJobIsNotTried(before, a, i, d);
      }
    }
  }

  /**
   * So a delivery's failed sends reach five only with a second job for it, made by a manual retry of
   * the delivery, or with a recovered lease or a manual retry of its job.
   */
  lemma OneJobFailsFourTimes(s: State, run: seq<Action>, i: JobId, d: string)
    requires Initial(s) && i < |Execute(s, run).jobs| && Execute(s, run).jobs[i].delivery == Some(d)
    requires LeftAlone(run, i) && OnlyJob(Execute(s, run), i, d)
    ensures FailedSends(s, run, d) <= 4
  {
    SendsBounded(s, run, i, d);
    ClaimsBounded(s, run, i);
  }

  /** The step of a run that switches a subscription off. */
  lemma {:induction false} SwitchingStep(s: State, run: seq<Action>, x: string) returns (k: nat)
    requires WellFormed(s) && On(s, x) && !On(Execute(s, run), x)
    ensures k < |run| && On(Execute(s, run[..k]), x) && !On(Apply(Execute(s, run[..k]), run[k]), x)
  {
    k := |run| - 1;
    if !On(Execute(s, run[..k]), x) {
      var before := run[..k];
      k := SwitchingStep(s, before, x);
      assert before[..k] == run[..k];
    }
  }

  /**
   * Whenever a run switches a subscription off without the manual switch, some failure report in it
   * buried a job whose delivery had failed five sends or more, and the delivery had a second job, or
   * the lease of that job had been recovered, or the job had been retried by hand.
   */
  lemma SwitchedOffNeedsRepeat(s: State, run: seq<Action>, x: string) returns (k: nat)
    requires Initial(s) && On(s, x) && !On(Execute(s, run), x) && SetEnabled(x, false) !in run
    ensures k < |run| && Buries(Execute(s, run[..k]), run[k], x)
    ensures var c := Execute(s, run[..k]);
            var i, d := c.handling[run[k].w], DeliveryOf(c, run[k].w);
            FailedSends(s, run[..k], d) >= 5 && !(LeftAlone(run[..k], i) && OnlyJob(c, i, d))
  {
    k := SwitchingStep(s, run, x);
    var c := Execute(s, run[..k]);
    assert run[k] in run;
    SwitchedOffIff(s, run[..k], run[k], x);
    var i, d := c.handling[run[k].w], DeliveryOf(c, run[k].w);
    if LeftAlone(run[..k], i) && OnlyJob(c, i, d) { OneJobFailsFourTimes(s, run[..k], i, d); }
  }

  // ---------------------------------------------------------------------------------------------
  // Two jobs do it
  // ---------------------------------------------------------------------------------------------

  /** Neither a recovery nor a manual retry of a job nor a manual switch. */
  predicate Plain(run: seq<Action>) {
    forall a :: a in run ==> !a.Recover? && !a.Retry? && !a.SetEnabled?
  }

  /** Job `i` sends delivery `d` of an enabled subscription, nobody handles it, and it has `n` attempts behind it. */
  predicate Ready(s: State, i: JobId, d: string, x: string, n: nat) {
    && i < |s.jobs| && s.handling == map[] && s.sends == map[]
    && s.jobs[i].delivery == Some(d) && s.jobs[i].status == Queued && s.jobs[i].attempts == n < WEBHOOK_ATTEMPTS
    && d in s.deliveries && s.deliveries[d].organization == s.jobs[i].organization
    && s.deliveries[d].subscription == x && x in s.subscriptions
    && s.subscriptions[x] == SubscriptionState(s.jobs[i].organization, true)
  }

  function DueAt(j: Job): real {
    if j.nextAttemptAt.Some? then j.nextAttemptAt.value else 0.0
  }

  /** Claim, failed send, report. */
  function FailedTry(s: State, i: JobId): seq<Action>
    requires i < |s.jobs|
  {
    var at := DueAt(s.jobs[i]);
    [Claim(0, i, at), SendFails(0, at), Finish(0, false, at, 0.0)]
  }

  lemma ExecuteThree(s: State, a: Action, b: Action, c: Action)
    requires WellFormed(s)
    ensures Execute(s, [a, b, c]) == Apply(Apply(Apply(s, a), b), c)
  {
    ExecuteTwo(s, a, b);
    ExecuteAppend(s, [a, b], [c]);
    ExecuteOne(Apply(Apply(s, a), b), c);
    assert [a, b] + [c] == [a, b, c];
  }

  /** The state between the claim and the report of a failed try. */
  lemma TrySends(s: State, i: JobId, d: string, x: string, n: nat, at: real) returns (t: State)
    requires WellFormed(s) && Ready(s, i, d, x, n) && at == DueAt(s.jobs[i])
    ensures t == Apply(Apply(s, Claim(0, i, at)), SendFails(0, at))
    ensures t.jobs == s.jobs[i := Claimed(s.jobs[i], at)] && t.handling == map[0 := i] && t.sends == map[0 := false]
    ensures t.deliveries == s.deliveries[d := Marked(s.deliveries[d], at)] && t.subscriptions == s.subscriptions
  {
    t := Apply(Apply(s, Claim(0, i, at)), SendFails(0, at));
  }

  /** Nobody works, and the delivery belongs to the subscription. */
  predicate Done(s: State, d: string, x: string) {
    && s.handling == map[] && s.sends == map[]
    && d in s.deliveries && s.deliveries[d].subscription == x && x in s.subscriptions
    && s.subscriptions[x].organization == s.deliveries[d].organization
  }

  /** A failed try leaves the job ready again, or buries it; then the subscription goes off at five failed sends. */
  lemma TryFails(s: State, i: JobId, d: string, x: string, n: nat)
    requires WellFormed(s) && Ready(s, i, d, x, n)
    ensures var t := Execute(s, FailedTry(s, i));
            && AttemptsOf(t, d) == AttemptsOf(s, d) + 1
            && (n + 1 < WEBHOOK_ATTEMPTS ==> Ready(t, i, d, x, n + 1))
            && (n + 1 == WEBHOOK_ATTEMPTS ==> Done(t, d, x) && (On(t, x) <==> AttemptsOf(t, d) < DISABLE_AFTER))
  {
    var at := DueAt(s.jobs[i]);
    var t := TrySends(s, i, d, x, n, at);
    ExecuteThree(s, Claim(0, i, at), SendFails(0, at), Finish(0, false, at, 0.0));
    assert s.jobs[i].maxAttempts == WEBHOOK_ATTEMPTS;
    assert Enabled(t, Finish(0, false, at, 0.0));
  }

  /** All tries of a job fail. */
  lemma {:induction false} LifeFails(s: State, i: JobId, d: string, x: string, n: nat) returns (run: seq<Action>)
    requires WellFormed(s) && Ready(s, i, d, x, n)
    ensures var t := Execute(s, run);
            && Plain(run) && Done(t, d, x)
            && AttemptsOf(t, d) == AttemptsOf(s, d) + WEBHOOK_ATTEMPTS - n
            && (On(t, x) <==> AttemptsOf(t, d) < DISABLE_AFTER)
    decreases WEBHOOK_ATTEMPTS - n
  {
    run := FailedTry(s, i);
    TryFails(s, i, d, x, n);
    if n + 1 < WEBHOOK_ATTEMPTS {
      var more := LifeFails(Execute(s, run), i, d, x, n + 1);
      ExecuteAppend(s, run, more);
      run := run + more;
    }
  }

  /** A new job for the delivery, all tries of which fail. */
  lemma NewLifeFails(s: State, a: Action, d: string, x: string) returns (run: seq<Action>)
    requires WellFormed(s) && (a.Deliver? || a.RetryDelivery?) && Ready(Apply(s, a), |s.jobs|, d, x, 0)
    ensures var t := Execute(s, run);
            && Plain(run) && Done(t, d, x)
            && AttemptsOf(t, d) == AttemptsOf(s, d) + WEBHOOK_ATTEMPTS
            && (On(t, x) <==> AttemptsOf(t, d) < DISABLE_AFTER)
  {
    CountStep(s, a, d);
    var more := LifeFails(Apply(s, a), |s.jobs|, d, x, 0);
    ExecuteOne(s, a);
    ExecuteAppend(s, [a], more);
    run := [a] + more;
  }

  lemma RetryMakesReady(s: State, d: string, x: string, at: real)
    requires WellFormed(s) && Done(s, d, x) && On(s, x)
    ensures Ready(Apply(s, RetryDelivery(d, at)), |s.jobs|, d, x, 0)
  {
  }

  /**
   * From a queue nobody has worked on: a delivery whose job fails all its sends, and which is then
   * retried by hand, so that a second job fails all of them again. The subscription is off, although
   * no lease was recovered, no job retried by hand and no switch used.
   */
  lemma TwoJobsDisable(s: State, x: string, d: string, at: real) returns (run: seq<Action>)
    requires Initial(s) && On(s, x) && d !in s.deliveries
    ensures Plain(run) && !On(Execute(s, run), x) && FailedSends(s, run, d) == 8
  {
    var first := NewLifeFails(s, Deliver(d, s.subscriptions[x].organization, x, at), d, x);
    var t := Execute(s, first);
    RetryMakesReady(t, d, x, at);
    var second := NewLifeFails(t, RetryDelivery(d, at), d, x);
    ExecuteAppend(s, first, second);
    run := first + second;
    FailuresAreCounted(s, run, d);
  }
}
