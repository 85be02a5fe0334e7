/** Which idempotency keys can still lead to an answer, and which committed shipments are announced. */
module KeyFate {
  import opened Wrappers
  import opened Idempotency

  // ---------------------------------------------------------------------------------------------
  // Acceptance events
  // ---------------------------------------------------------------------------------------------

  /** The acceptance event is that of a succeeded reservation of some account. */
  ghost predicate Backed(s: State, organization: string, text: string) {
    && (organization, text) in s.events
    && exists account :: HasAnswer(s, Key(organization, account, text), s.events[(organization, text)])
  }

  ghost predicate EventsBacked(s: State) {
    forall organization, text :: (organization, text) in s.events ==> Backed(s, organization, text)
  }

  lemma OldEventStaysBacked(s: State, step: Step, organization: string, text: string)
    requires Inv(s) && Enabled(s, step) && Backed(s, organization, text)
    ensures Backed(Apply(s, step), organization, text)
  {
    var t, e := Apply(s, step), (organization, text);
    var account :| HasAnswer(s, Key(organization, account, text), s.events[e]);
    StepKeepsAnswer(s, step, Key(organization, account, text), s.events[e]);
    assert t.events[e] == s.events[e];
    assert HasAnswer(t, Key(organization, account, text), t.events[e]);
  }

  lemma NewEventIsBacked(s: State, step: Step, organization: string, text: string)
    requires Inv(s) && Enabled(s, step)
    requires (organization, text) in Apply(s, step).events && (organization, text) !in s.events
    ensures Backed(Apply(s, step), organization, text)
  {
    assert step.Finish? && StageSound(s, step.r);
    assert s.keys[step.r] == Key(organization, s.keys[step.r].account, text);
  }

  lemma StepKeepsBacked(s: State, step: Step)
    requires Inv(s) && EventsBacked(s) && Enabled(s, step)
    ensures EventsBacked(Apply(s, step))
  {
    forall organization, text | (organization, text) in Apply(s, step).events
      ensures Backed(Apply(s, step), organization, text)
    {
      if (organization, text) in s.events {
        OldEventStaysBacked(s, step, organization, text);
      } else {
        NewEventIsBacked(s, step, organization, text);
      }
    }
  }

  lemma {:induction false} RunsKeepBacked(s: State, run: seq<Step>)
    requires Inv(s) && EventsBacked(s)
    ensures Inv(Execute(s, run)) && EventsBacked(Execute(s, run))
  {
    RunsKeepInv(s, run);
    if run != [] {
      var before := Execute(s, run[..|run| - 1]);
      RunsKeepBacked(s, run[..|run| - 1]);
      if Enabled(before, run[|run| - 1]) { StepKeepsBacked(before, run[|run| - 1]); }
    }
  }

  /** Some account of the organization has succeeded with the key text. */
  ghost predicate Taken(s: State, k: Key) {
    exists account, id :: HasAnswer(s, Key(k.organization, account, k.key), id)
  }

  lemma TakenIsEvent(s: State, k: Key)
    requires Inv(s) && EventsBacked(s)
    ensures Taken(s, k) <==> (k.organization, k.key) in s.events
  {
    if Taken(s, k) {
      var account, id :| HasAnswer(s, Key(k.organization, account, k.key), id);
      assert RowSound(s, Key(k.organization, account, k.key));
    }
    if (k.organization, k.key) in s.events { assert Backed(s, k.organization, k.key); }
  }

  /**
   * The acceptance event is unique per organization and key text, not per account: two accounts
   * of one organization never both succeed with the same key text.
   */
  lemma OneAccountPerKeyText(run: seq<Step>, j: Key, k: Key, a: ShipmentId, b: ShipmentId)
    requires var s := Execute(INITIAL, run); HasAnswer(s, j, a) && HasAnswer(s, k, b)
    requires j.organization == k.organization && j.key == k.key
    ensures j == k && a == b
  {
    RunsKeepInv(INITIAL, run);
    var s := Execute(INITIAL, run);
    assert RowSound(s, j) && RowSound(s, k);
  }

  lemma FinishCommitsAt(s: State, r: RequestId, id: ShipmentId)
    requires Inv(s) && At(s, r, Created(id))
    ensures var t := Apply(s, Finish(r));
            && (At(t, r, Committed(id)) <==> (s.keys[r].organization, s.keys[r].key) !in s.events)
            && (At(t, r, Committed(id)) <==> HasAnswer(t, s.keys[r], id))
            && (At(t, r, Rejected) <==> !At(t, r, Committed(id)))
            && id in t.shipments && t.shipments[id] == r
  {
    assert StageSound(s, r);
  }

  /**
   * A committed shipment is announced, and its reservation succeeds, exactly when no account of the
   * organization has succeeded with the key text before; otherwise the request is turned away.
   */
  lemma FinishCommitsIff(run: seq<Step>, r: RequestId, id: ShipmentId)
    requires At(Execute(INITIAL, run), r, Created(id))
    ensures var s := Execute(INITIAL, run);
            var t := Apply(s, Finish(r));
            && r in s.keys
            && (At(t, r, Committed(id)) <==> !Taken(s, s.keys[r]))
            && (At(t, r, Committed(id)) <==> HasAnswer(t, s.keys[r], id))
            && (At(t, r, Rejected) <==> !At(t, r, Committed(id)))
            && id in t.shipments && t.shipments[id] == r
  {
    var s := Execute(INITIAL, run);
    RunsKeepBacked(INITIAL, run);
    FinishCommitsAt(s, r, id);
    TakenIsEvent(s, s.keys[r]);
  }

  // ---------------------------------------------------------------------------------------------
  // Doomed keys
  // ---------------------------------------------------------------------------------------------

  predicate SucceededRow(s: State, k: Key) {
    k in s.reservations && s.reservations[k].status == Succeeded
  }

  /** The owner of the reservation stopped without success, or is about to: creation raised, or it crashed. */
  predicate OwnerStopped(s: State, k: Key) {
    && k in s.reservations && s.reservations[k].owner in s.stages
    && s.stages[s.reservations[k].owner] in {CreationFailed, Rejected}
  }

  /** Not succeeded, and the key text is taken or the reservation's owner stopped. */
  predicate Doomed(s: State, k: Key) {
    !SucceededRow(s, k) && ((k.organization, k.key) in s.events || OwnerStopped(s, k))
  }

  /** A request of the key has been answered with a shipment. */
  predicate Answers(s: State, r: RequestId, k: Key) {
    r in s.stages && r in s.keys && s.keys[r] == k && s.stages[r].Answered?
  }

  predicate AnsweredAfter(s: State, run: seq<Step>, r: RequestId, k: Key)
    requires Known(s)
  {
    Answers(Execute(s, run), r, k)
  }

  lemma AnsweredIsSucceeded(s: State, r: RequestId, k: Key)
    requires Inv(s) && Answers(s, r, k)
    ensures SucceededRow(s, k)
  {
    assert StageSound(s, r);
  }

  lemma EventsAreKept(s: State, step: Step, e: (string, string))
    requires Known(s) && Enabled(s, step) && e in s.events
    ensures e in Apply(s, step).events
  {
  }

  /** Only its owner updates a reservation. */
  lemma UpdaterIsOwner(s: State, step: Step, k: Key)
    requires Inv(s) && Enabled(s, step) && (step.MarkFailed? || step.Finish?)
    requires k in s.reservations && step.r != s.reservations[k].owner
    ensures s.keys[step.r] != k
  {
    assert StageSound(s, step.r);
  }

  lemma OthersLeaveRow(s: State, step: Step, k: Key)
    requires Inv(s) && Enabled(s, step) && k in s.reservations && s.reservations[k].owner in s.stages
    requires step.r != s.reservations[k].owner
    ensures var t, owner := Apply(s, step), s.reservations[k].owner;
            && k in t.reservations && t.reservations[k] == s.reservations[k]
            && owner in t.stages && t.stages[owner] == s.stages[owner]
  {
    if step.MarkFailed? || step.Finish? { UpdaterIsOwner(s, step, k); }
  }

  lemma StepKeepsStopped(s: State, step: Step, k: Key)
    requires Inv(s) && Enabled(s, step) && OwnerStopped(s, k) && !SucceededRow(s, k)
    ensures OwnerStopped(Apply(s, step), k) && !SucceededRow(Apply(s, step), k)
  {
    if step.r != s.reservations[k].owner {
      OthersLeaveRow(s, step, k);
    } else {
      assert step.MarkFailed? || step.Crash?;
    }
  }

  /** While an account that took the key text has the event, no other account's reservation succeeds. */
  lemma StepKeepsUnsucceeded(s: State, step: Step, k: Key)
    requires Inv(s) && Enabled(s, step) && (k.organization, k.key) in s.events && !SucceededRow(s, k)
    ensures !SucceededRow(Apply(s, step), k)
  {
    if step.Finish? { assert StageSound(s, step.r); }
  }

  lemma StepKeepsDoomed(s: State, step: Step, k: Key)
    requires Inv(s) && Enabled(s, step) && Doomed(s, k)
    ensures Doomed(Apply(s, step), k)
  {
    if (k.organization, k.key) in s.events {
      EventsAreKept(s, step, (k.organization, k.key));
      StepKeepsUnsucceeded(s, step, k);
    } else {
      StepKeepsStopped(s, step, k);
    }
  }

  lemma {:induction false} DoomedIsKept(s: State, run: seq<Step>, k: Key)
    requires Inv(s) && Doomed(s, k)
    ensures Doomed(Execute(s, run), k)
  {
    if run != [] {
      var before := Execute(s, run[..|run| - 1]);
      DoomedIsKept(s, run[..|run| - 1], k);
      RunsKeepInv(s, run[..|run| - 1]);
      if Enabled(before, run[|run| - 1]) { StepKeepsDoomed(before, run[|run| - 1], k); }
    }
  }

  /** No request of a doomed key is ever answered. */
  lemma DoomedIsNeverAnswered(s: State, run: seq<Step>, k: Key, r: RequestId)
    requires Inv(s) && Doomed(s, k)
    ensures !Answers(Execute(s, run), r, k)
  {
    DoomedIsKept(s, run, k);
    RunsKeepInv(s, run);
    if Answers(Execute(s, run), r, k) { AnsweredIsSucceeded(Execute(s, run), r, k); }
  }

  /** The row's owner stopped without success: it crashed, or creation failed and was recorded. */
  predicate Abandoned(s: State, k: Key) {
    && k in s.reservations && s.reservations[k].status != Succeeded
    && At(s, s.reservations[k].owner, Rejected)
  }

  /** An abandoned reservation blocks its key for good: no request of that key is ever answered. */
  lemma AbandonedKeyStaysBlocked(before: seq<Step>, after: seq<Step>, k: Key, r: RequestId)
    requires Abandoned(Execute(INITIAL, before), k)
    ensures var t := Execute(Execute(INITIAL, before), after);
            r in t.stages && t.keys[r] == k ==> !t.stages[r].Answered?
  {
    RunsKeepInv(INITIAL, before);
    DoomedIsNeverAnswered(Execute(INITIAL, before), after, k, r);
  }

  // ---------------------------------------------------------------------------------------------
  // Keys that are not doomed
  // ---------------------------------------------------------------------------------------------

  lemma ExecuteOne(s: State, step: Step)
    requires Known(s) && Enabled(s, step)
    ensures Execute(s, [step]) == Apply(s, step)
  {
    assert [step][..0] == [];
  }

  lemma {:induction false} ExecuteConcat(s: State, a: seq<Step>, b: seq<Step>)
    requires Known(s)
    ensures Execute(s, a + b) == Execute(Execute(s, a), b)
  {
    if b == [] {
      assert a + b == a;
    } else {
      assert (a + b)[..|a + b| - 1] == a + b[..|b| - 1];
      ExecuteConcat(s, a, b[..|b| - 1]);
    }
  }

  /** A possible first step, then a run from the state it leads to. */
  lemma ExecuteFirst(s: State, step: Step, rest: seq<Step>)
    requires Known(s) && Enabled(s, step)
    ensures Execute(s, [step] + rest) == Execute(Apply(s, step), rest)
  {
    ExecuteOne(s, step);
    ExecuteConcat(s, [step], rest);
  }

  lemma AnswerFromCreated(s: State, r: RequestId, id: ShipmentId) returns (run: seq<Step>)
    requires Inv(s) && At(s, r, Created(id)) && (s.keys[r].organization, s.keys[r].key) !in s.events
    ensures Answers(Execute(s, run), r, s.keys[r])
  {
    var t := Apply(s, Finish(r));
    ExecuteOne(t, Reply(r));
    run := [Finish(r)] + [Reply(r)];
    ExecuteFirst(s, Finish(r), [Reply(r)]);
  }

  lemma AnswerFromReserved(s: State, r: RequestId) returns (run: seq<Step>)
    requires Inv(s) && At(s, r, Reserved) && (s.keys[r].organization, s.keys[r].key) !in s.events
    ensures Answers(Execute(s, run), r, s.keys[r])
  {
    var id := Unused(s.shipments.Keys);
    StepKeepsInv(s, Create(r, id));
    run := AnswerFromCreated(Apply(s, Create(r, id)), r, id);
    ExecuteFirst(s, Create(r, id), run);
    run := [Create(r, id)] + run;
  }

  lemma AnswerFromNoRow(s: State, r: RequestId) returns (run: seq<Step>)
    requires Inv(s) && At(s, r, SawNoRow) && s.keys[r] !in s.reservations
    requires (s.keys[r].organization, s.keys[r].key) !in s.events
    ensures Answers(Execute(s, run), r, s.keys[r])
  {
    StepKeepsInv(s, Insert(r));
    run := AnswerFromReserved(Apply(s, Insert(r)), r);
    ExecuteFirst(s, Insert(r), run);
    run := [Insert(r)] + run;
  }

  lemma AnswerFromArrival(s: State, r: RequestId) returns (run: seq<Step>)
    requires Inv(s) && At(s, r, Arrived)
    requires SucceededRow(s, s.keys[r]) ||
             (s.keys[r] !in s.reservations && (s.keys[r].organization, s.keys[r].key) !in s.events)
    ensures Answers(Execute(s, run), r, s.keys[r])
  {
    var t := Apply(s, Read(r));
    if s.keys[r] in s.reservations {
      assert RowSound(s, s.keys[r]);
      ExecuteOne(s, Read(r));
      run := [Read(r)];
    } else {
      StepKeepsInv(s, Read(r));
      run := AnswerFromNoRow(t, r);
      ExecuteFirst(s, Read(r), run);
      run := [Read(r)] + run;
    }
  }

  /** A new request is answered when the key has succeeded, or has neither a reservation nor an event. */
  lemma NewRequestIsAnswered(s: State, k: Key) returns (run: seq<Step>, r: RequestId)
    requires Inv(s)
    requires SucceededRow(s, k) || (k !in s.reservations && (k.organization, k.key) !in s.events)
    ensures Answers(Execute(s, run), r, k)
  {
    r := Unused(s.keys.Keys);
    StepKeepsInv(s, Arrive(r, k));
    run := AnswerFromArrival(Apply(s, Arrive(r, k)), r);
    ExecuteFirst(s, Arrive(r, k), run);
    run := [Arrive(r, k)] + run;
  }

  /** The owner of a reservation that is neither succeeded nor stopped has its own part to finish. */
  lemma OwnerIsAnswered(s: State, k: Key) returns (run: seq<Step>, r: RequestId)
    requires Inv(s) && k in s.reservations && !SucceededRow(s, k) && !OwnerStopped(s, k)
    requires (k.organization, k.key) !in s.events
    ensures Answers(Execute(s, run), r, k)
  {
    r := s.reservations[k].owner;
    assert RowSound(s, k) && StageSound(s, r);
    if s.stages[r] == Reserved {
      run := AnswerFromReserved(s, r);
    } else {
      run := AnswerFromCreated(s, r, s.stages[r].shipment);
    }
  }

  lemma NotDoomedIsAnswered(s: State, k: Key) returns (run: seq<Step>, r: RequestId)
    requires Inv(s) && !Doomed(s, k)
    ensures Answers(Execute(s, run), r, k)
  {
    if SucceededRow(s, k) || k !in s.reservations {
      run, r := NewRequestIsAnswered(s, k);
    } else {
      run, r := OwnerIsAnswered(s, k);
    }
  }

  /**
   * In every reachable state, some continuation answers some request of a key exactly when the key
   * is not doomed: it succeeded, or its text is free and the owner of its reservation, if there is
   * one, has not stopped.
   */
  lemma AnswerableIff(before: seq<Step>, k: Key)
    ensures var s := Execute(INITIAL, before);
            (exists run, r :: AnsweredAfter(s, run, r, k)) <==> !Doomed(s, k)
  {
    var s := Execute(INITIAL, before);
    RunsKeepInv(INITIAL, before);
    if Doomed(s, k) {
      forall run, r ensures !AnsweredAfter(s, run, r, k) { DoomedIsNeverAnswered(s, run, k, r); }
    } else {
      var run, r := NotDoomedIsAnswered(s, k);
      assert AnsweredAfter(s, run, r, k);
    }
  }

  // ---------------------------------------------------------------------------------------------
  // Such states are reached
  // ---------------------------------------------------------------------------------------------

  lemma TwoSteps(s: State, a: Step, b: Step)
    requires Known(s) && Enabled(s, a) && Enabled(Apply(s, a), b)
    ensures Execute(s, [a, b]) == Apply(Apply(s, a), b)
  {
    ExecuteOne(Apply(s, a), b);
    ExecuteFirst(s, a, [b]);
    assert [a] + [b] == [a, b];
  }

  lemma RequestSeesNoRow(s: State, r: RequestId, k: Key) returns (run: seq<Step>)
    requires Known(s) && r !in s.keys && k !in s.reservations
    ensures Execute(s, run) == s.(keys := s.keys[r := k], stages := s.stages[r := SawNoRow])
  {
    run := [Arrive(r, k), Read(r)];
    TwoSteps(s, Arrive(r, k), Read(r));
    assert s.stages[r := Arrived][r := SawNoRow] == s.stages[r := SawNoRow];
  }

  /** A request that saw no row inserts it and commits a shipment. */
  lemma InsertAndCreate(s: State, r: RequestId, id: ShipmentId) returns (run: seq<Step>)
    requires Known(s) && At(s, r, SawNoRow) && s.keys[r] !in s.reservations && id !in s.shipments
    ensures var t := Execute(s, run);
            && At(t, r, Created(id)) && t.keys == s.keys && t.events == s.events
            && t.shipments == s.shipments[id := r]
            && t.reservations == s.reservations[s.keys[r] := Reservation(r, Processing, None)]
  {
    run := [Insert(r), Create(r, id)];
    TwoSteps(s, Insert(r), Create(r, id));
  }

  /** A request of a key without reservation commits a shipment, whatever happened before. */
  lemma RequestCreates(s: State, r: RequestId, k: Key, id: ShipmentId) returns (run: seq<Step>)
    requires Known(s) && r !in s.keys && k !in s.reservations && id !in s.shipments
    ensures var t := Execute(s, run);
            && At(t, r, Created(id)) && t.keys == s.keys[r := k]
            && t.events == s.events && t.shipments == s.shipments[id := r]
            && t.reservations == s.reservations[k := Reservation(r, Processing, None)]
  {
    var first := RequestSeesNoRow(s, r, k);
    var second := InsertAndCreate(Execute(s, first), r, id);
    ExecuteConcat(s, first, second);
    run := first + second;
  }

  /** A run in which the first of two accounts succeeds with a key text. */
  lemma FirstAccountSucceeds(k: Key) returns (run: seq<Step>)
    ensures var s := Execute(INITIAL, run);
            && Inv(s) && HasAnswer(s, k, 0) && s.keys.Keys == {0} && s.shipments == map[0 := 0]
            && s.reservations.Keys == {k} && (k.organization, k.key) in s.events
  {
    run := RequestCreates(INITIAL, 0, k, 0);
    var s := Execute(INITIAL, run);
    ExecuteOne(s, Finish(0));
    ExecuteConcat(INITIAL, run, [Finish(0)]);
    run := run + [Finish(0)];
    RunsKeepInv(INITIAL, run);
  }

  /**
   * The second account with the same key text commits its shipment too, but the shipment is never
   * announced: the request is turned away, and its key is doomed.
   */
  lemma SecondAccountIsTurnedAway(j: Key, k: Key) returns (run: seq<Step>)
    requires j != k && j.organization == k.organization && j.key == k.key
    ensures var s := Execute(INITIAL, run);
            && HasAnswer(s, j, 0)
            && 1 in s.keys && s.keys[1] == k && At(s, 1, Rejected)
            && 1 in s.shipments && s.shipments[1] == 1
            && Doomed(s, k)
  {
    run := FirstAccountSucceeds(j);
    var s := Execute(INITIAL, run);
    var more := RequestCreates(s, 1, k, 1);
    ExecuteConcat(INITIAL, run, more);
    run := run + more;
    var t := Execute(INITIAL, run);
    ExecuteOne(t, Finish(1));
    ExecuteConcat(INITIAL, run, [Finish(1)]);
    run := run + [Finish(1)];
  }

  /** A crash after the reservation abandons the key, and after the creation it leaves a shipment behind. */
  lemma CrashAbandons(k: Key) returns (run: seq<Step>)
    ensures var s := Execute(INITIAL, run); Abandoned(s, k) && Doomed(s, k) && 0 in s.shipments
  {
    run := RequestCreates(INITIAL, 0, k, 0);
    var s := Execute(INITIAL, run);
    ExecuteOne(s, Crash(0));
    ExecuteConcat(INITIAL, run, [Crash(0)]);
    run := run + [Crash(0)];
  }

  // ---------------------------------------------------------------------------------------------
  // A request that is alone and meets no failure
  // ---------------------------------------------------------------------------------------------

  /** A step of the request that is neither a failure nor a crash. */
  predicate Smooth(step: Step, r: RequestId, k: Key) {
    && step.r == r && (step.Arrive? ==> step.key == k)
    && !step.CreateFails? && !step.CreateCommitsThenRaises? && !step.MarkFailed? && !step.Crash?
  }

  /** Steps of a run that took effect. */
  function Effective(s: State, run: seq<Step>): nat
    requires Known(s)
  {
    if run == [] then 0
    else
      var before := run[..|run| - 1];
      Effective(s, before) + if Enabled(Execute(s, before), run[|run| - 1]) then 1 else 0
  }

  /** How far a lone request has come: nothing is in its way. */
  predicate OnItsWay(s: State, r: RequestId, k: Key, done: nat) {
    && Known(s) && s.keys.Keys <= {r} && s.reservations.Keys <= {k} && (r in s.keys ==> s.keys[r] == k)
    && match done
       case 0 => r !in s.stages && k !in s.reservations && s.events == map[]
       case 1 => At(s, r, Arrived) && k !in s.reservations && s.events == map[]
       case 2 => At(s, r, SawNoRow) && k !in s.reservations && s.events == map[]
       case 3 => At(s, r, Reserved) && k in s.reservations && s.events == map[]
       case 4 => r in s.stages && s.stages[r].Created? && s.events == map[]
       case 5 => r in s.stages && s.stages[r].Committed?
       case 6 => Answers(s, r, k)
       case _ => false
  }

  lemma SmoothStep(s: State, step: Step, r: RequestId, k: Key, done: nat)
    requires OnItsWay(s, r, k, done) && Smooth(step, r, k) && Enabled(s, step)
    ensures done < 6 && OnItsWay(Apply(s, step), r, k, done + 1)
  {
  }

  lemma NextSmoothStep(s: State, r: RequestId, k: Key, done: nat) returns (step: Step)
    requires OnItsWay(s, r, k, done) && done < 6
    ensures Smooth(step, r, k) && Enabled(s, step)
  {
    var id := Unused(s.shipments.Keys);
    step := match done
      case 0 => Arrive(r, k)
      case 1 => Read(r)
      case 2 => Insert(r)
      case 3 => Create(r, id)
      case 4 => Finish(r)
      case _ => Reply(r);
  }

  lemma {:induction false} SmoothRun(r: RequestId, k: Key, run: seq<Step>)
    requires forall step :: step in run ==> Smooth(step, r, k)
    ensures OnItsWay(Execute(INITIAL, run), r, k, Effective(INITIAL, run))
  {
    if run != [] {
      var before := run[..|run| - 1];
      SmoothRun(r, k, before);
      assert run[|run| - 1] in run;
      if Enabled(Execute(INITIAL, before), run[|run| - 1]) {
        SmoothStep(Execute(INITIAL, before), run[|run| - 1], r, k, Effective(INITIAL, before));
      }
    }
  }

  /**
   * Every run of a lone request without failure or crash answers it, with its committed shipment,
   * exactly when six of its steps took effect; until then it can always take another one.
   */
  lemma LoneRequestIsAnswered(r: RequestId, k: Key, run: seq<Step>)
    requires forall step :: step in run ==> Smooth(step, r, k)
    ensures var s := Execute(INITIAL, run);
            && Effective(INITIAL, run) <= 6
            && (Answers(s, r, k) <==> Effective(INITIAL, run) == 6)
            && (Answers(s, r, k) ==> s.stages[r].answer in s.shipments && s.shipments[s.stages[r].answer] == r)
            && (!Answers(s, r, k) ==> exists step :: Smooth(step, r, k) && Enabled(s, step))
  {
    var s := Execute(INITIAL, run);
    SmoothRun(r, k, run);
    RunsKeepInv(INITIAL, run);
    if Effective(INITIAL, run) < 6 {
      var step := NextSmoothStep(s, r, k, Effective(INITIAL, run));
    } else {
      assert StageSound(s, r) && RowSound(s, k);
      assert s.reservations[k].owner in s.keys;
    }
  }
}
