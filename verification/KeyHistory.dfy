/** What the committed rows of the partner endpoint tell of the run that wrote them. */
module KeyHistory {
  import opened Wrappers
  import opened Idempotency
  import opened KeyFate

  /** The step was taken in the run, and took effect. */
  predicate Took(run: seq<Step>, step: Step) {
    run != [] &&
    var before, last := run[..|run| - 1], run[|run| - 1];
    Took(before, step) || (last == step && Enabled(Execute(INITIAL, before), step))
  }

  lemma RejectedStays(s: State, step: Step, r: RequestId)
    requires Known(s) && Enabled(s, step) && At(s, r, Rejected)
    ensures At(Apply(s, step), r, Rejected)
  {
  }

  /** Whoever recorded a failure has replied. */
  lemma {:induction false} RecordingIsLast(run: seq<Step>, r: RequestId)
    requires Took(run, MarkFailed(r))
    ensures At(Execute(INITIAL, run), r, Rejected)
  {
    var before, last := run[..|run| - 1], run[|run| - 1];
    if Took(before, MarkFailed(r)) {
      RecordingIsLast(before, r);
      if Enabled(Execute(INITIAL, before), last) { RejectedStays(Execute(INITIAL, before), last, r); }
    }
  }

  /** A step records a failure on a row only as its owner. */
  lemma FailedByStep(s: State, step: Step, k: Key)
    requires Inv(s) && Enabled(s, step) && k in s.reservations
    ensures var t := Apply(s, step);
            && k in t.reservations && t.reservations[k].owner == s.reservations[k].owner
            && (t.reservations[k].status == Failed <==>
                 s.reservations[k].status == Failed || step == MarkFailed(s.reservations[k].owner))
  {
    assert RowSound(s, k);
    if step.r != s.reservations[k].owner {
      OthersLeaveRow(s, step, k);
    } else if step.MarkFailed? || step.Finish? {
      assert StageSound(s, step.r);
    }
  }

  /** A reservation is inserted as processing, by a request that saw none. */
  lemma InsertedByStep(s: State, step: Step, k: Key)
    requires Inv(s) && Enabled(s, step) && k !in s.reservations
    ensures k in Apply(s, step).reservations ==>
              && step.Insert? && At(s, step.r, SawNoRow)
              && Apply(s, step).reservations[k] == Reservation(step.r, Processing, None)
  {
    assert step.Finish? || step.MarkFailed? ==> StageSound(s, step.r);
  }

  /**
   * After every run a reservation is FAILED exactly when its owner recorded a failure. An owner
   * that crashed instead, before or after its shipment was committed, leaves it PROCESSING.
   */
  lemma {:induction false} FailedIff(run: seq<Step>, k: Key)
    requires k in Execute(INITIAL, run).reservations
    ensures var row := Execute(INITIAL, run).reservations[k];
            row.status == Failed <==> Took(run, MarkFailed(row.owner))
  {
    var before, last := run[..|run| - 1], run[|run| - 1];
    var s := Execute(INITIAL, before);
    RunsKeepInv(INITIAL, before);
    if k in s.reservations {
      FailedIff(before, k);
      if Enabled(s, last) { FailedByStep(s, last, k); }
    } else {
      InsertedByStep(s, last, k);
      if Took(before, MarkFailed(last.r)) { RecordingIsLast(before, last.r); }
    }
  }

  /** The request's creation committed this shipment, whether or not it then raised. */
  predicate TookCreation(run: seq<Step>, r: RequestId, id: ShipmentId) {
    Took(run, Create(r, id)) || Took(run, CreateCommitsThenRaises(r, id))
  }

  lemma CommittedByStep(s: State, step: Step, r: RequestId, id: ShipmentId)
    requires Known(s) && Enabled(s, step)
    ensures var t := Apply(s, step);
            id in t.shipments && t.shipments[id] == r <==>
            || (id in s.shipments && s.shipments[id] == r)
            || step == Create(r, id) || step == CreateCommitsThenRaises(r, id)
  {
  }

  /** After every run the committed shipments are exactly those whose creation took effect, each by its request. */
  lemma {:induction false} CommittedIff(run: seq<Step>, r: RequestId, id: ShipmentId)
    ensures var s := Execute(INITIAL, run);
            id in s.shipments && s.shipments[id] == r <==> TookCreation(run, r, id)
  {
    if run != [] {
      var before := run[..|run| - 1];
      CommittedIff(before, r, id);
      if Enabled(Execute(INITIAL, before), run[|run| - 1]) {
        CommittedByStep(Execute(INITIAL, before), run[|run| - 1], r, id);
      }
    }
  }

  /**
   * In every reachable state a request that meets a reservation, by its first query or by the
   * unique constraint, is answered with the committed shipment of the reservation's owner exactly
   * when the reservation succeeded, and turned away otherwise; no row changes either way.
   */
  lemma MetReservation(run: seq<Step>, r: RequestId, step: Step)
    requires (step == Read(r) || step == Insert(r)) && Enabled(Execute(INITIAL, run), step)
    ensures var s := Execute(INITIAL, run);
            var k := s.keys[r];
            k in s.reservations ==>
              var row := s.reservations[k];
              && (row.status == Succeeded ==>
                   && row.response.Some? && row.response.value in s.shipments
                   && s.shipments[row.response.value] == row.owner)
              && Apply(s, step) == s.(stages := s.stages[r :=
                   if row.status == Succeeded then Answered(row.response.value) else Rejected])
  {
    var s := Execute(INITIAL, run);
    RunsKeepInv(INITIAL, run);
    if s.keys[r] in s.reservations { assert RowSound(s, s.keys[r]); }
  }
}
