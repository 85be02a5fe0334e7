/**
 * The idempotency-key protocol of the partner shipment endpoint. A request runs several separate
 * transactions; requests interleave at transaction boundaries and may crash between them.
 */
module Idempotency {
  import opened Wrappers

  type RequestId = nat
  type ShipmentId = nat

  /** The scope of the unique constraint on reservations. */
  datatype Key = Key(organization: string, account: string, key: string)

  datatype RowStatus = Processing | Succeeded | Failed

  /** A reservation row; its id is the request that inserted it. */
  datatype Reservation = Reservation(owner: RequestId, status: RowStatus, response: Option<ShipmentId>)

  /** Where a request stands between two transactions. */
  datatype Stage =
    | Arrived                          // nothing done yet
    | SawNoRow                         // read no reservation, its insert not committed
    | Reserved                         // its own reservation is committed
    | CreationFailed                   // creating the shipment raised
    | Created(shipment: ShipmentId)    // the shipment is committed
    | Committed(shipment: ShipmentId)  // the reservation is marked succeeded
    | Answered(answer: ShipmentId)     // replied with a shipment
    | Rejected                         // replied with an error, or crashed

  datatype State = State(
    keys: map<RequestId, Key>,
    stages: map<RequestId, Stage>,
    reservations: map<Key, Reservation>,
    // committed shipments and the request that committed each
    shipments: map<ShipmentId, RequestId>,
    // (organization, key) of committed acceptance events, with the shipment each names
    events: map<(string, string), ShipmentId>)

  datatype Step =
    | Arrive(r: RequestId, key: Key)
    | Read(r: RequestId)
    | Insert(r: RequestId)
    | Create(r: RequestId, id: ShipmentId)      // the shipment commits
    | CreateFails(r: RequestId)                 // nothing commits
    | CreateCommitsThenRaises(r: RequestId, id: ShipmentId)
    | MarkFailed(r: RequestId)
    | Finish(r: RequestId)
    | Reply(r: RequestId)
    | Crash(r: RequestId)

  const INITIAL := State(map[], map[], map[], map[], map[])

  predicate At(s: State, r: RequestId, stage: Stage) {
    r in s.stages && s.stages[r] == stage
  }

  /** Steps that are possible in a state. Fresh request and shipment identifiers are new. */
  predicate Enabled(s: State, step: Step) {
    match step
    case Arrive(r, _) => r !in s.stages && r !in s.keys
    case Read(r) => At(s, r, Arrived)
    case Insert(r) => At(s, r, SawNoRow)
    case Create(r, id) => At(s, r, Reserved) && id !in s.shipments
    case CreateFails(r) => At(s, r, Reserved)
    case CreateCommitsThenRaises(r, id) => At(s, r, Reserved) && id !in s.shipments
    case MarkFailed(r) => At(s, r, CreationFailed)
    case Finish(r) => r in s.stages && s.stages[r].Created?
    case Reply(r) => r in s.stages && s.stages[r].Committed?
    case Crash(r) => r in s.stages && !s.stages[r].Answered? && !s.stages[r].Rejected?
  }

  predicate Known(s: State) {
    s.keys.Keys == s.stages.Keys
  }

  /** What a request does when it finds a reservation that is not its own. */
  function Replay(row: Reservation): Stage {
    if row.status == Succeeded && row.response.Some? then Answered(row.response.value) else Rejected
  }

  /** Update the row a request inserted, if it is there. */
  function WithStatus(rows: map<Key, Reservation>, k: Key, owner: RequestId, status: RowStatus,
      response: Option<ShipmentId>)
      : map<Key, Reservation>
  {
    if k in rows && rows[k].owner == owner
    then rows[k := Reservation(owner, status, if response.Some? then response else rows[k].response)]
    else rows
  }

  function Apply(s: State, step: Step): (t: State)
    requires Known(s) && Enabled(s, step)
    ensures Known(t)
  {
    match step
    case Arrive(r, key) => s.(keys := s.keys[r := key], stages := s.stages[r := Arrived])
    case Read(r) =>
      var k := s.keys[r];
      s.(stages := s.stages[r := if k in s.reservations then Replay(s.reservations[k]) else SawNoRow])
    case Insert(r) =>
      var k := s.keys[r];
      // the unique constraint lets one insert of a key commit; the others roll back and read again
      if k in s.reservations then s.(stages := s.stages[r := Replay(s.reservations[k])])
      else s.(reservations := s.reservations[k := Reservation(r, Processing, None)], stages := s.stages[r := Reserved])
    case Create(r, id) => s.(shipments := s.shipments[id := r], stages := s.stages[r := Created(id)])
    case CreateFails(r) => s.(stages := s.stages[r := CreationFailed])
    case CreateCommitsThenRaises(r, id) =>
      s.(shipments := s.shipments[id := r], stages := s.stages[r := CreationFailed])
    case MarkFailed(r) =>
      s.(reservations := WithStatus(s.reservations, s.keys[r], r, Failed, None), stages := s.stages[r := Rejected])
    case Finish(r) =>
      var k, id := s.keys[r], s.stages[r].shipment;
      // the acceptance event is unique per organization and key, whatever the account
      if (k.organization, k.key) in s.events then s.(stages := s.stages[r := Rejected])
      else s.(events := s.events[(k.organization, k.key) := id],
              reservations := WithStatus(s.reservations, k, r, Succeeded, Some(id)),
              stages := s.stages[r := Committed(id)])
    case Reply(r) => s.(stages := s.stages[r := Answered(s.stages[r].shipment)])
    case Crash(r) => s.(stages := s.stages[r := Rejected])
  }

  /** A run takes each step only where it is possible; any other step changes nothing. */
  function Execute(s: State, run: seq<Step>): (t: State)
    requires Known(s)
    ensures Known(t)
  {
    if run == [] then s
    else
      var before := Execute(s, run[..|run| - 1]);
      if Enabled(before, run[|run| - 1]) then Apply(before, run[|run| - 1]) else before
  }

  // ---------------------------------------------------------------------------------------------
  // Invariant
  // ---------------------------------------------------------------------------------------------

  predicate Owns(s: State, r: RequestId) {
    r in s.keys && s.keys[r] in s.reservations && s.reservations[s.keys[r]].owner == r
  }

  predicate HasAnswer(s: State, k: Key, id: ShipmentId) {
    k in s.reservations && s.reservations[k].status == Succeeded && s.reservations[k].response == Some(id)
  }

  /** A request past the reservation owns the row of its key; the row says how far it got. */
  predicate StageSound(s: State, r: RequestId)
    requires r in s.keys && r in s.stages
  {
    match s.stages[r]
    case Arrived => !Owns(s, r)
    case SawNoRow => !Owns(s, r)
    case Reserved => Owns(s, r) && s.reservations[s.keys[r]].status == Processing
    case CreationFailed => Owns(s, r) && s.reservations[s.keys[r]].status == Processing
    case Created(id) =>
      && Owns(s, r) && s.reservations[s.keys[r]].status == Processing
      && id in s.shipments && s.shipments[id] == r
    case Committed(id) => HasAnswer(s, s.keys[r], id)
    case Answered(id) => HasAnswer(s, s.keys[r], id)
    case Rejected => true
  }

  predicate RowSound(s: State, k: Key)
    requires k in s.reservations
  {
    var row := s.reservations[k];
    && row.owner in s.keys && s.keys[row.owner] == k
    && (row.response.Some? <==> row.status == Succeeded)
    && (row.status == Succeeded ==>
          && row.response.value in s.shipments && s.shipments[row.response.value] == row.owner
          && (k.organization, k.key) in s.events && s.events[(k.organization, k.key)] == row.response.value)
  }

  /** Every shipment was committed by the owner of a reservation, which commits once. */
  predicate ShipmentSound(s: State, id: ShipmentId)
    requires id in s.shipments
  {
    var r := s.shipments[id];
    r in s.stages && Owns(s, r) && s.stages[r] !in {Arrived, SawNoRow, Reserved}
  }

  predicate CommitsOnce(s: State) {
    forall a, b :: a in s.shipments && b in s.shipments && s.shipments[a] == s.shipments[b] ==> a == b
  }

  predicate Inv(s: State) {
    && Known(s)
    && (forall r :: r in s.stages ==> StageSound(s, r))
    && (forall k :: k in s.reservations ==> RowSound(s, k))
    && (forall id :: id in s.shipments ==> ShipmentSound(s, id))
    && CommitsOnce(s)
  }

  /** Steps that only move a request between stages. */
  lemma MoveKeepsInv(s: State, r: RequestId, stage: Stage)
    requires Inv(s) && r in s.stages
    requires StageSound(s.(stages := s.stages[r := stage]), r)
    requires s.stages[r] in {Arrived, SawNoRow, Reserved} || stage !in {Arrived, SawNoRow, Reserved}
    ensures Inv(s.(stages := s.stages[r := stage]))
  {
    var t := s.(stages := s.stages[r := stage]);
    forall q | q in t.stages ensures StageSound(t, q) { assert StageSound(s, q); }
    forall k | k in t.reservations ensures RowSound(t, k) { assert RowSound(s, k); }
    forall id | id in t.shipments ensures ShipmentSound(t, id) { assert ShipmentSound(s, id); }
  }

  lemma ArriveKeepsInv(s: State, r: RequestId, key: Key)
    requires Inv(s) && Enabled(s, Arrive(r, key))
    ensures Inv(Apply(s, Arrive(r, key)))
  {
    var t := Apply(s, Arrive(r, key));
    assert !Owns(t, r) by { if key in s.reservations { assert RowSound(s, key); } }
    forall q | q in t.stages ensures StageSound(t, q) { if q != r { assert StageSound(s, q); } }
    forall k | k in t.reservations ensures RowSound(t, k) { assert RowSound(s, k); }
    forall id | id in t.shipments ensures ShipmentSound(t, id) { assert ShipmentSound(s, id); }
  }

  lemma InsertKeepsInv(s: State, r: RequestId)
    requires Inv(s) && Enabled(s, Insert(r)) && s.keys[r] !in s.reservations
    ensures Inv(Apply(s, Insert(r)))
  {
    var t := Apply(s, Insert(r));
    forall q | q in t.stages ensures StageSound(t, q) { assert StageSound(s, q); }
    forall k | k in t.reservations ensures RowSound(t, k) { if k != s.keys[r] { assert RowSound(s, k); } }
    forall id | id in t.shipments ensures ShipmentSound(t, id) { assert ShipmentSound(s, id); }
  }

  /** A request that only holds its reservation has committed no shipment yet. */
  lemma FirstShipment(s: State, r: RequestId, id: ShipmentId)
    requires Inv(s) && At(s, r, Reserved) && id !in s.shipments
    ensures CommitsOnce(s.(shipments := s.shipments[id := r]))
  {
    forall i | i in s.shipments ensures s.shipments[i] != r { assert ShipmentSound(s, i); }
  }

  lemma CreateKeepsInv(s: State, r: RequestId, id: ShipmentId, stage: Stage)
    requires Inv(s) && At(s, r, Reserved) && id !in s.shipments
    requires stage == Created(id) || stage == CreationFailed
    ensures Inv(s.(shipments := s.shipments[id := r], stages := s.stages[r := stage]))
  {
    var t := s.(shipments := s.shipments[id := r], stages := s.stages[r := stage]);
    FirstShipment(s, r, id);
    assert StageSound(s, r);
    forall q | q in t.stages ensures StageSound(t, q) { assert StageSound(s, q); }
    forall k | k in t.reservations ensures RowSound(t, k) { assert RowSound(s, k); }
    forall i | i in t.shipments ensures ShipmentSound(t, i) { if i != id { assert ShipmentSound(s, i); } }
  }

  lemma MarkFailedKeepsInv(s: State, r: RequestId)
    requires Inv(s) && Enabled(s, MarkFailed(r))
    ensures Inv(Apply(s, MarkFailed(r)))
  {
    var t := Apply(s, MarkFailed(r));
    assert StageSound(s, r);
    assert RowSound(s, s.keys[r]);
    forall q | q in t.stages ensures StageSound(t, q) { assert StageSound(s, q); }
    forall k | k in t.reservations ensures RowSound(t, k) { assert RowSound(s, k); }
    forall id | id in t.shipments ensures ShipmentSound(t, id) { assert ShipmentSound(s, id); }
  }

  lemma FinishKeepsInv(s: State, r: RequestId)
    requires Inv(s) && Enabled(s, Finish(r))
    requires (s.keys[r].organization, s.keys[r].key) !in s.events
    ensures Inv(Apply(s, Finish(r)))
  {
    var t := Apply(s, Finish(r));
    assert StageSound(s, r);
    assert RowSound(s, s.keys[r]);
    forall q | q in t.stages ensures StageSound(t, q) { assert StageSound(s, q); }
    forall k | k in t.reservations ensures RowSound(t, k) { assert RowSound(s, k); }
    forall id | id in t.shipments ensures ShipmentSound(t, id) { assert ShipmentSound(s, id); }
  }

  lemma StepKeepsInv(s: State, step: Step)
    requires Inv(s) && Enabled(s, step)
    ensures Inv(Apply(s, step))
  {
    match step
    case Arrive(r, key) => ArriveKeepsInv(s, r, key);
    case Read(r) =>
      assert StageSound(s, r);
      if s.keys[r] in s.reservations {
        MoveKeepsInv(s, r, Replay(s.reservations[s.keys[r]]));
      } else {
        MoveKeepsInv(s, r, SawNoRow);
      }
    case Insert(r) =>
      if s.keys[r] in s.reservations {
        MoveKeepsInv(s, r, Replay(s.reservations[s.keys[r]]));
      } else {
        InsertKeepsInv(s, r);
      }
    case Create(r, id) => CreateKeepsInv(s, r, id, Created(id));
    case CreateFails(r) => assert StageSound(s, r); MoveKeepsInv(s, r, CreationFailed);
    case CreateCommitsThenRaises(r, id) => CreateKeepsInv(s, r, id, CreationFailed);
    case MarkFailed(r) => MarkFailedKeepsInv(s, r);
    case Finish(r) =>
      if (s.keys[r].organization, s.keys[r].key) in s.events {
        MoveKeepsInv(s, r, Rejected);
      } else {
        FinishKeepsInv(s, r);
      }
    case Reply(r) => assert StageSound(s, r); MoveKeepsInv(s, r, Answered(s.stages[r].shipment));
    case Crash(r) => MoveKeepsInv(s, r, Rejected);
  }

  lemma {:induction false} RunsKeepInv(s: State, run: seq<Step>)
    requires Inv(s)
    ensures Inv(Execute(s, run))
  {
    if run != [] {
      RunsKeepInv(s, run[..|run| - 1]);
      var before := Execute(s, run[..|run| - 1]);
      if Enabled(before, run[|run| - 1]) { StepKeepsInv(before, run[|run| - 1]); }
    }
  }

  // ---------------------------------------------------------------------------------------------
  // What every interleaving guarantees
  // ---------------------------------------------------------------------------------------------

  /** Each key leads to at most one committed shipment. */
  lemma AtMostOneShipmentPerKey(run: seq<Step>, a: ShipmentId, b: ShipmentId)
    requires var s := Execute(INITIAL, run); a in s.shipments && b in s.shipments
    ensures var s := Execute(INITIAL, run);
            && s.shipments[a] in s.keys && s.shipments[b] in s.keys
            && (s.keys[s.shipments[a]] == s.keys[s.shipments[b]] ==> a == b)
  {
    var s := Execute(INITIAL, run);
    RunsKeepInv(INITIAL, run);
    assert ShipmentSound(s, a) && ShipmentSound(s, b);
  }

  /** All requests of one key that are answered with a shipment name the same, committed, shipment. */
  lemma AnswersAgree(run: seq<Step>, r: RequestId, q: RequestId)
    requires var s := Execute(INITIAL, run);
             r in s.stages && q in s.stages && s.stages[r].Answered? && s.stages[q].Answered? && s.keys[r] == s.keys[q]
    ensures var s := Execute(INITIAL, run);
            && s.stages[r].answer == s.stages[q].answer
            && s.stages[r].answer in s.shipments && s.shipments[s.stages[r].answer] in s.keys
            && s.keys[s.shipments[s.stages[r].answer]] == s.keys[r]
  {
    var s := Execute(INITIAL, run);
    RunsKeepInv(INITIAL, run);
    assert StageSound(s, r) && StageSound(s, q);
    assert RowSound(s, s.keys[r]);
  }

  lemma StepKeepsAnswer(s: State, step: Step, k: Key, id: ShipmentId)
    requires Inv(s) && Enabled(s, step) && HasAnswer(s, k, id)
    ensures var t := Apply(s, step); k in t.reservations && t.reservations[k] == s.reservations[k]
  {
    assert RowSound(s, k);
    match step
    case MarkFailed(r) => assert StageSound(s, r);
    case Finish(r) => assert StageSound(s, r);
    case _ =>
  }

  lemma {:induction false} AnswerIsKept(s: State, run: seq<Step>, k: Key, id: ShipmentId)
    requires Inv(s) && HasAnswer(s, k, id)
    ensures var t := Execute(s, run); k in t.reservations && t.reservations[k] == s.reservations[k]
  {
    if run != [] {
      AnswerIsKept(s, run[..|run| - 1], k, id);
      RunsKeepInv(s, run[..|run| - 1]);
      var before := Execute(s, run[..|run| - 1]);
      if Enabled(before, run[|run| - 1]) { StepKeepsAnswer(before, run[|run| - 1], k, id); }
    }
  }

  /** A succeeded reservation never changes. */
  lemma SucceededIsFinal(before: seq<Step>, after: seq<Step>, k: Key, id: ShipmentId)
    requires HasAnswer(Execute(INITIAL, before), k, id)
    ensures var s := Execute(INITIAL, before);
            var t := Execute(s, after);
            k in t.reservations && t.reservations[k] == s.reservations[k]
  {
    RunsKeepInv(INITIAL, before);
    AnswerIsKept(Execute(INITIAL, before), after, k, id);
  }
}
