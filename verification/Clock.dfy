/** Calls to the rate limiters. */
module Clock {

  /** A call and the monotonic clock reading it was judged at. */
  datatype Call = Call(key: string, now: real)

  predicate Ordered(calls: seq<Call>) {
    forall i, j :: 0 <= i < j < |calls| ==> calls[i].now <= calls[j].now
  }

  /** The clock reading does not go back behind the last call. */
  predicate InOrder(calls: seq<Call>, now: real) {
    calls != [] ==> calls[|calls| - 1].now <= now
  }

  lemma OrderedAppend(calls: seq<Call>, c: Call)
    ensures Ordered(calls + [c]) <==> Ordered(calls) && InOrder(calls, c.now)
  {
    var all := calls + [c];
    assert all[..|calls|] == calls && all[|calls|] == c;
    assert forall i :: 0 <= i < |calls| ==> all[i] == calls[i];
  }
}
