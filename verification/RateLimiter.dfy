/** The per-client sliding-window limiter in front of the API. */
module RateLimiter {
  import opened Clock

  /** The times that lie in the closed window of the given length that ends at `end`. */
  function Within(times: seq<real>, window: real, end: real): seq<real> {
    if times == [] then []
    else
      var last := times[|times| - 1];
      Within(times[..|times| - 1], window, end) + if end - window <= last <= end then [last] else []
  }

  /** Which of the times lie in that window. */
  function InWindow(times: seq<real>, window: real, end: real): set<nat> {
    set i: nat | i < |times| && end - window <= times[i] && times[i] <= end
  }

  lemma {:induction false} WithinCounts(times: seq<real>, window: real, end: real)
    ensures |Within(times, window, end)| == |InWindow(times, window, end)|
  {
    if times == [] {
      assert InWindow(times, window, end) == {};
    } else {
      var last := |times| - 1;
      WithinCounts(times[..last], window, end);
      assert InWindow(times, window, end) ==
             InWindow(times[..last], window, end) + if end - window <= times[last] <= end then {last} else {};
    }
  }

  predicate Nondecreasing(times: seq<real>) {
    forall i, j :: 0 <= i < j < |times| ==> times[i] <= times[j]
  }

  predicate Bounded(times: seq<real>, end: real) {
    forall i :: 0 <= i < |times| ==> times[i] <= end
  }

  /**
   * The times at which calls for `key` are admitted: a call is admitted when fewer than `limit`
   * admissions lie in the closed window that ends with it.
   */
  function Admitted(limit: nat, window: real, calls: seq<Call>, key: string): seq<real> {
    if calls == [] then []
    else
      var c := calls[|calls| - 1];
      var before := Admitted(limit, window, calls[..|calls| - 1], key);
      if c.key == key && |Within(before, window, c.now)| < limit then before + [c.now] else before
  }

  function LastNow(calls: seq<Call>, key: string): real {
    if calls == [] then 0.0
    else if calls[|calls| - 1].key == key then calls[|calls| - 1].now
    else LastNow(calls[..|calls| - 1], key)
  }

  /** The admissions for `key` in the closed window that ends at the last call for it. */
  function CurrentWindow(limit: nat, window: real, calls: seq<Call>, key: string): seq<real> {
    Within(Admitted(limit, window, calls, key), window, LastNow(calls, key))
  }

  lemma {:induction false} AdmittedOrdered(limit: nat, window: real, calls: seq<Call>, key: string)
    requires Ordered(calls)
    ensures Nondecreasing(Admitted(limit, window, calls, key))
    ensures Bounded(Admitted(limit, window, calls, key), LastNow(calls, key))
    ensures Admitted(limit, window, calls, key) != [] ==> calls != [] && LastNow(calls, key) <= calls[|calls| - 1].now
  {
    if calls != [] {
      AdmittedOrdered(limit, window, calls[..|calls| - 1], key);
    }
  }

  lemma AdmittedStep(limit: nat, window: real, calls: seq<Call>, c: Call, key: string)
    ensures var before := Admitted(limit, window, calls, key);
            Admitted(limit, window, calls + [c], key) ==
            if c.key == key && |Within(before, window, c.now)| < limit then before + [c.now] else before
    ensures LastNow(calls + [c], key) == if c.key == key then c.now else LastNow(calls, key)
  {
    var all := calls + [c];
    assert all[..|all| - 1] == calls && all[|all| - 1] == c;
  }

  lemma WithinStep(times: seq<real>, x: real, window: real, end: real)
    ensures Within(times + [x], window, end) ==
            Within(times, window, end) + if end - window <= x <= end then [x] else []
  {
    var all := times + [x];
    assert all[..|all| - 1] == times && all[|all| - 1] == x;
  }

  lemma {:induction false} WithinFront(times: seq<real>, window: real, end: real)
    requires times != []
    ensures Within(times, window, end) ==
            (if end - window <= times[0] <= end then [times[0]] else []) + Within(times[1..], window, end)
  {
    var rest, last := times[..|times| - 1], times[|times| - 1];
    if rest == [] {
      assert times[1..] == [];
    } else {
      WithinFront(rest, window, end);
      WithinStep(rest[1..], last, window, end);
      var front := if end - window <= times[0] <= end then [times[0]] else [];
      var back := if end - window <= last <= end then [last] else [];
      assert times[1..] == rest[1..] + [last];
      assert (front + Within(rest[1..], window, end)) + back == front + (Within(rest[1..], window, end) + back);
    }
  }

  lemma {:induction false} WithinAll(times: seq<real>, window: real, end: real)
    requires Bounded(times, end) && forall i :: 0 <= i < |times| ==> end - window <= times[i]
    ensures Within(times, window, end) == times
  {
    if times != [] {
      WithinAll(times[..|times| - 1], window, end);
      assert times == times[..|times| - 1] + [times[|times| - 1]];
    }
  }

  /** A later window can be cut from an earlier one. */
  lemma {:induction false} WithinTwice(times: seq<real>, window: real, early: real, late: real)
    requires early <= late && Bounded(times, early)
    ensures Within(Within(times, window, early), window, late) == Within(times, window, late)
  {
    if times != [] {
      var rest, last := times[..|times| - 1], times[|times| - 1];
      WithinTwice(rest, window, early, late);
      WithinStep(Within(rest, window, early), last, window, late);
      assert early - window > last ==> Within(times, window, early) == Within(rest, window, early);
    }
  }

  lemma {:induction false} WithinOrdered(times: seq<real>, window: real, end: real)
    requires Nondecreasing(times)
    ensures Nondecreasing(Within(times, window, end)) && Bounded(Within(times, window, end), end)
    ensures forall x :: x in Within(times, window, end) ==> x in times
  {
    if times != [] {
      var rest, last := times[..|times| - 1], times[|times| - 1];
      WithinOrdered(rest, window, end);
      var kept := Within(rest, window, end);
      forall i | 0 <= i < |kept| ensures kept[i] <= last { assert kept[i] in kept; }
      assert forall x :: x in rest ==> x in times;
    }
  }

  /** No window holds more of a history than the window of the same length that ends after all of it, or before. */
  lemma {:induction false} WithinShrinks(times: seq<real>, window: real, end: real, now: real)
    requires now <= end && Bounded(times, now)
    ensures |Within(times, window, end)| <= |Within(times, window, now)|
  {
    if times != [] { WithinShrinks(times[..|times| - 1], window, end, now); }
  }

  lemma {:induction false} WindowBounded(limit: nat, window: real, calls: seq<Call>, key: string, end: real)
    requires Ordered(calls)
    ensures |Within(Admitted(limit, window, calls, key), window, end)| <= limit
  {
    if calls != [] {
      var rest, c := calls[..|calls| - 1], calls[|calls| - 1];
      var before := Admitted(limit, window, rest, key);
      WindowBounded(limit, window, rest, key, end);
      if Admitted(limit, window, calls, key) != before && end - window <= c.now <= end {
        WithinStep(before, c.now, window, end);
        AdmittedOrdered(limit, window, rest, key);
        WithinShrinks(before, window, end, c.now);
      }
    }
  }

  /** No closed window of the configured length ever holds more than `limit` admissions. */
  lemma NoWindowOverfull(limit: nat, window: real, calls: seq<Call>, key: string, end: real)
    requires Ordered(calls)
    ensures |InWindow(Admitted(limit, window, calls, key), window, end)| <= limit
  {
    WindowBounded(limit, window, calls, key, end);
    WithinCounts(Admitted(limit, window, calls, key), window, end);
  }

  lemma CurrentWindowStep(limit: nat, window: real, calls: seq<Call>, c: Call, key: string)
    requires window >= 0.0
    ensures CurrentWindow(limit, window, calls + [c], key) ==
            if c.key != key then CurrentWindow(limit, window, calls, key)
            else
              var recent := Within(Admitted(limit, window, calls, key), window, c.now);
              if |recent| < limit then recent + [c.now] else recent
  {
    AdmittedStep(limit, window, calls, c, key);
    WithinStep(Admitted(limit, window, calls, key), c.now, window, c.now);
  }

  function DequeOf(hits: map<string, seq<real>>, key: string): seq<real> {
    if key in hits then hits[key] else []
  }

  /** Each key's deque is its admitted history cut to the closed window of its last call. */
  ghost predicate Mirrors(limit: nat, window: real, hits: map<string, seq<real>>, calls: seq<Call>) {
    forall key :: DequeOf(hits, key) == CurrentWindow(limit, window, calls, key)
  }

  lemma MirrorsStep(limit: nat, window: real, hits: map<string, seq<real>>, calls: seq<Call>, c: Call, deque: seq<real>)
    requires window >= 0.0 && Mirrors(limit, window, hits, calls)
    requires var recent := Within(Admitted(limit, window, calls, c.key), window, c.now);
             deque == if |recent| < limit then recent + [c.now] else recent
    ensures Mirrors(limit, window, hits[c.key := deque], calls + [c])
  {
    forall key ensures DequeOf(hits[c.key := deque], key) == CurrentWindow(limit, window, calls + [c], key) {
      CurrentWindowStep(limit, window, calls, c, key);
      assert DequeOf(hits, key) == CurrentWindow(limit, window, calls, key);
    }
  }

  /** All that counting a call changes. */
  lemma AllowStep(limit: nat, window: real, hits: map<string, seq<real>>, calls: seq<Call>, c: Call, deque: seq<real>)
    requires window >= 0.0 && Mirrors(limit, window, hits, calls) && Ordered(calls) && InOrder(calls, c.now)
    requires var recent := Within(Admitted(limit, window, calls, c.key), window, c.now);
             deque == if |recent| < limit then recent + [c.now] else recent
    ensures Ordered(calls + [c]) && Mirrors(limit, window, hits[c.key := deque], calls + [c])
    ensures Admitted(limit, window, calls + [c], c.key) == Admitted(limit, window, calls, c.key) +
              if |Within(Admitted(limit, window, calls, c.key), window, c.now)| < limit then [c.now] else []
  {
    OrderedAppend(calls, c);
    MirrorsStep(limit, window, hits, calls, c, deque);
    AdmittedStep(limit, window, calls, c, c.key);
  }

  /** What a deque holds once it is cut to a window that ends at a later time. */
  lemma DequeCut(limit: nat, window: real, hits: map<string, seq<real>>, calls: seq<Call>, key: string, now: real)
    requires Mirrors(limit, window, hits, calls) && Ordered(calls) && InOrder(calls, now)
    ensures Nondecreasing(DequeOf(hits, key)) && Bounded(DequeOf(hits, key), now)
    ensures Within(DequeOf(hits, key), window, now) == Within(Admitted(limit, window, calls, key), window, now)
  {
    var history, last := Admitted(limit, window, calls, key), LastNow(calls, key);
    AdmittedOrdered(limit, window, calls, key);
    WithinOrdered(history, window, last);
    if history != [] {
      WithinTwice(history, window, last, now);
    }
  }

  class Limiter {
    const limit: nat
    const window: real
    var hits: map<string, seq<real>>
    ghost var calls: seq<Call>

    ghost predicate Valid()
      reads this
    {
      limit >= 1 && window >= 1.0 && Ordered(calls) && Mirrors(limit, window, hits, calls)
    }

    constructor (limit: int, windowSeconds: int)
      ensures Valid() && calls == []
      ensures this.limit == if limit > 1 then limit else 1
      ensures this.window == (if windowSeconds > 1 then windowSeconds else 1) as real
    {
      this.limit := if limit > 1 then limit else 1;
      this.window := (if windowSeconds > 1 then windowSeconds else 1) as real;
      hits := map[];
      calls := [];
    }

    /** Drop the expired front of a deque. */
    static method Expire(deque: seq<real>, window: real, now: real) returns (kept: seq<real>)
      requires Nondecreasing(deque) && Bounded(deque, now)
      ensures kept == Within(deque, window, now)
    {
      kept := deque;
      var cutoff := now - window;
      while kept != [] && kept[0] < cutoff
        invariant Nondecreasing(kept) && Bounded(kept, now)
        invariant Within(kept, window, now) == Within(deque, window, now)
        decreases |kept|
      {
        WithinFront(kept, window, now);
        kept := kept[1..];
      }
      WithinAll(kept, window, now);
    }

    method Allow(key: string, now: real) returns (ok: bool)
      requires Valid()
      requires InOrder(calls, now)
      modifies this
      ensures Valid() && calls == old(calls) + [Call(key, now)]
      ensures ok <==> |InWindow(Admitted(limit, window, old(calls), key), window, now)| < limit
      ensures Admitted(limit, window, calls, key) == Admitted(limit, window, old(calls), key) + if ok then [now] else []
    {
      DequeCut(limit, window, hits, calls, key, now);
      WithinCounts(Admitted(limit, window, calls, key), window, now);
      var deque := Expire(DequeOf(hits, key), window, now);
      ok := |deque| < limit;
      if ok {
        deque := deque + [now];
      }
      AllowStep(limit, window, hits, calls, Call(key, now), deque);
      hits := hits[key := deque];
      calls := calls + [Call(key, now)];
    }
  }
}
