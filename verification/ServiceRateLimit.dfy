/** The fixed windows of the partner API's limiter, and what a table that loses expired entries keeps of them. */
module ServiceRateLimit {
  import opened Wrappers
  import opened Clock

  const LENGTH: real := 60.0
  const QUOTA: nat := 120

  datatype Entry = Entry(count: nat, start: real)

  predicate Expired(e: Entry, now: real) {
    now - e.start >= LENGTH
  }

  /** The window a call is judged in: the stored one, or a new one that starts now. */
  function Judged(stored: Option<Entry>, now: real): Entry {
    match stored
    case None => Entry(0, now)
    case Some(e) => if Expired(e, now) then Entry(0, now) else e
  }

  /** The entry of `key` in a table that never forgets. */
  function Stored(calls: seq<Call>, key: string): Option<Entry> {
    if calls == [] then None
    else
      var c := calls[|calls| - 1];
      var before := Stored(calls[..|calls| - 1], key);
      if c.key != key then before
      else
        var e := Judged(before, c.now);
        if e.count >= QUOTA then before else Some(Entry(e.count + 1, e.start))
  }

  /** Whether the limiter with the unbounded table admits a call. */
  predicate Admits(calls: seq<Call>, c: Call) {
    Judged(Stored(calls, c.key), c.now).count < QUOTA
  }

  /** An admission and the start of the window it was counted in. */
  datatype Admission = Admission(at: real, start: real)

  function Admissions(calls: seq<Call>, key: string): seq<Admission> {
    if calls == [] then []
    else
      var c, rest := calls[|calls| - 1], calls[..|calls| - 1];
      if c.key == key && Admits(rest, c)
      then Admissions(rest, key) + [Admission(c.now, Judged(Stored(rest, key), c.now).start)]
      else Admissions(rest, key)
  }

  function CountStart(a: seq<Admission>, start: real): nat {
    if a == [] then 0 else CountStart(a[..|a| - 1], start) + if a[|a| - 1].start == start then 1 else 0
  }

  predicate InInterval(a: Admission, from: real) {
    from <= a.at <= from + 60.0
  }

  /** How many admissions lie in the closed interval of one window length. */
  function CountIn(a: seq<Admission>, from: real): nat {
    if a == [] then 0 else CountIn(a[..|a| - 1], from) + if InInterval(a[|a| - 1], from) then 1 else 0
  }

  /** Admissions fall into their windows, windows start a length apart, none exceeds the quota. */
  ghost predicate WellWindowed(a: seq<Admission>) {
    && (forall i :: 0 <= i < |a| ==> a[i].start <= a[i].at < a[i].start + LENGTH)
    && (forall i, j :: 0 <= i < j < |a| ==> a[i].start == a[j].start || a[i].start + LENGTH <= a[j].start)
    && (forall s :: CountStart(a, s) <= QUOTA)
  }

  /** The stored entry is the window of the newest admission, with the number admitted in it. */
  predicate Tracks(stored: Option<Entry>, a: seq<Admission>) {
    match stored
    case None => a == []
    case Some(e) => a != [] && a[|a| - 1].start == e.start && CountStart(a, e.start) == e.count
  }

  lemma CountStartAppend(a: seq<Admission>, x: Admission, s: real)
    ensures CountStart(a + [x], s) == CountStart(a, s) + if x.start == s then 1 else 0
  {
    assert (a + [x])[..|a|] == a;
  }

  lemma {:induction false} CountStartZero(a: seq<Admission>, s: real)
    requires forall i :: 0 <= i < |a| ==> a[i].start != s
    ensures CountStart(a, s) == 0
  {
    if a != [] { CountStartZero(a[..|a| - 1], s); }
  }

  ghost predicate Sound(a: seq<Admission>, stored: Option<Entry>, now: real) {
    WellWindowed(a) && Tracks(stored, a) && forall i :: 0 <= i < |a| ==> a[i].at <= now
  }

  /** The window a call is judged in contains it, is a length away from the others, and its count is right. */
  lemma JudgedWindow(a: seq<Admission>, stored: Option<Entry>, now: real)
    requires Sound(a, stored, now)
    ensures var e := Judged(stored, now);
            && e.start <= now < e.start + LENGTH
            && (forall i :: 0 <= i < |a| ==> a[i].start == e.start || a[i].start + LENGTH <= e.start)
  {
    var last := |a| - 1;
    if a != [] {
      forall i | 0 <= i < |a| ensures a[i].start == a[last].start || a[i].start + LENGTH <= a[last].start {}
      assert a[last].start <= a[last].at <= now;
    }
  }

  lemma StartsBefore(a: seq<Admission>, stored: Option<Entry>, now: real, i: nat)
    requires Sound(a, stored, now) && i < |a| && (stored.None? || Expired(stored.value, now))
    ensures a[i].start < now
  {
    var last := |a| - 1;
    assert i < last ==> a[i].start == a[last].start || a[i].start + LENGTH <= a[last].start;
  }

  lemma JudgedCount(a: seq<Admission>, stored: Option<Entry>, now: real)
    requires Sound(a, stored, now)
    ensures CountStart(a, Judged(stored, now).start) == Judged(stored, now).count
  {
    JudgedWindow(a, stored, now);
    if stored.None? || Expired(stored.value, now) {
      forall i | 0 <= i < |a| ensures a[i].start != now { StartsBefore(a, stored, now, i); }
      CountStartZero(a, now);
    }
  }

  lemma CountsAppend(a: seq<Admission>, stored: Option<Entry>, now: real)
    requires Sound(a, stored, now) && Judged(stored, now).count < QUOTA
    ensures var e := Judged(stored, now);
            var b := a + [Admission(now, e.start)];
            && CountStart(b, e.start) == e.count + 1
            && (forall s :: CountStart(b, s) <= QUOTA)
  {
    var e := Judged(stored, now);
    JudgedCount(a, stored, now);
    forall s
      ensures CountStart(a + [Admission(now, e.start)], s) <= QUOTA
    {
      CountStartAppend(a, Admission(now, e.start), s);
    }
    CountStartAppend(a, Admission(now, e.start), e.start);
  }

  lemma SoundAppend(a: seq<Admission>, stored: Option<Entry>, now: real)
    requires Sound(a, stored, now) && Judged(stored, now).count < QUOTA
    ensures var e := Judged(stored, now);
            Sound(a + [Admission(now, e.start)], Some(Entry(e.count + 1, e.start)), now)
  {
    JudgedWindow(a, stored, now);
    CountsAppend(a, stored, now);
  }

  lemma {:induction false} AdmissionsSound(calls: seq<Call>, key: string, now: real)
    requires Ordered(calls) && forall i :: 0 <= i < |calls| ==> calls[i].now <= now
    ensures Sound(Admissions(calls, key), Stored(calls, key), now)
  {
    if calls != [] {
      var rest, c := calls[..|calls| - 1], calls[|calls| - 1];
      if c.key == key && Admits(rest, c) {
        AdmissionsSound(rest, key, c.now);
        SoundAppend(Admissions(rest, key), Stored(rest, key), c.now);
      } else {
        AdmissionsSound(rest, key, now);
      }
    }
  }

  lemma {:induction false} CountByStarts(a: seq<Admission>, from: real, s: real, t: real)
    requires forall i :: 0 <= i < |a| && InInterval(a[i], from) ==> a[i].start == s || a[i].start == t
    ensures CountIn(a, from) <= CountStart(a, s) + CountStart(a, t)
  {
    if a != [] { CountByStarts(a[..|a| - 1], from, s, t); }
  }

  lemma {:induction false} NoneInInterval(a: seq<Admission>, from: real)
    requires forall i :: 0 <= i < |a| ==> !InInterval(a[i], from)
    ensures CountIn(a, from) == 0
  {
    if a != [] { NoneInInterval(a[..|a| - 1], from); }
  }

  /** Admissions of three different windows never lie in one closed interval of one window length. */
  lemma NoThirdWindow(a: seq<Admission>, from: real, p: nat, q: nat, r: nat)
    requires WellWindowed(a) && p < |a| && q < |a| && r < |a|
    requires InInterval(a[p], from) && InInterval(a[q], from) && InInterval(a[r], from)
    ensures a[p].start == a[q].start || a[p].start == a[r].start || a[q].start == a[r].start
  {
    assert forall i, j :: 0 <= i < |a| && 0 <= j < |a| ==>
      a[i].start == a[j].start || a[i].start + LENGTH <= a[j].start || a[j].start + LENGTH <= a[i].start;
  }

  /** A closed interval of one window length meets at most two windows. */
  lemma TwoWindows(a: seq<Admission>, from: real) returns (s: real, t: real)
    requires WellWindowed(a)
    ensures forall i :: 0 <= i < |a| && InInterval(a[i], from) ==> a[i].start == s || a[i].start == t
  {
    s, t := 0.0, 0.0;
    if exists i :: 0 <= i < |a| && InInterval(a[i], from) {
      var p :| 0 <= p < |a| && InInterval(a[p], from);
      s := a[p].start;
      t := s;
      if exists i :: 0 <= i < |a| && InInterval(a[i], from) && a[i].start != s {
        var q :| 0 <= q < |a| && InInterval(a[q], from) && a[q].start != s;
        t := a[q].start;
        forall i | 0 <= i < |a| && InInterval(a[i], from) ensures a[i].start == s || a[i].start == t {
          NoThirdWindow(a, from, p, q, i);
        }
      }
    }
  }

  /** At most twice the quota is admitted for an account in any closed interval of 60 seconds. */
  lemma AtMostTwoQuotas(calls: seq<Call>, key: string, from: real)
    requires Ordered(calls)
    ensures CountIn(Admissions(calls, key), from) <= 240
  {
    var a := Admissions(calls, key);
    AdmissionsSound(calls, key, if calls == [] then 0.0 else calls[|calls| - 1].now);
    var s, t := TwoWindows(a, from);
    CountByStarts(a, from, s, t);
  }

  /** A window starts with its first admission, and the next one with the first admission 60 seconds later or more. */
  predicate WindowsFrom(a: seq<Admission>) {
    forall i :: 0 <= i < |a| ==>
      a[i].start == if i > 0 && a[i].at - a[i - 1].start < 60.0 then a[i - 1].start else a[i].at
  }

  lemma {:induction false} WindowsStart(calls: seq<Call>, key: string)
    requires Ordered(calls)
    ensures WindowsFrom(Admissions(calls, key))
  {
    if calls != [] {
      var rest, c := calls[..|calls| - 1], calls[|calls| - 1];
      WindowsStart(rest, key);
      AdmissionsSound(rest, key, c.now);
    }
  }

  function OfWindow(a: seq<Admission>, start: real): set<nat> {
    set i: nat | i < |a| && a[i].start == start
  }

  lemma {:induction false} CountStartCounts(a: seq<Admission>, start: real)
    ensures CountStart(a, start) == |OfWindow(a, start)|
  {
    if a == [] {
      assert OfWindow(a, start) == {};
    } else {
      var last := |a| - 1;
      CountStartCounts(a[..last], start);
      assert OfWindow(a, start) == OfWindow(a[..last], start) + if a[last].start == start then {last} else {};
    }
  }

  /**
   * A call is refused exactly when the window of its account's last admission started less than 60
   * seconds ago and 120 calls were admitted in it; a window starts with the first admission that is
   * 60 seconds or more after the start of the one before.
   */
  lemma RefusedIff(calls: seq<Call>, c: Call)
    requires Ordered(calls) && InOrder(calls, c.now)
    ensures var a := Admissions(calls, c.key);
            && WindowsFrom(a)
            && (!Admits(calls, c) <==>
                 && a != [] && c.now - a[|a| - 1].start < 60.0
                 && |OfWindow(a, a[|a| - 1].start)| == 120)
  {
    var a := Admissions(calls, c.key);
    WindowsStart(calls, c.key);
    AdmissionsSound(calls, c.key, c.now);
    if a != [] { CountStartCounts(a, a[|a| - 1].start); }
  }

  // ---------------------------------------------------------------------------------------------
  // The table with eviction
  // ---------------------------------------------------------------------------------------------

  function Lookup(entries: map<string, Entry>, key: string): Option<Entry> {
    if key in entries then Some(entries[key]) else None
  }

  /** The table agrees with the unbounded one, except that it may have lost expired entries. */
  ghost predicate Refines(entries: map<string, Entry>, calls: seq<Call>) {
    forall key :: Lookup(entries, key) == Stored(calls, key) ||
                  (key !in entries && calls != [] && Stored(calls, key).Some?
                   && Expired(Stored(calls, key).value, calls[|calls| - 1].now))
  }

  lemma StoredStep(calls: seq<Call>, c: Call, key: string)
    ensures Stored(calls + [c], key) ==
            if c.key != key || !Admits(calls, c) then Stored(calls, key)
            else var e := Judged(Stored(calls, key), c.now); Some(Entry(e.count + 1, e.start))
  {
    assert (calls + [c])[..|calls|] == calls;
  }

  /** The table after a call has been counted, if it is admitted. */
  function Recorded(entries: map<string, Entry>, key: string, now: real): map<string, Entry> {
    var e := Judged(Lookup(entries, key), now);
    if e.count >= QUOTA then entries else entries[key := Entry(e.count + 1, e.start)]
  }

  predicate OnlyExpiredDropped(before: map<string, Entry>, after: map<string, Entry>, now: real) {
    && (forall k :: k in after ==> k in before && after[k] == before[k])
    && (forall k :: k in before && k !in after ==> Expired(before[k], now))
  }

  lemma LostEntryIsExpired(entries: map<string, Entry>, calls: seq<Call>, key: string, now: real)
    requires Refines(entries, calls) && InOrder(calls, now)
    ensures Judged(Lookup(entries, key), now) == Judged(Stored(calls, key), now)
  {
  }

  lemma RefinesStep(entries: map<string, Entry>, calls: seq<Call>, c: Call, after: map<string, Entry>)
    requires Refines(entries, calls) && InOrder(calls, c.now)
    requires after == Recorded(entries, c.key, c.now)
    ensures Refines(after, calls + [c])
  {
    LostEntryIsExpired(entries, calls, c.key, c.now);
    forall key
      ensures Lookup(after, key) == Stored(calls + [c], key) ||
              (key !in after && Stored(calls + [c], key).Some? && Expired(Stored(calls + [c], key).value, c.now))
    {
      StoredStep(calls, c, key);
      assert Lookup(entries, key) == Stored(calls, key) ||
             (key !in entries && calls != [] && Stored(calls, key).Some?
              && Expired(Stored(calls, key).value, calls[|calls| - 1].now));
    }
  }

  lemma EvictionRefines(entries: map<string, Entry>, calls: seq<Call>, after: map<string, Entry>)
    requires Refines(entries, calls) && calls != []
    requires OnlyExpiredDropped(entries, after, calls[|calls| - 1].now)
    ensures Refines(after, calls)
  {
    forall key
      ensures Lookup(after, key) == Stored(calls, key) ||
              (key !in after && Stored(calls, key).Some? && Expired(Stored(calls, key).value, calls[|calls| - 1].now))
    {
      assert Lookup(entries, key) == Stored(calls, key) || key !in entries;
    }
  }

  lemma StepRefines(entries: map<string, Entry>, calls: seq<Call>, c: Call, after: map<string, Entry>)
    requires Refines(entries, calls) && InOrder(calls, c.now)
    requires OnlyExpiredDropped(Recorded(entries, c.key, c.now), after, c.now)
    ensures Refines(after, calls + [c])
  {
    var recorded := Recorded(entries, c.key, c.now);
    RefinesStep(entries, calls, c, recorded);
    EvictionRefines(recorded, calls + [c], after);
  }

  lemma {:induction false} StoredCounts(calls: seq<Call>, key: string)
    ensures Stored(calls, key).Some? ==> Stored(calls, key).value.count >= 1
  {
    if calls != [] { StoredCounts(calls[..|calls| - 1], key); }
  }

  /**
   * Whatever its clock reading, a call is judged by the window the table that never forgets would
   * use exactly when its entry was not dropped, or has expired at that reading too.
   */
  lemma JudgedAlikeIff(entries: map<string, Entry>, calls: seq<Call>, key: string, now: real)
    requires Refines(entries, calls)
    ensures Judged(Lookup(entries, key), now) == Judged(Stored(calls, key), now) <==>
            key in entries || Stored(calls, key).None? || Expired(Stored(calls, key).value, now)
  {
    StoredCounts(calls, key);
    assert Lookup(entries, key) == Stored(calls, key) || key !in entries;
  }
}
