/** The limiter of the partner API: its table, the eviction when it grows large, and its answers. */
module ServiceLimiter {
  import opened Wrappers
  import opened Clock
  import opened ServiceRateLimit
  import Digits

  const TABLE_LIMIT: nat := 10_000
  const EVICTION_BATCH: nat := 1_000

  /** The entries, and their keys in insertion order, as a dictionary lists them. */
  datatype Table = Table(entries: map<string, Entry>, order: seq<string>)

  predicate Distinct(s: seq<string>) {
    forall i, j :: 0 <= i < j < |s| ==> s[i] != s[j]
  }

  function Elements(s: seq<string>): set<string> {
    set k | k in s
  }

  predicate Listed(t: Table) {
    Elements(t.order) == t.entries.Keys && Distinct(t.order)
  }

  predicate ExpiredKey(entries: map<string, Entry>, now: real, k: string) {
    k in entries && Expired(entries[k], now)
  }

  /** The expired keys among those listed, in the order of the list. */
  function ExpiredIn(order: seq<string>, entries: map<string, Entry>, now: real): seq<string> {
    if order == [] then []
    else
      var last := order[|order| - 1];
      ExpiredIn(order[..|order| - 1], entries, now) + if ExpiredKey(entries, now, last) then [last] else []
  }

  function First(s: seq<string>, n: nat): seq<string> {
    if |s| > n then s[..n] else s
  }

  /** The list without the given keys. */
  function Keeping(order: seq<string>, gone: set<string>): seq<string> {
    if order == [] then []
    else
      var last := order[|order| - 1];
      Keeping(order[..|order| - 1], gone) + if last in gone then [] else [last]
  }

  function Drop(t: Table, gone: set<string>): Table {
    Table(t.entries - gone, Keeping(t.order, gone))
  }

  function Victims(t: Table, now: real): seq<string> {
    First(ExpiredIn(t.order, t.entries, now), EVICTION_BATCH)
  }

  /** A table above its limit loses the first expired keys it lists, one batch at most. */
  function Evicted(t: Table, now: real): Table {
    if |t.entries| > TABLE_LIMIT then Drop(t, Elements(Victims(t, now))) else t
  }

  predicate Admitted(t: Table, c: Call) {
    Judged(Lookup(t.entries, c.key), c.now).count < QUOTA
  }

  /** The table with the call counted in its entry. */
  function WithCall(t: Table, c: Call): Table {
    Table(Recorded(t.entries, c.key, c.now), if c.key in t.entries then t.order else t.order + [c.key])
  }

  /** The table after a call: counted if admitted, then evicted. */
  function Counted(t: Table, c: Call): Table {
    if !Admitted(t, c) then t
    else Evicted(WithCall(t, c), c.now)
  }

  /** The table the limiter holds after the calls, whatever their clock readings. */
  function Served(calls: seq<Call>): Table {
    if calls == [] then Table(map[], []) else Counted(Served(calls[..|calls| - 1]), calls[|calls| - 1])
  }

  // ---------------------------------------------------------------------------------------------
  // Lists
  // ---------------------------------------------------------------------------------------------

  lemma {:induction false} KeepingHolds(order: seq<string>, gone: set<string>)
    requires Distinct(order)
    ensures forall k :: k in Keeping(order, gone) <==> k in order && k !in gone
    ensures Distinct(Keeping(order, gone))
  {
    if order != [] {
      var rest, last := order[..|order| - 1], order[|order| - 1];
      KeepingHolds(rest, gone);
      assert order == rest + [last];
      assert last !in rest;
    }
  }

  lemma KeepingLast(order: seq<string>, k: string, gone: set<string>)
    ensures Keeping(order + [k], gone) == Keeping(order, gone) + if k in gone then [] else [k]
  {
    assert (order + [k])[..|order|] == order;
  }

  lemma {:induction false} KeepingMore(order: seq<string>, gone: set<string>, more: set<string>)
    ensures Keeping(Keeping(order, gone), more) == Keeping(order, gone + more)
  {
    if order != [] {
      var rest, last := order[..|order| - 1], order[|order| - 1];
      KeepingMore(rest, gone, more);
      if last in gone {
        assert Keeping(order, gone) == Keeping(rest, gone) && Keeping(order, gone + more) == Keeping(rest, gone + more);
      } else {
        KeepingLast(Keeping(rest, gone), last, more);
        assert Keeping(order, gone) == Keeping(rest, gone) + [last];
      }
    }
  }

  lemma {:induction false} KeepingAll(order: seq<string>)
    ensures Keeping(order, {}) == order
  {
    if order != [] {
      KeepingAll(order[..|order| - 1]);
      assert order == order[..|order| - 1] + [order[|order| - 1]];
    }
  }

  lemma ExpiredAppend(order: seq<string>, k: string, entries: map<string, Entry>, now: real)
    ensures ExpiredIn(order + [k], entries, now) ==
            ExpiredIn(order, entries, now) + if ExpiredKey(entries, now, k) then [k] else []
  {
    assert (order + [k])[..|order|] == order;
  }

  lemma {:induction false} ExpiredInHolds(order: seq<string>, entries: map<string, Entry>, now: real)
    requires Distinct(order)
    ensures forall k :: k in ExpiredIn(order, entries, now) <==> k in order && ExpiredKey(entries, now, k)
    ensures Distinct(ExpiredIn(order, entries, now))
  {
    if order != [] {
      var rest, last := order[..|order| - 1], order[|order| - 1];
      ExpiredInHolds(rest, entries, now);
      assert order == rest + [last];
      assert last !in rest;
    }
  }

  /** The first `n` expired keys are those listed before some position. */
  lemma {:induction false} FirstExpired(
      order: seq<string>, entries: map<string, Entry>, now: real, n: nat, i: nat, j: nat)
    requires Distinct(order) && i < j < |order|
    requires ExpiredKey(entries, now, order[i]) && order[j] in First(ExpiredIn(order, entries, now), n)
    ensures order[i] in First(ExpiredIn(order, entries, now), n)
  {
    var rest, last := order[..|order| - 1], |order| - 1;
    var before := ExpiredIn(rest, entries, now);
    ExpiredInHolds(rest, entries, now);
    if j < last {
      assert order[j] != order[last];
      FirstExpired(rest, entries, now, n, i, j);
    } else {
      assert order[j] !in rest;
      assert |before| < n;
      assert order[i] == rest[i] && rest[i] in rest;
    }
  }

  lemma {:induction false} DistinctCount(s: seq<string>)
    requires Distinct(s)
    ensures |Elements(s)| == |s|
  {
    if s != [] {
      var rest, last := s[..|s| - 1], s[|s| - 1];
      DistinctCount(rest);
      assert s == rest + [last];
      assert Elements(s) == Elements(rest) + {last} && last !in Elements(rest);
    }
  }

  lemma ListedCount(t: Table)
    requires Listed(t)
    ensures |t.order| == |t.entries|
  {
    DistinctCount(t.order);
    assert Elements(t.order) == t.entries.Keys;
  }

  // ---------------------------------------------------------------------------------------------
  // Eviction
  // ---------------------------------------------------------------------------------------------

  lemma VictimsAre(t: Table, now: real)
    requires Listed(t)
    ensures Distinct(Victims(t, now))
    ensures forall k :: k in Victims(t, now) ==> ExpiredKey(t.entries, now, k)
  {
    ExpiredInHolds(t.order, t.entries, now);
  }

  lemma EvictedListed(t: Table, now: real)
    requires Listed(t)
    ensures Listed(Evicted(t, now)) && OnlyExpiredDropped(t.entries, Evicted(t, now).entries, now)
  {
    VictimsAre(t, now);
    KeepingHolds(t.order, Elements(Victims(t, now)));
  }

  /** The keys whose window started 60 seconds ago or more. */
  function ExpiredKeysOf(entries: map<string, Entry>, now: real): set<string> {
    set k | k in entries && now - entries[k].start >= 60.0
  }

  lemma ExpiredCount(t: Table, now: real)
    requires Listed(t)
    ensures |ExpiredIn(t.order, t.entries, now)| == |ExpiredKeysOf(t.entries, now)|
  {
    var expired := ExpiredIn(t.order, t.entries, now);
    ExpiredInHolds(t.order, t.entries, now);
    DistinctCount(expired);
    forall k ensures k in Elements(expired) <==> k in ExpiredKeysOf(t.entries, now) {
      assert k in t.order <==> k in Elements(t.order);
    }
    assert Elements(expired) == ExpiredKeysOf(t.entries, now);
  }

  /**
   * Up to the limit nothing is dropped. Above it the keys dropped are expired, as many as there are
   * but no more than a batch, and an expired key inserted before a dropped one is dropped as well.
   */
  lemma EvictionIsExact(t: Table, now: real)
    requires Listed(t)
    ensures |t.entries| <= 10_000 ==> Evicted(t, now) == t
    ensures |t.entries| > 10_000 ==>
              var expired, left := |ExpiredKeysOf(t.entries, now)|, |Evicted(t, now).entries|;
              left == |t.entries| - if expired > 1_000 then 1_000 else expired
    ensures forall k :: k in Evicted(t, now).entries ==>
              k in t.entries && Evicted(t, now).entries[k] == t.entries[k]
    ensures forall k :: k in t.entries && k !in Evicted(t, now).entries ==> k in ExpiredKeysOf(t.entries, now)
    ensures forall i, j | 0 <= i < j < |t.order| && t.order[i] in ExpiredKeysOf(t.entries, now) ::
              t.order[j] !in Evicted(t, now).entries ==> t.order[i] !in Evicted(t, now).entries
  {
    var victims := Victims(t, now);
    VictimsAre(t, now);
    ExpiredCount(t, now);
    DistinctCount(victims);
    if |t.entries| > TABLE_LIMIT {
      assert Elements(victims) <= t.entries.Keys;
      assert Evicted(t, now).entries.Keys == t.entries.Keys - Elements(victims);
      forall i, j | 0 <= i < j < |t.order| && ExpiredKey(t.entries, now, t.order[i]) && t.order[j] in victims
        ensures t.order[i] in victims
      {
        FirstExpired(t.order, t.entries, now, EVICTION_BATCH, i, j);
      }
    }
  }

  lemma CountedListed(t: Table, c: Call)
    requires Listed(t)
    ensures Listed(Counted(t, c)) && OnlyExpiredDropped(Recorded(t.entries, c.key, c.now), Counted(t, c).entries, c.now)
  {
    if Admitted(t, c) {
      assert Listed(WithCall(t, c));
      EvictedListed(WithCall(t, c), c.now);
    }
  }

  lemma {:induction false} ServedListed(calls: seq<Call>)
    ensures Listed(Served(calls))
  {
    if calls != [] {
      ServedListed(calls[..|calls| - 1]);
      CountedListed(Served(calls[..|calls| - 1]), calls[|calls| - 1]);
    }
  }

  // ---------------------------------------------------------------------------------------------
  // Answers
  // ---------------------------------------------------------------------------------------------

  lemma ServedStep(calls: seq<Call>, c: Call)
    ensures Served(calls + [c]) == Counted(Served(calls), c)
  {
    assert (calls + [c])[..|calls|] == calls;
  }

  /** While clock readings come in order, the table refines the one that never forgets. */
  lemma {:induction false} ServedRefines(calls: seq<Call>)
    requires Ordered(calls)
    ensures Refines(Served(calls).entries, calls)
  {
    if calls != [] {
      var rest, c := calls[..|calls| - 1], calls[|calls| - 1];
      ServedRefines(rest);
      ServedListed(rest);
      CountedListed(Served(rest), c);
      StepRefines(Served(rest).entries, rest, c, Served(calls).entries);
      assert rest + [c] == calls;
    }
  }

  /**
   * After calls in order, a call at any clock reading gets the answer of the limiter whose table
   * never forgets, unless its entry was dropped, has not expired at that reading, and is full.
   */
  lemma AnswersAlikeIff(calls: seq<Call>, c: Call)
    requires Ordered(calls)
    ensures (Admitted(Served(calls), c) <==> Admits(calls, c)) <==>
            || c.key in Served(calls).entries
            || Stored(calls, c.key).None?
            || Expired(Stored(calls, c.key).value, c.now)
            || Stored(calls, c.key).value.count < QUOTA
  {
    ServedRefines(calls);
    assert Lookup(Served(calls).entries, c.key) == Stored(calls, c.key) || c.key !in Served(calls).entries;
  }

  class Limiter {
    var entries: map<string, Entry>
    var order: seq<string>
    ghost var calls: seq<Call>

    function Contents(): Table
      reads this
    {
      Table(entries, order)
    }

    /** The table is the one the calls so far lead to. */
    ghost predicate Valid()
      reads this
    {
      Contents() == Served(calls)
    }

    constructor ()
      ensures Valid() && calls == []
    {
      entries, order, calls := map[], [], [];
    }

    method ExpiredKeys(now: real) returns (expired: seq<string>)
      ensures expired == ExpiredIn(order, entries, now)
    {
      expired := [];
      for i := 0 to |order|
        invariant expired == ExpiredIn(order[..i], entries, now)
      {
        assert order[..i + 1] == order[..i] + [order[i]];
        ExpiredAppend(order[..i], order[i], entries, now);
        if order[i] in entries && Expired(entries[order[i]], now) {
          expired := expired + [order[i]];
        }
      }
      assert order[..|order|] == order;
    }

    method Pop(victims: seq<string>)
      modifies this`entries, this`order
      ensures Contents() == Drop(old(Contents()), Elements(victims))
    {
      KeepingAll(order);
      assert Elements(victims[..0]) == {};
      for i := 0 to |victims|
        invariant Contents() == Drop(old(Contents()), Elements(victims[..i]))
      {
        assert Elements(victims[..i + 1]) == Elements(victims[..i]) + {victims[i]};
        KeepingMore(old(order), Elements(victims[..i]), {victims[i]});
        entries := entries - {victims[i]};
        order := Keeping(order, {victims[i]});
      }
      assert victims[..|victims|] == victims;
    }

    method Evict(now: real)
      modifies this`entries, this`order
      ensures Contents() == Evicted(old(Contents()), now)
    {
      if |entries| > TABLE_LIMIT {
        var expired := ExpiredKeys(now);
        Pop(if |expired| > EVICTION_BATCH then expired[..EVICTION_BATCH] else expired);
      }
    }

    /**
     * The call is judged by the entry of its key and counted in it if it is admitted, and then the
     * table is evicted. While clock readings come in order, the answer is that of the limiter whose
     * table never forgets, whatever has been evicted.
     */
    method Enforce(key: string, now: real) returns (admitted: bool)
      requires Valid()
      modifies this
      ensures Valid() && calls == old(calls) + [Call(key, now)]
      ensures Contents() == Counted(old(Contents()), Call(key, now))
      ensures admitted <==> Admitted(old(Contents()), Call(key, now))
      ensures Ordered(calls) ==> (admitted <==> Admits(old(calls), Call(key, now)))
    {
      ghost var c := Call(key, now);
      ServedStep(calls, c);
      OrderedAppend(calls, c);
      if Ordered(calls) && InOrder(calls, now) {
        ServedRefines(calls);
        LostEntryIsExpired(entries, calls, key, now);
      }
      var e := Judged(Lookup(entries, key), now);
      admitted := e.count < QUOTA;
      if admitted {
        order := if key in entries then order else order + [key];
        entries := entries[key := Entry(e.count + 1, e.start)];
        Evict(now);
      }
      calls := calls + [c];
    }
  }

  // ---------------------------------------------------------------------------------------------
  // Clock readings out of order
  // ---------------------------------------------------------------------------------------------

  /** No other account of the crowd bears this name. */
  ghost predicate Apart(busy: string) {
    forall i: nat :: Digits.Decimal(i) != busy
  }

  /** Calls of one account at time 0. */
  predicate Busy(busy: string, calls: seq<Call>) {
    forall i :: 0 <= i < |calls| ==> calls[i] == Call(busy, 0.0)
  }

  /** A full window of one account at time 0, then calls of `m` other accounts at time 60. */
  predicate Crowd(busy: string, calls: seq<Call>, m: nat) {
    && |calls| == QUOTA + m && Busy(busy, calls[..QUOTA])
    && forall i :: QUOTA <= i < |calls| ==> calls[i] == Call(Digits.Decimal(i - QUOTA), 60.0)
  }

  lemma CrowdBefore(busy: string, calls: seq<Call>, m: nat)
    requires Crowd(busy, calls, m) && m > 0
    ensures Crowd(busy, calls[..|calls| - 1], m - 1)
    ensures calls[|calls| - 1] == Call(Digits.Decimal(m - 1), 60.0)
  {
    assert calls[..|calls| - 1][..QUOTA] == calls[..QUOTA];
  }

  lemma BusyStep(busy: string, n: nat)
    requires 1 <= n < QUOTA
    ensures Counted(Table(map[busy := Entry(n, 0.0)], [busy]), Call(busy, 0.0)) ==
            Table(map[busy := Entry(n + 1, 0.0)], [busy])
  {
    assert map[busy := Entry(n, 0.0)][busy := Entry(n + 1, 0.0)] == map[busy := Entry(n + 1, 0.0)];
  }

  lemma BusyStart(busy: string)
    ensures Counted(Table(map[], []), Call(busy, 0.0)) == Table(map[busy := Entry(1, 0.0)], [busy])
  {
    assert [] + [busy] == [busy];
  }

  function BusyOnly(busy: string, n: nat): Table {
    if n == 0 then Table(map[], []) else Table(map[busy := Entry(n, 0.0)], [busy])
  }

  lemma BusyCounted(busy: string, n: nat)
    requires n < QUOTA
    ensures Counted(BusyOnly(busy, n), Call(busy, 0.0)) == BusyOnly(busy, n + 1)
  {
    if n > 0 { BusyStep(busy, n); } else { BusyStart(busy); }
  }

  lemma {:induction false} BusyTable(busy: string, calls: seq<Call>)
    requires Busy(busy, calls) && |calls| <= QUOTA
    ensures Served(calls) == BusyOnly(busy, |calls|)
  {
    if calls != [] {
      BusyTable(busy, calls[..|calls| - 1]);
      BusyCounted(busy, |calls| - 1);
    }
  }

  lemma {:induction false} BusyStored(busy: string, calls: seq<Call>)
    requires Busy(busy, calls) && |calls| <= QUOTA
    ensures Stored(calls, busy) == if calls == [] then None else Some(Entry(|calls|, 0.0))
  {
    if calls != [] { BusyStored(busy, calls[..|calls| - 1]); }
  }

  function Names(m: nat): seq<string> {
    if m == 0 then [] else Names(m - 1) + [Digits.Decimal(m - 1)]
  }

  lemma {:induction false} NamesHold(m: nat, k: string)
    ensures k in Names(m) ==> exists i: nat :: i < m && k == Digits.Decimal(i)
  {
    if m > 0 {
      NamesHold(m - 1, k);
    }
  }

  lemma NameIsNew(m: nat)
    ensures Digits.Decimal(m) !in Names(m)
  {
    NamesHold(m, Digits.Decimal(m));
    forall i: nat | i < m ensures Digits.Decimal(i) != Digits.Decimal(m) {
      if Digits.Decimal(i) == Digits.Decimal(m) { Digits.DecimalInjective(i, m); }
    }
  }

  /** The busy account, full since time 0, stands first; all others started at time 60. */
  predicate Crowded(busy: string, t: Table, m: nat) {
    && Listed(t) && t.order == [busy] + Names(m)
    && busy in t.entries && t.entries[busy] == Entry(QUOTA, 0.0)
    && forall k :: k in t.entries && k != busy ==> t.entries[k].start == 60.0
  }

  /** The table just after another account's first call has been counted, before eviction. */
  function Joined(t: Table, k: string): Table {
    Table(t.entries[k := Entry(1, 60.0)], t.order + [k])
  }

  lemma NameIsNotListed(busy: string, t: Table, m: nat)
    requires Apart(busy) && Crowded(busy, t, m)
    ensures Digits.Decimal(m) !in t.order && Digits.Decimal(m) !in t.entries
  {
    NameIsNew(m);
    assert Digits.Decimal(m) !in Elements(t.order);
  }

  lemma JoinedListed(t: Table, k: string)
    requires Listed(t) && k !in t.order
    ensures Listed(Joined(t, k))
  {
    assert Elements(t.order + [k]) == Elements(t.order) + {k};
  }

  lemma JoinedCrowd(busy: string, t: Table, m: nat, k: string)
    requires Apart(busy) && Crowded(busy, t, m) && k == Digits.Decimal(m)
    ensures Crowded(busy, Joined(t, k), m + 1)
  {
    NameIsNotListed(busy, t, m);
    JoinedListed(t, k);
    assert [busy] + Names(m + 1) == t.order + [k];
  }

  lemma NewcomerIsAdmitted(t: Table, c: Call)
    requires c.key !in t.entries
    ensures Admitted(t, c)
  {
  }

  lemma JoinIsCounted(t: Table, k: string)
    requires k !in t.entries
    ensures Counted(t, Call(k, 60.0)) == Evicted(Joined(t, k), 60.0)
  {
    NewcomerIsAdmitted(t, Call(k, 60.0));
    assert Recorded(t.entries, k, 60.0) == t.entries[k := Entry(1, 60.0)];
  }

  lemma {:induction false} NamesCount(m: nat)
    ensures |Names(m)| == m
  {
    if m > 0 { NamesCount(m - 1); }
  }

  lemma CrowdCount(busy: string, t: Table, m: nat)
    requires Crowded(busy, t, m)
    ensures |t.entries| == m + 1
  {
    NamesCount(m);
    ListedCount(t);
  }

  lemma {:induction false} OnlyFirstExpired(order: seq<string>, entries: map<string, Entry>, now: real)
    requires order != [] && ExpiredKey(entries, now, order[0])
    requires forall i :: 0 < i < |order| ==> !ExpiredKey(entries, now, order[i])
    ensures ExpiredIn(order, entries, now) == [order[0]]
  {
    var rest := order[..|order| - 1];
    if rest == [] {
      assert ExpiredIn(rest, entries, now) == [];
    } else {
      OnlyFirstExpired(rest, entries, now);
    }
  }

  /** Once the table is above its limit, the busy account's entry is the one that goes. */
  lemma CrowdEvicts(busy: string, t: Table, m: nat)
    requires Crowded(busy, t, m) && m >= TABLE_LIMIT
    ensures busy !in Evicted(t, 60.0).entries
  {
    CrowdCount(busy, t, m);
    assert t.order[0] == busy;
    forall i | 0 < i < |t.order| ensures !ExpiredKey(t.entries, 60.0, t.order[i]) { assert t.order[i] != t.order[0]; }
    OnlyFirstExpired(t.order, t.entries, 60.0);
    assert busy in Victims(t, 60.0);
  }

  lemma BusyIsCrowd(busy: string, calls: seq<Call>)
    requires Crowd(busy, calls, 0)
    ensures Crowded(busy, Served(calls), 0)
  {
    assert calls[..QUOTA] == calls;
    BusyTable(busy, calls);
    assert Names(0) == [] && [busy] + [] == [busy];
    assert Elements([busy]) == {busy};
  }

  lemma SmallIsKept(t: Table, now: real)
    requires |t.entries| <= TABLE_LIMIT
    ensures Evicted(t, now) == t
  {
  }

  lemma CrowdGrows(busy: string, t: Table, m: nat)
    requires Apart(busy) && Crowded(busy, t, m)
    ensures var c := Call(Digits.Decimal(m), 60.0);
            && (m + 1 < TABLE_LIMIT ==> Crowded(busy, Counted(t, c), m + 1))
            && (m + 1 == TABLE_LIMIT ==> busy !in Counted(t, c).entries)
  {
    var k := Digits.Decimal(m);
    NameIsNotListed(busy, t, m);
    JoinedCrowd(busy, t, m, k);
    JoinIsCounted(t, k);
    CrowdCount(busy, Joined(t, k), m + 1);
    if m + 1 < TABLE_LIMIT {
      SmallIsKept(Joined(t, k), 60.0);
    } else if m + 1 == TABLE_LIMIT {
      CrowdEvicts(busy, Joined(t, k), m + 1);
    }
  }

  lemma ServedLast(calls: seq<Call>)
    requires calls != []
    ensures Served(calls) == Counted(Served(calls[..|calls| - 1]), calls[|calls| - 1])
  {
  }

  lemma {:induction false} CrowdTable(busy: string, calls: seq<Call>, m: nat)
    requires Apart(busy) && Crowd(busy, calls, m) && m < TABLE_LIMIT
    ensures Crowded(busy, Served(calls), m)
  {
    if m == 0 {
      BusyIsCrowd(busy, calls);
    } else {
      var before := calls[..|calls| - 1];
      CrowdBefore(busy, calls, m);
      CrowdTable(busy, before, m - 1);
      CrowdGrows(busy, Served(before), m - 1);
      ServedLast(calls);
    }
  }

  lemma FullCrowd(busy: string, calls: seq<Call>)
    requires Apart(busy) && Crowd(busy, calls, TABLE_LIMIT)
    ensures busy !in Served(calls).entries
  {
    var before := calls[..|calls| - 1];
    CrowdBefore(busy, calls, TABLE_LIMIT);
    CrowdTable(busy, before, TABLE_LIMIT - 1);
    CrowdGrows(busy, Served(before), TABLE_LIMIT - 1);
    ServedLast(calls);
  }

  lemma {:induction false} BusyIsStored(busy: string, calls: seq<Call>, m: nat)
    requires Apart(busy) && Crowd(busy, calls, m)
    ensures Stored(calls, busy) == Some(Entry(QUOTA, 0.0))
  {
    if m == 0 {
      assert calls[..QUOTA] == calls;
      BusyStored(busy, calls);
    } else {
      CrowdBefore(busy, calls, m);
      BusyIsStored(busy, calls[..|calls| - 1], m - 1);
    }
  }

  function CrowdCall(busy: string, i: nat): Call {
    if i < QUOTA then Call(busy, 0.0) else Call(Digits.Decimal(i - QUOTA), 60.0)
  }

  /**
   * A run of the limiter that tells: an account fills its window at time 0, ten thousand others call
   * at time 60, and a call of the first account read at time 30 is let in, although the limiter whose
   * table never forgets refuses it.
   */
  lemma EarlierReadingIsAdmitted(busy: string) returns (calls: seq<Call>)
    requires Apart(busy)
    ensures Crowd(busy, calls, TABLE_LIMIT) && Ordered(calls)
    ensures Admitted(Served(calls), Call(busy, 30.0)) && !Admits(calls, Call(busy, 30.0))
  {
    calls := seq(QUOTA + TABLE_LIMIT, i requires i >= 0 => CrowdCall(busy, i));
    FullCrowd(busy, calls);
    BusyIsStored(busy, calls, TABLE_LIMIT);
    NewcomerIsAdmitted(Served(calls), Call(busy, 30.0));
  }
}
