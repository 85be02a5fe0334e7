/** The projection of committed domain events into webhook deliveries and their jobs. */
module WebhookOutbox {
  import opened Wrappers

  datatype Subscription = Subscription(id: string, organization: string, enabled: bool, allowed: seq<string>)

  datatype Event = Event(id: string, organization: string, eventType: string)

  datatype Delivery = Delivery(id: nat, organization: string, subscription: string, event: string)

  datatype SendJob = SendJob(organization: string, delivery: nat)

  /** An empty list of event types listens to all of them. */
  predicate Listens(s: Subscription, e: Event) {
    s.enabled && s.organization == e.organization && (s.allowed == [] || e.eventType in s.allowed)
  }

  predicate DeliveredAt(ds: seq<Delivery>, k: int, subscription: string, event: string) {
    0 <= k < |ds| && ds[k].subscription == subscription && ds[k].event == event
  }

  predicate Delivered(ds: seq<Delivery>, subscription: string, event: string) {
    exists k :: 0 <= k < |ds| && DeliveredAt(ds, k, subscription, event)
  }

  /** The unique constraint on (subscription, event), and unique delivery ids. */
  predicate UniqueDeliveries(ds: seq<Delivery>) {
    forall i, j :: 0 <= i < j < |ds| ==>
      ds[i].id != ds[j].id && !(ds[i].subscription == ds[j].subscription && ds[i].event == ds[j].event)
  }

  ghost predicate DeliveredOnce(ds: seq<Delivery>, subscription: string, event: string) {
    Delivered(ds, subscription, event) &&
    forall i, j :: DeliveredAt(ds, i, subscription, event) && DeliveredAt(ds, j, subscription, event) ==> i == j
  }

  function Considered(limit: int): nat {
    if limit < 1 then 1 else if limit < 500 then limit else 500
  }

  /** The most recent events, newest first; `events` is in order of creation. */
  function MostRecent(events: seq<Event>, count: nat): seq<Event> {
    if count == 0 || events == [] then [] else [events[|events| - 1]] + MostRecent(events[..|events| - 1], count - 1)
  }

  lemma {:induction false} MostRecentAre(events: seq<Event>, count: nat)
    ensures |MostRecent(events, count)| == if count < |events| then count else |events|
    ensures forall k :: 0 <= k < |MostRecent(events, count)| ==>
            MostRecent(events, count)[k] == events[|events| - 1 - k]
  {
    if count != 0 && events != [] { MostRecentAre(events[..|events| - 1], count - 1); }
  }

  /**
   * The event `k` places from the newest is within the limit, which is at least one and at most 500,
   * and subscription `j` is switched on, of the event's organization, and listens to its type.
   */
  predicate Owes(events: seq<Event>, subscriptions: seq<Subscription>, limit: int, k: nat, j: nat) {
    && k < |events| && (k == 0 || k < limit) && k < 500 && j < |subscriptions|
    && var e, s := events[|events| - 1 - k], subscriptions[j];
       s.enabled && s.organization == e.organization && (s.allowed == [] || e.eventType in s.allowed)
  }

  lemma OwesIsConsidered(events: seq<Event>, subscriptions: seq<Subscription>, limit: int, k: nat, j: nat)
    ensures Owes(events, subscriptions, limit, k, j) <==>
            var recent := MostRecent(events, Considered(limit));
            k < |recent| && j < |subscriptions| && Listens(subscriptions[j], recent[k])
    ensures Owes(events, subscriptions, limit, k, j) ==>
              MostRecent(events, Considered(limit))[k] == events[|events| - 1 - k]
  {
    MostRecentAre(events, Considered(limit));
  }

  /** The pair of delivery `k` is one a considered event owes to a subscription. */
  predicate Owed(recent: seq<Event>, subscriptions: seq<Subscription>, d: Delivery) {
    exists e, s :: e in recent && s in subscriptions && Listens(s, e)
                   && d.event == e.id && d.subscription == s.id && d.organization == e.organization
  }

  /** The delivery is of an event within the limit and a subscription that listens to it. */
  ghost predicate IsOwed(events: seq<Event>, subscriptions: seq<Subscription>, limit: int, d: Delivery) {
    exists k: nat, j: nat :: Owes(events, subscriptions, limit, k, j)
      && d.organization == events[|events| - 1 - k].organization
      && d.subscription == subscriptions[j].id && d.event == events[|events| - 1 - k].id
  }

  lemma OwedIsOwed(events: seq<Event>, subscriptions: seq<Subscription>, limit: int, d: Delivery)
    requires Owed(MostRecent(events, Considered(limit)), subscriptions, d)
    ensures IsOwed(events, subscriptions, limit, d)
  {
    var recent := MostRecent(events, Considered(limit));
    var e, s :| e in recent && s in subscriptions && Listens(s, e)
                && d.event == e.id && d.subscription == s.id && d.organization == e.organization;
    var k: nat :| k < |recent| && recent[k] == e;
    var j: nat :| j < |subscriptions| && subscriptions[j] == s;
    OwesIsConsidered(events, subscriptions, limit, k, j);
  }

  /** What a pass turns the deliveries `ds` and jobs `js` into: each addition was owed and missing, and has one job. */
  predicate Extends(ds: seq<Delivery>, js: seq<SendJob>, ds': seq<Delivery>, js': seq<SendJob>, recent: seq<Event>,
                    subscriptions: seq<Subscription>)
  {
    && ds <= ds' && js <= js' && |js'| - |js| == |ds'| - |ds|
    && (forall k :: |ds| <= k < |ds'| ==>
          && Owed(recent, subscriptions, ds'[k])
          && !Delivered(ds, ds'[k].subscription, ds'[k].event)
          && js'[|js| + k - |ds|] == SendJob(ds'[k].organization, ds'[k].id))
  }

  lemma StillDelivered(ds: seq<Delivery>, ds': seq<Delivery>, subscription: string, event: string)
    requires ds <= ds' && Delivered(ds, subscription, event)
    ensures Delivered(ds', subscription, event)
  {
    var k :| 0 <= k < |ds| && DeliveredAt(ds, k, subscription, event);
    assert DeliveredAt(ds', k, subscription, event);
  }

  lemma UniqueMeansOnce(ds: seq<Delivery>, subscription: string, event: string)
    requires UniqueDeliveries(ds) && Delivered(ds, subscription, event)
    ensures DeliveredOnce(ds, subscription, event)
  {
  }

  lemma AddKeepsUnique(ds: seq<Delivery>, d: Delivery)
    requires UniqueDeliveries(ds) && !Delivered(ds, d.subscription, d.event) && forall x :: x in ds ==> x.id != d.id
    ensures UniqueDeliveries(ds + [d])
  {
    forall i | 0 <= i < |ds|
      ensures ds[i].id != d.id && !(ds[i].subscription == d.subscription && ds[i].event == d.event)
    {
      assert ds[i] in ds;
      assert !DeliveredAt(ds, i, d.subscription, d.event);
    }
  }

  lemma AddExtends(ds: seq<Delivery>, js: seq<SendJob>, ds': seq<Delivery>, js': seq<SendJob>, recent: seq<Event>,
                   subscriptions: seq<Subscription>, s: Subscription, e: Event, id: nat)
    requires Extends(ds, js, ds', js', recent, subscriptions)
    requires s in subscriptions && e in recent && Listens(s, e) && !Delivered(ds', s.id, e.id)
    ensures Extends(ds, js, ds' + [Delivery(id, e.organization, s.id, e.id)],
                    js' + [SendJob(e.organization, id)], recent, subscriptions)
  {
    var d := Delivery(id, e.organization, s.id, e.id);
    assert Owed(recent, subscriptions, d);
    if Delivered(ds, s.id, e.id) { StillDelivered(ds, ds', s.id, e.id); }
  }

  /** Every pair of one of the first `n` events and a listening subscription has its delivery. */
  ghost predicate Served(ds: seq<Delivery>, recent: seq<Event>, n: nat, subscriptions: seq<Subscription>)
    requires n <= |recent|
  {
    forall i, s :: 0 <= i < n && s in subscriptions && Listens(s, recent[i]) ==> Delivered(ds, s.id, recent[i].id)
  }

  ghost predicate ServedEvent(ds: seq<Delivery>, e: Event, m: nat, subscriptions: seq<Subscription>)
    requires m <= |subscriptions|
  {
    forall j :: 0 <= j < m && Listens(subscriptions[j], e) ==> Delivered(ds, subscriptions[j].id, e.id)
  }

  lemma ServedGrows(ds: seq<Delivery>, ds': seq<Delivery>, recent: seq<Event>, n: nat, e: Event, m: nat,
      subscriptions: seq<Subscription>)
    requires ds <= ds' && n <= |recent| && m <= |subscriptions|
    requires Served(ds, recent, n, subscriptions) && ServedEvent(ds, e, m, subscriptions)
    ensures Served(ds', recent, n, subscriptions) && ServedEvent(ds', e, m, subscriptions)
  {
    forall i, s | 0 <= i < n && s in subscriptions && Listens(s, recent[i]) ensures Delivered(ds', s.id, recent[i].id) {
      StillDelivered(ds, ds', s.id, recent[i].id);
    }
    forall j | 0 <= j < m && Listens(subscriptions[j], e) ensures Delivered(ds', subscriptions[j].id, e.id) {
      StillDelivered(ds, ds', subscriptions[j].id, e.id);
    }
  }

  /** The deliveries added to `ds` have identifiers no older delivery or job knows. */
  predicate NewIds(ds: seq<Delivery>, ds': seq<Delivery>, first: nat) {
    forall k :: |ds| <= k < |ds'| ==> ds'[k].id >= first
  }

  /** One job, and no more, sends the delivery. */
  ghost predicate QueuedOnce(js: seq<SendJob>, d: Delivery) {
    && (exists j :: 0 <= j < |js| && js[j] == SendJob(d.organization, d.id))
    && (forall i, j :: 0 <= i < |js| && 0 <= j < |js| && js[i].delivery == d.id && js[j].delivery == d.id ==> i == j)
  }

  lemma NewIsQueuedOnce(ds: seq<Delivery>, js: seq<SendJob>, ds': seq<Delivery>, js': seq<SendJob>, recent: seq<Event>,
                        subscriptions: seq<Subscription>, first: nat, k: nat)
    requires Extends(ds, js, ds', js', recent, subscriptions) && UniqueDeliveries(ds') && NewIds(ds, ds', first)
    requires forall j :: j in js ==> j.delivery < first
    requires |ds| <= k < |ds'|
    ensures QueuedOnce(js', ds'[k])
  {
    var d, at := ds'[k], |js| + k - |ds|;
    assert js'[at] == SendJob(d.organization, d.id);
    forall i | 0 <= i < |js| ensures js'[i].delivery != d.id { assert js'[i] == js[i]; }
    forall i | |js| <= i < |js'| && i != at ensures js'[i].delivery != d.id {
      var n := |ds| + i - |js|;
      assert js'[|js| + n - |ds|] == SendJob(ds'[n].organization, ds'[n].id);
    }
  }

  /** When every owed delivery exists already, a pass can only leave the state as it is. */
  lemma NothingOwed(ds: seq<Delivery>, js: seq<SendJob>, ds': seq<Delivery>, js': seq<SendJob>, recent: seq<Event>,
      subscriptions: seq<Subscription>)
    requires Extends(ds, js, ds', js', recent, subscriptions)
    requires forall e, s :: e in recent && s in subscriptions && Listens(s, e) ==> DeliveredOnce(ds, s.id, e.id)
    ensures ds' == ds && js' == js
  {
    var firstNew := if |ds'| > |ds| then Some(ds'[|ds|]) else None;
    forall d | Owed(recent, subscriptions, d) ensures Delivered(ds, d.subscription, d.event) {
      var e, s :| e in recent && s in subscriptions && Listens(s, e) && d.event == e.id && d.subscription == s.id;
      assert DeliveredOnce(ds, s.id, e.id);
    }
    assert firstNew == None;
  }

  lemma ServedByPlace(ds: seq<Delivery>, events: seq<Event>, subscriptions: seq<Subscription>, limit: int)
    requires forall e, s :: e in MostRecent(events, Considered(limit)) && s in subscriptions && Listens(s, e) ==>
                              DeliveredOnce(ds, s.id, e.id)
    ensures forall k: nat, j: nat :: Owes(events, subscriptions, limit, k, j) ==>
                                       DeliveredOnce(ds, subscriptions[j].id, events[|events| - 1 - k].id)
  {
    forall k: nat, j: nat | Owes(events, subscriptions, limit, k, j)
      ensures DeliveredOnce(ds, subscriptions[j].id, events[|events| - 1 - k].id)
    {
      OwesIsConsidered(events, subscriptions, limit, k, j);
      var e := MostRecent(events, Considered(limit))[k];
      assert e in MostRecent(events, Considered(limit)) && subscriptions[j] in subscriptions;
    }
  }

  class Outbox {
    var subscriptions: seq<Subscription>
    var events: seq<Event>
    var deliveries: seq<Delivery>
    var jobs: seq<SendJob>
    var nextId: nat

    ghost predicate Valid()
      reads this
    {
      && UniqueDeliveries(deliveries)
      && (forall d :: d in deliveries ==> d.id < nextId)
      && (forall j :: j in jobs ==> j.delivery < nextId)
    }

    constructor (subscriptions: seq<Subscription>, events: seq<Event>)
      ensures Valid() && this.subscriptions == subscriptions && this.events == events && deliveries == [] && jobs == []
    {
      this.subscriptions := subscriptions;
      this.events := events;
      deliveries, jobs, nextId := [], [], 0;
    }

    /** Queue the deliveries of one event; the query for a duplicate sees what this pass added. */
    method EnqueueEvent(recent: seq<Event>, i: nat, ghost ds: seq<Delivery>, ghost js: seq<SendJob>, ghost first: nat)
      returns (created: nat)
      requires Valid() && i < |recent|
      requires first <= nextId && NewIds(ds, deliveries, first)
      requires Extends(ds, js, deliveries, jobs, recent, subscriptions) && Served(deliveries, recent, i, subscriptions)
      modifies this`deliveries, this`jobs, this`nextId
      ensures Valid() && Extends(ds, js, deliveries, jobs, recent, subscriptions)
      ensures Served(deliveries, recent, i + 1, subscriptions)
      ensures first <= nextId && NewIds(ds, deliveries, first)
      ensures old(deliveries) <= deliveries && created == |deliveries| - |old(deliveries)|
    {
      created := 0;
      var e := recent[i];
      for j := 0 to |subscriptions|
        invariant Valid() && Extends(ds, js, deliveries, jobs, recent, subscriptions)
        invariant first <= nextId && NewIds(ds, deliveries, first)
        invariant Served(deliveries, recent, i, subscriptions) && ServedEvent(deliveries, e, j, subscriptions)
        invariant old(deliveries) <= deliveries && created == |deliveries| - |old(deliveries)|
      {
        var s := subscriptions[j];
        if Listens(s, e) && !Delivered(deliveries, s.id, e.id) {
          var d := Delivery(nextId, e.organization, s.id, e.id);
          AddKeepsUnique(deliveries, d);
          AddExtends(ds, js, deliveries, jobs, recent, subscriptions, s, e, nextId);
          ServedGrows(deliveries, deliveries + [d], recent, i, e, j, subscriptions);
          deliveries := deliveries + [d];
          jobs := jobs + [SendJob(e.organization, nextId)];
          nextId := nextId + 1;
          created := created + 1;
          assert DeliveredAt(deliveries, |deliveries| - 1, s.id, e.id);
        }
      }
    }

    /**
     * One pass: afterwards every event within the limit has exactly one delivery for each subscription
     * that listens to it, and every new delivery was owed and missing before and has exactly one job.
     */
    method EnqueueDomainEventDeliveries(limit: int) returns (created: nat)
      requires Valid()
      modifies this`deliveries, this`jobs, this`nextId
      ensures Valid()
      ensures Extends(old(deliveries), old(jobs), deliveries, jobs, MostRecent(events, Considered(limit)),
              subscriptions)
      ensures created == |deliveries| - |old(deliveries)|
      ensures forall k :: |old(deliveries)| <= k < |deliveries| ==> QueuedOnce(jobs, deliveries[k])
      ensures forall e, s :: e in MostRecent(events, Considered(limit)) && s in subscriptions && Listens(s, e) ==>
                               DeliveredOnce(deliveries, s.id, e.id)
      ensures forall k: nat, j: nat :: Owes(events, subscriptions, limit, k, j) ==>
                                         DeliveredOnce(deliveries, subscriptions[j].id, events[|events| - 1 - k].id)
      ensures forall n :: |old(deliveries)| <= n < |deliveries| ==>
                            IsOwed(events, subscriptions, limit, deliveries[n])
    {
      created := 0;
      var recent := MostRecent(events, Considered(limit));
      for i := 0 to |recent|
        invariant Valid() && Extends(old(deliveries), old(jobs), deliveries, jobs, recent, subscriptions)
        invariant Served(deliveries, recent, i, subscriptions)
        invariant old(nextId) <= nextId && NewIds(old(deliveries), deliveries, old(nextId))
        invariant created == |deliveries| - |old(deliveries)|
      {
        var more := EnqueueEvent(recent, i, old(deliveries), old(jobs), old(nextId));
        created := created + more;
      }
      forall k | |old(deliveries)| <= k < |deliveries| ensures QueuedOnce(jobs, deliveries[k]) {
        NewIsQueuedOnce(old(deliveries), old(jobs), deliveries, jobs, recent, subscriptions, old(nextId), k);
      }
      forall e, s | e in recent && s in subscriptions && Listens(s, e) ensures DeliveredOnce(deliveries, s.id, e.id) {
        UniqueMeansOnce(deliveries, s.id, e.id);
      }
      ServedByPlace(deliveries, events, subscriptions, limit);
      forall n | |old(deliveries)| <= n < |deliveries| ensures IsOwed(events, subscriptions, limit, deliveries[n]) {
        OwedIsOwed(events, subscriptions, limit, deliveries[n]);
      }
    }

    /** A second pass over the same events and subscriptions creates nothing. */
    method EnqueueTwice(limit: int) returns (first: nat, second: nat)
      requires Valid()
      modifies this`deliveries, this`jobs, this`nextId
      ensures Valid() && second == 0
    {
      first := EnqueueDomainEventDeliveries(limit);
      ghost var ds, js := deliveries, jobs;
      second := EnqueueDomainEventDeliveries(limit);
      NothingOwed(ds, js, deliveries, jobs, MostRecent(events, Considered(limit)), subscriptions);
    }
  }
}
