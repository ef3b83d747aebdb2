/**
 * The per-call protocol of `CacheLayer.wrap`: the local hot store, the
 * optional remote tier, the fallback-first shortcut, the per-key
 * deduplication registry `concurrentControl`, the real upstream call and the
 * fallback rescue when it fails, each recording one stats outcome.
 *
 * A wrapped call suspends at its `await`s; each piece between two of them is
 * one method here, and what the `await` delivered is that method's input:
 *   LookupLocal          step 1 (no await before it);
 *   LookupRemote         step 2, given what `remoteCache.get` resolved to;
 *   LookupShared         steps 3 and 4, and the marks before the upstream call;
 *   OwnerSucceeded       step 5 after the upstream call returned a value;
 *   OwnerFailed          step 6 after it threw or timed out;
 *   WaiterSettled        a waiter whose deferred was settled by `notifyWaiting`;
 *   WaiterTimedOut       a waiter whose wait timed out first.
 * A call with no remote tier runs LookupLocal and LookupShared in one turn.
 *
 * A waiter is a ticket number; a settled deferred is a `Delivery` appended to
 * the log `deliveries`. Writes to the remote tier and the refreshes scheduled
 * by `setImmediate` are logged too. `Date.now()` is `now`, `Math.random()` is `r`.
 */
module Layer {
  import opened CacheTypes
  import opened Schema
  import opened Stats
  import opened KeyPolicy
  import opened Local

  /** How a wrapped call ends: it returns a value or throws. */
  datatype Reply<V> = Value(value: V) | Raise(err: Error)

  /** How `notifyWaiting` settles a deferred: resolved with a value or rejected with an error. */
  datatype Settlement<V> = Resolve(value: V) | Reject(err: Error)

  /** One settled deferred: the waiter's ticket and how it was settled. */
  datatype Delivery<V> = Delivery(ticket: nat, settlement: Settlement<V>)

  /** Where a call stands after steps 3 and 4: finished, waiting with a ticket, or the owner of the upstream call. */
  datatype Step<V> = Done(reply: Reply<V>) | Waiter(ticket: nat) | Owner

  /** A refresh scheduled with `setImmediate` by a fallback-first hit. */
  datatype Job = Job(methodName: Method, key: Key)

  /** `remoteCache.set(key, {value}, ttl)`, as issued. */
  datatype RemoteWrite<V> = RemoteWrite(key: Key, value: V, ttl: real)

  /** The prefix `updateBackground` puts before the message of a failed refresh. */
  const BackgroundErrorPrefix: string := "[Error CacheProxy UpdateBackground] "

  /** The layer's own mutable state: the registry, the ticket counter and the logs. */
  datatype Control<V> = Control(
    registry: map<Key, seq<nat>>,
    nextTicket: nat,
    deliveries: seq<Delivery<V>>,
    remoteWrites: seq<RemoteWrite<V>>,
    jobs: seq<Job>,
    errors: seq<Error>)

  // ---------------------------------------------------------------------------
  // The deduplication registry

  /** The deliveries of one `notifyWaiting` pass: every waiter of the list, in list order, settled alike. */
  function Deliveries<V>(waiters: seq<nat>, s: Settlement<V>): (r: seq<Delivery<V>>)
    ensures |r| == |waiters|
    ensures forall i :: 0 <= i < |r| ==> r[i] == Delivery(waiters[i], s)
  {
    if waiters == [] then [] else [Delivery(waiters[0], s)] + Deliveries(waiters[1..], s)
  }

  /** `checkConcurrent(key)`: the new registry state, and the caller's ticket when it must wait. */
  function CheckState<V>(c: Control<V>, key: Key): (Control<V>, Option<nat>) {
    if key in c.registry then
      (c.(registry := c.registry[key := c.registry[key] + [c.nextTicket]], nextTicket := c.nextTicket + 1),
       Some(c.nextTicket))
    else
      (c.(registry := c.registry[key := []]), None)
  }

  /** `notifyWaiting(key, err, value)`: the key's registration is removed and each of its waiters settled. */
  function NotifyState<V>(c: Control<V>, key: Key, s: Settlement<V>): Control<V> {
    if key in c.registry then
      c.(registry := c.registry - {key}, deliveries := c.deliveries + Deliveries(c.registry[key], s))
    else c
  }

  /** Every ticket handed out so far is below the counter. */
  ghost predicate TicketsIssued<V>(c: Control<V>) {
    forall k, t :: k in c.registry && t in c.registry[k] ==> t < c.nextTicket
  }

  /**
   * For an unregistered key the caller becomes the owner and the key is
   * registered with no waiters; for a registered one the caller gets a fresh
   * ticket appended at the end of the list and is not the owner. Other keys
   * and the deliveries are untouched.
   */
  lemma CheckConcurrentEffect<V>(c: Control<V>, key: Key)
    requires TicketsIssued(c)
    ensures var (d, ticket) := CheckState(c, key);
      && TicketsIssued(d)
      && (ticket.None? <==> key !in c.registry)
      && (key !in c.registry ==> d.registry == c.registry[key := []])
      && (key in c.registry ==>
            && ticket == Some(c.nextTicket) && c.nextTicket !in c.registry[key]
            && d.registry[key] == c.registry[key] + [c.nextTicket])
      && (forall k :: k != key ==> (k in d.registry <==> k in c.registry)
                                   && (k in c.registry ==> d.registry[k] == c.registry[k]))
      && d.deliveries == c.deliveries
  {
  }

  /**
   * Notifying a registered key unregisters it and settles each of its
   * waiters, in list order, with the same settlement; notifying an
   * unregistered key changes nothing; other keys stay as they were.
   */
  lemma NotifySettlesAll<V>(c: Control<V>, key: Key, s: Settlement<V>)
    ensures var d := NotifyState(c, key, s);
      && key !in d.registry
      && (key !in c.registry ==> d == c)
      && (key in c.registry ==>
            && |d.deliveries| == |c.deliveries| + |c.registry[key]|
            && d.deliveries[..|c.deliveries|] == c.deliveries
            && forall i :: 0 <= i < |c.registry[key]| ==>
                 d.deliveries[|c.deliveries| + i] == Delivery(c.registry[key][i], s))
      && (forall k :: k != key ==> (k in d.registry <==> k in c.registry)
                                   && (k in c.registry ==> d.registry[k] == c.registry[k]))
  {
    if key in c.registry {
      var d := NotifyState(c, key, s);
      assert d.deliveries == c.deliveries + Deliveries(c.registry[key], s);
    }
  }

  /** A second notification of the same key is a no-op. */
  lemma NotifyTwice<V>(c: Control<V>, key: Key, s: Settlement<V>, s2: Settlement<V>)
    ensures NotifyState(NotifyState(c, key, s), key, s2) == NotifyState(c, key, s)
  {
  }

  /** The settlement of the first delivery to `ticket`, if any. */
  function SettlementOf<V>(deliveries: seq<Delivery<V>>, ticket: nat): Option<Settlement<V>> {
    if deliveries == [] then None
    else if deliveries[0].ticket == ticket then Some(deliveries[0].settlement)
    else SettlementOf(deliveries[1..], ticket)
  }

  /** A ticket has a settlement exactly when some delivery went to it, and then that delivery is in the log. */
  lemma {:induction false} SettlementOfDelivered<V>(deliveries: seq<Delivery<V>>, ticket: nat)
    ensures SettlementOf(deliveries, ticket).None? <==> forall i :: 0 <= i < |deliveries| ==> deliveries[i].ticket != ticket
    ensures SettlementOf(deliveries, ticket).Some? ==> Delivery(ticket, SettlementOf(deliveries, ticket).value) in deliveries
  {
    if deliveries != [] && deliveries[0].ticket != ticket {
      SettlementOfDelivered(deliveries[1..], ticket);
      assert forall i :: 1 <= i < |deliveries| ==> deliveries[i] == deliveries[1..][i - 1];
    }
  }

  /** Appending deliveries never changes how an already settled ticket was settled. */
  lemma {:induction false} SettlementKept<V>(deliveries: seq<Delivery<V>>, more: seq<Delivery<V>>, ticket: nat)
    requires SettlementOf(deliveries, ticket).Some?
    ensures SettlementOf(deliveries + more, ticket) == SettlementOf(deliveries, ticket)
  {
    if deliveries[0].ticket != ticket {
      assert (deliveries + more)[1..] == deliveries[1..] + more;
      SettlementKept(deliveries[1..], more, ticket);
    }
  }

  /** Every waiter a notification reached, and not settled before it, gets that notification's settlement. */
  lemma SettledByNotify<V>(before: seq<Delivery<V>>, waiters: seq<nat>, s: Settlement<V>, ticket: nat)
    requires ticket in waiters && SettlementOf(before, ticket).None?
    ensures SettlementOf(before + Deliveries(waiters, s), ticket) == Some(s)
  {
    SettlementAfterUnsettled(before, Deliveries(waiters, s), ticket);
    SettledInDeliveries(waiters, s, ticket);
  }

  /** Behind a log that never settled `ticket`, the settlement of `ticket` is decided by what follows. */
  lemma {:induction false} SettlementAfterUnsettled<V>(a: seq<Delivery<V>>, b: seq<Delivery<V>>, ticket: nat)
    requires SettlementOf(a, ticket).None?
    ensures SettlementOf(a + b, ticket) == SettlementOf(b, ticket)
  {
    if a == [] {
      assert a + b == b;
    } else {
      assert (a + b)[0] == a[0];
      assert (a + b)[1..] == a[1..] + b;
      SettlementAfterUnsettled(a[1..], b, ticket);
    }
  }

  /** In the deliveries of one notification, each of its waiters is settled with its settlement. */
  lemma {:induction false} SettledInDeliveries<V>(waiters: seq<nat>, s: Settlement<V>, ticket: nat)
    requires ticket in waiters
    ensures SettlementOf(Deliveries(waiters, s), ticket) == Some(s)
  {
    var ds := Deliveries(waiters, s);
    assert ds == [Delivery(waiters[0], s)] + Deliveries(waiters[1..], s);
    if waiters[0] != ticket {
      assert ticket in waiters[1..];
      assert ds[1..] == Deliveries(waiters[1..], s);
      SettledInDeliveries(waiters[1..], s, ticket);
    }
  }

  // ---------------------------------------------------------------------------
  // Stats marks relayed from the local store

  /** The category a local `expired` event is counted under. */
  function ExpiryCategory(tier: Tier): Category {
    if tier == LocalTier then Category.Expired else FallbackExpired
  }

  /** The relay of `expired` events: one mark per event, in order; other events mark nothing. */
  function MarkExpiries(s: StatsState, events: seq<Event>): StatsState
    decreases |events|
  {
    if events == [] then s
    else
      var e := events[0];
      var t := if e.Expired? then MarkState(s, e.methodName, ExpiryCategory(e.tier)) else s;
      MarkExpiries(t, events[1..])
  }

  /** Each invoked refresh closure marks `background` and then `update` for its method. */
  function MarkRefreshes(s: StatsState, invoked: seq<Refresher>): StatsState
    decreases |invoked|
  {
    if invoked == [] then s
    else MarkRefreshes(MarkState(MarkState(s, invoked[0].methodName, Background), invoked[0].methodName, Update), invoked[1..])
  }

  /** The number of local-tier `expired` events in a log. */
  function LocalExpiries(events: seq<Event>): nat {
    if events == [] then 0
    else (if events[0].Expired? && events[0].tier == LocalTier then 1 else 0) + LocalExpiries(events[1..])
  }

  /** Relaying expiries raises the total `expired` counter by exactly the number of local-tier expiries. */
  lemma {:induction false} MarkExpiriesCounts(s: StatsState, events: seq<Event>)
    ensures Count(MarkExpiries(s, events).total, Category.Expired) == Count(s.total, Category.Expired) + LocalExpiries(events)
    decreases |events|
  {
    if events != [] {
      var e := events[0];
      var t := if e.Expired? then MarkState(s, e.methodName, ExpiryCategory(e.tier)) else s;
      if e.Expired? {
        MarkCountsOne(s, e.methodName, ExpiryCategory(e.tier));
      }
      MarkExpiriesCounts(t, events[1..]);
    }
  }

  /** Relaying the refreshes of a pass raises both total `background` and `update` by the number of closures invoked. */
  lemma {:induction false} MarkRefreshesCounts(s: StatsState, invoked: seq<Refresher>)
    ensures Count(MarkRefreshes(s, invoked).total, Background) == Count(s.total, Background) + |invoked|
    ensures Count(MarkRefreshes(s, invoked).total, Update) == Count(s.total, Update) + |invoked|
    decreases |invoked|
  {
    if invoked != [] {
      var m := invoked[0].methodName;
      MarkCountsOne(s, m, Background);
      MarkCountsOne(MarkState(s, m, Background), m, Update);
      MarkRefreshesCounts(MarkState(MarkState(s, m, Background), m, Update), invoked[1..]);
    }
  }

  /** The relayed marks keep the stats invariant. */
  lemma {:induction false} MarkExpiriesInv(s: StatsState, events: seq<Event>)
    requires Inv(s)
    ensures Inv(MarkExpiries(s, events))
    decreases |events|
  {
    if events != [] {
      var e := events[0];
      if e.Expired? {
        MarkPreservesInv(s, e.methodName, ExpiryCategory(e.tier));
      }
      MarkExpiriesInv(if e.Expired? then MarkState(s, e.methodName, ExpiryCategory(e.tier)) else s, events[1..]);
    }
  }

  /** The relayed refresh marks keep the stats invariant. */
  lemma {:induction false} MarkRefreshesInv(s: StatsState, invoked: seq<Refresher>)
    requires Inv(s)
    ensures Inv(MarkRefreshes(s, invoked))
    decreases |invoked|
  {
    if invoked != [] {
      var m := invoked[0].methodName;
      MarkPreservesInv(s, m, Background);
      MarkPreservesInv(MarkState(s, m, Background), m, Update);
      MarkRefreshesInv(MarkState(MarkState(s, m, Background), m, Update), invoked[1..]);
    }
  }

  // ---------------------------------------------------------------------------
  // The layer

  class CacheLayer<V> {
    const options: Options
    const local: LocalCache<V>
    const stats: SimpleStats
    /** `concurrentControl`: key to the tickets of its waiting list, in arrival order. */
    var concurrentControl: map<Key, seq<nat>>
    var nextTicket: nat
    /** Every deferred settled so far, in settlement order. */
    var deliveries: seq<Delivery<V>>
    var remoteWrites: seq<RemoteWrite<V>>
    /** Refreshes scheduled by fallback-first hits and not yet run, oldest first. */
    var jobs: seq<Job>
    /** The errors emitted by failed scheduled refreshes. */
    var errors: seq<Error>

    function ControlState(): Control<V>
      reads this
    {
      Control(concurrentControl, nextTicket, deliveries, remoteWrites, jobs, errors)
    }

    ghost predicate Valid()
      reads this, local, stats
    {
      && local.Valid()
      && local.options == options
      && TicketsIssued(ControlState())
    }

    /** A layer over validated options: empty stores, no registrations, fresh counters. */
    constructor (options: Options)
      requires ValidOptions(options)
      requires options.fallback ==> options.fallbackMax == options.fallbackMax.Floor as real
      ensures Valid() && this.options == options
      ensures fresh(local) && fresh(stats)
      ensures local.State() == LocalState(map[], map[], if options.fallback then Some(FallbackStore(map[], [])) else None, None, [])
      ensures stats.State() == InitialState
      ensures ControlState() == Control(map[], 0, [], [], [], [])
    {
      this.options := options;
      local := new LocalCache(options);
      stats := new SimpleStats(options.statsInterval);
      concurrentControl := map[];
      nextTicket := 0;
      deliveries := [];
      remoteWrites := [];
      jobs := [];
      errors := [];
    }

    /** The remote write `setCache` issues, if any: only for a non-local-only write with a remote tier. */
    function RemoteSetOf(key: Key, value: V, ttl: real, localOnly: bool): seq<RemoteWrite<V>>
      reads this
    {
      if !localOnly && options.remoteCache.Remote? then [RemoteWrite(key, value, ttl)] else []
    }

    /** `setCache(method, key, value, {localOnly})`: the hot entry with the jittered TTL, and the remote write. */
    method SetCache(name: Method, key: Key, value: V, localOnly: bool, now: real, r: real)
      requires Valid()
      modifies this, local
      ensures Valid()
      ensures local.State() == old(local.State()).(main := Put(old(local.mainCache), key, value, RandomTtl(options, name, r), name, now))
      ensures ControlState() == old(ControlState()).(remoteWrites := old(remoteWrites) + RemoteSetOf(key, value, RandomTtl(options, name, r), localOnly))
    {
      var ttl := RandomTtl(options, name, r);
      local.Set(key, value, ttl, name, now);
      remoteWrites := remoteWrites + RemoteSetOf(key, value, ttl, localOnly);
    }

    /** `checkConcurrent(key)`. */
    method CheckConcurrent(key: Key) returns (ticket: Option<nat>)
      modifies this
      ensures (ControlState(), ticket) == CheckState(old(ControlState()), key)
    {
      if key in concurrentControl {
        ticket := Some(nextTicket);
        concurrentControl := concurrentControl[key := concurrentControl[key] + [nextTicket]];
        nextTicket := nextTicket + 1;
      } else {
        concurrentControl := concurrentControl[key := []];
        ticket := None;
      }
    }

    /** `notifyWaiting(key, err, value)`: the registration is removed, then its waiters settled one by one. */
    method NotifyWaiting(key: Key, s: Settlement<V>)
      modifies this
      ensures ControlState() == NotifyState(old(ControlState()), key, s)
    {
      if key in concurrentControl {
        var waitingList := concurrentControl[key];
        concurrentControl := concurrentControl - {key};
        var i := 0;
        while i < |waitingList|
          invariant 0 <= i <= |waitingList|
          invariant ControlState() == old(ControlState()).(registry := old(concurrentControl) - {key},
                                                          deliveries := old(deliveries) + Deliveries(waitingList[..i], s))
        {
          assert waitingList[..i + 1] == waitingList[..i] + [waitingList[i]];
          assert Deliveries(waitingList[..i + 1], s) == Deliveries(waitingList[..i], s) + [Delivery(waitingList[i], s)];
          deliveries := deliveries + [Delivery(waitingList[i], s)];
          i := i + 1;
        }
        assert waitingList[..i] == waitingList;
      }
    }

    /** Step 1: a hot hit returns the stored value and marks `local`. */
    method LookupLocal(key: Key, name: Method, now: real) returns (hit: Option<V>)
      requires Valid()
      modifies local, stats
      ensures Valid()
      ensures hit.Some? <==> key in old(local.mainCache)
      ensures hit.Some? ==>
        && hit.value == old(local.mainCache)[key].value
        && local.State() == old(local.State()).(registry := Touch(old(local.bgMap), key, now))
        && stats.State() == MarkState(old(stats.State()), name, Local)
      ensures hit.None? ==> local.State() == old(local.State()) && stats.State() == old(stats.State())
    {
      if local.Has(key) {
        var wrapped := local.Get(key, now);
        stats.Mark(name, Local);
        hit := Some(wrapped.value);
      } else {
        hit := None;
      }
    }

    /** Step 2, given what the remote tier resolved to: a hit is written to the hot store only and marks `remote`. */
    method LookupRemote(key: Key, name: Method, remote: Option<V>, now: real, r: real) returns (hit: Option<V>)
      requires Valid() && options.remoteCache.Remote?
      modifies this, local, stats
      ensures Valid()
      ensures hit == remote
      ensures ControlState() == old(ControlState())
      ensures remote.Some? ==>
        && local.State() == old(local.State()).(main := Put(old(local.mainCache), key, remote.value, RandomTtl(options, name, r), name, now))
        && stats.State() == MarkState(old(stats.State()), name, Category.Remote)
      ensures remote.None? ==> local.State() == old(local.State()) && stats.State() == old(stats.State())
    {
      if remote.Some? {
        SetCache(name, key, remote.value, true, now, r);
        stats.Mark(name, Category.Remote);
      }
      hit := remote;
    }

    /** Step 3: a live fallback entry is returned, written to the hot store only, and a refresh is scheduled. */
    method FallbackFirstHit(key: Key, name: Method, now: real, r: real) returns (value: V)
      requires Valid() && local.HasInFallback(key, now)
      modifies this, local, stats
      ensures Valid()
      ensures old(local.GetFromFallback(key, now)) == Cached(value)
      ensures local.State() == old(local.State()).(main := Put(old(local.mainCache), key, value, RandomTtl(options, name, r), name, now))
      ensures stats.State() == MarkState(old(stats.State()), name, FallbackFirst)
      ensures ControlState() == old(ControlState()).(jobs := old(jobs) + [Job(name, key)])
    {
      var wrapped := local.GetFromFallback(key, now);
      value := wrapped.value;
      jobs := jobs + [Job(name, key)];
      stats.Mark(name, FallbackFirst);
      SetCache(name, key, value, true, now, r);
    }

    /**
     * Steps 3 and 4: the fallback-first shortcut; otherwise the call joins the
     * key's waiting list (marking `wait`) or becomes the owner (marking `miss`,
     * then `update` as the upstream call is issued).
     */
    method LookupShared(key: Key, name: Method, now: real, r: real) returns (step: Step<V>)
      requires Valid()
      modifies this, local, stats
      ensures Valid()
      ensures options.fallbackFirst && old(local.HasInFallback(key, now)) ==>
        && step.Done? && step.reply.Value?
        && old(local.GetFromFallback(key, now)) == Cached(step.reply.value)
        && local.State() == old(local.State()).(main := Put(old(local.mainCache), key, step.reply.value, RandomTtl(options, name, r), name, now))
        && stats.State() == MarkState(old(stats.State()), name, FallbackFirst)
        && ControlState() == old(ControlState()).(jobs := old(jobs) + [Job(name, key)])
      ensures !(options.fallbackFirst && old(local.HasInFallback(key, now))) ==>
        && local.State() == old(local.State())
        && var (c, ticket) := CheckState(old(ControlState()), key);
        && ControlState() == c
        && (ticket.Some? ==> step == Waiter(ticket.value) && stats.State() == MarkState(old(stats.State()), name, Wait))
        && (ticket.None? ==> step == Owner
                             && stats.State() == MarkState(MarkState(old(stats.State()), name, Miss), name, Update))
    {
      if options.fallbackFirst && local.HasInFallback(key, now) {
        var value := FallbackFirstHit(key, name, now, r);
        return Done(Value(value));
      }
      ghost var before := ControlState();
      CheckConcurrentEffect(before, key);
      var ticket := CheckConcurrent(key);
      if ticket.Some? {
        stats.Mark(name, Wait);
        step := Waiter(ticket.value);
      } else {
        stats.Mark(name, Miss);
        stats.Mark(name, Update);
        step := Owner;
      }
    }

    /** `checkNeedBackground`: with `bgUpdate` on, an unregistered key is registered for background refresh. */
    method CheckNeedBackground(key: Key, name: Method, now: real)
      requires Valid()
      modifies local
      ensures Valid()
      ensures !options.bgUpdate ==> local.State() == old(local.State())
      ensures options.bgUpdate ==>
        && local.bgMap == Register(old(local.bgMap), key, Refresher(name, key), now)
        && local.mainCache == old(local.mainCache) && local.fallbackCache == old(local.fallbackCache)
        && local.events == old(local.events)
        && local.bgTimer == if key !in old(local.bgMap) && old(local.bgTimer).None? then Some(0.0) else old(local.bgTimer)
    {
      if options.bgUpdate && local.NotInBackground(key) {
        local.NeedBackgroundUpdate(key, Refresher(name, key), now);
      }
    }

    /** Step 5: the upstream call returned `value`; it is cached, the waiters get it, and the key may be registered for refresh. */
    method OwnerSucceeded(key: Key, name: Method, value: V, now: real, r: real) returns (reply: Reply<V>)
      requires Valid()
      modifies this, local
      ensures Valid()
      ensures reply == Value(value)
      ensures ControlState() == NotifyState(old(ControlState()), key, Resolve(value))
                                  .(remoteWrites := old(remoteWrites) + RemoteSetOf(key, value, RandomTtl(options, name, r), false))
      ensures local.mainCache == Put(old(local.mainCache), key, value, RandomTtl(options, name, r), name, now)
      ensures local.bgMap == if options.bgUpdate then Register(old(local.bgMap), key, Refresher(name, key), now) else old(local.bgMap)
      ensures local.bgTimer == if options.bgUpdate && key !in old(local.bgMap) && old(local.bgTimer).None?
                               then Some(0.0) else old(local.bgTimer)
      ensures local.fallbackCache == old(local.fallbackCache) && local.events == old(local.events)
    {
      SetCache(name, key, value, false, now, r);
      NotifyWaiting(key, Resolve(value));
      CheckNeedBackground(key, name, now);
      reply := Value(value);
    }

    /**
     * Step 6: the upstream call threw `err` (or timed out). With `fallback`
     * on and a live fallback entry, that value is returned and given to the
     * waiters (mark `fallback`); otherwise the waiters are rejected with `err`
     * and it is rethrown (mark `failed`). The hot store is not written.
     */
    method OwnerFailed(key: Key, name: Method, err: Error, now: real) returns (reply: Reply<V>)
      requires Valid()
      modifies this, stats
      ensures Valid()
      ensures options.fallback && local.HasInFallback(key, now) ==>
        && local.GetFromFallback(key, now).Cached?
        && reply == Value(local.GetFromFallback(key, now).value)
        && stats.State() == MarkState(old(stats.State()), name, Fallback)
        && ControlState() == NotifyState(old(ControlState()), key, Resolve(reply.value))
      ensures !(options.fallback && local.HasInFallback(key, now)) ==>
        && reply == Raise(err)
        && stats.State() == MarkState(old(stats.State()), name, Failed)
        && ControlState() == NotifyState(old(ControlState()), key, Reject(err))
    {
      if options.fallback && local.HasInFallback(key, now) {
        var wrapped := local.GetFromFallback(key, now);
        stats.Mark(name, Fallback);
        NotifyWaiting(key, Resolve(wrapped.value));
        return Value(wrapped.value);
      }
      stats.Mark(name, Failed);
      NotifyWaiting(key, Reject(err));
      reply := Raise(err);
    }

    /**
     * A waiter whose deferred was settled: a value is returned as is; a
     * rejection marks `failedWait`, releases whatever registration the key
     * now has with that error, and is rethrown.
     */
    method WaiterSettled(key: Key, name: Method, ticket: nat) returns (reply: Reply<V>)
      requires Valid() && SettlementOf(deliveries, ticket).Some?
      modifies this, stats
      ensures Valid()
      ensures SettlementOf(old(deliveries), ticket).value.Resolve? ==>
        && reply == Value(SettlementOf(old(deliveries), ticket).value.value)
        && ControlState() == old(ControlState()) && stats.State() == old(stats.State())
      ensures SettlementOf(old(deliveries), ticket).value.Reject? ==>
        && reply == Raise(SettlementOf(old(deliveries), ticket).value.err)
        && stats.State() == MarkState(old(stats.State()), name, FailedWait)
        && ControlState() == NotifyState(old(ControlState()), key, Reject(reply.err))
    {
      var settlement := SettlementOf(deliveries, ticket).value;
      if settlement.Resolve? {
        return Value(settlement.value);
      }
      stats.Mark(name, FailedWait);
      NotifyWaiting(key, Reject(settlement.err));
      reply := Raise(settlement.err);
    }

    /**
     * A waiter whose wait timed out before its deferred was settled: it marks
     * `failedWait`, releases the key's whole registration with the timeout
     * error (rejecting every other waiter too) and rethrows it.
     */
    method WaiterTimedOut(key: Key, name: Method, ticket: nat) returns (reply: Reply<V>)
      requires Valid() && SettlementOf(deliveries, ticket).None?
      modifies this, stats
      ensures Valid()
      ensures reply == Raise(TimeoutError)
      ensures stats.State() == MarkState(old(stats.State()), name, FailedWait)
      ensures ControlState() == NotifyState(old(ControlState()), key, Reject(TimeoutError))
    {
      stats.Mark(name, FailedWait);
      NotifyWaiting(key, Reject(TimeoutError));
      reply := Raise(TimeoutError);
    }

    /** A scheduled refresh starts (its `setImmediate` fires): the oldest job leaves the queue and marks `background` and `update`. */
    method StartJob() returns (job: Job)
      requires Valid() && jobs != []
      modifies this, stats
      ensures Valid()
      ensures job == old(jobs)[0]
      ensures ControlState() == old(ControlState()).(jobs := old(jobs)[1..])
      ensures stats.State() == MarkState(MarkState(old(stats.State()), job.methodName, Background), job.methodName, Update)
    {
      job := jobs[0];
      jobs := jobs[1..];
      MarkRefresh(job.methodName);
    }

    /** The refresh of `job` returned `value`: it is cached locally and remotely. */
    method JobSucceeded(job: Job, value: V, now: real, r: real)
      requires Valid()
      modifies this, local
      ensures Valid()
      ensures local.State() == old(local.State()).(main := Put(old(local.mainCache), job.key, value, RandomTtl(options, job.methodName, r), job.methodName, now))
      ensures ControlState() == old(ControlState()).(remoteWrites := old(remoteWrites) + RemoteSetOf(job.key, value, RandomTtl(options, job.methodName, r), false))
    {
      SetCache(job.methodName, job.key, value, false, now, r);
    }

    /** The refresh of `job` failed with `err`: it marks `failedBackground` and emits the error with its message prefixed. */
    method JobFailed(job: Job, err: Error)
      requires Valid()
      modifies this, stats
      ensures Valid()
      ensures stats.State() == MarkState(old(stats.State()), job.methodName, FailedBackground)
      ensures ControlState() == old(ControlState()).(errors := old(errors) + [Error(BackgroundErrorPrefix + err.message)])
    {
      stats.Mark(job.methodName, FailedBackground);
      errors := errors + [Error(BackgroundErrorPrefix + err.message)];
    }

    /** The marks of one invoked refresh closure: `background`, then `update` as it calls upstream. */
    method MarkRefresh(name: Method)
      requires Valid()
      modifies stats
      ensures Valid()
      ensures stats.State() == MarkState(MarkState(old(stats.State()), name, Background), name, Update)
    {
      stats.Mark(name, Background);
      stats.Mark(name, Update);
    }

    /** The relay of `expired` events: each one marks `expired` (local tier) or `fallbackExpired` for its method. */
    method RelayExpiries(newEvents: seq<Event>)
      requires Valid()
      modifies stats
      ensures Valid()
      ensures stats.State() == MarkExpiries(old(stats.State()), newEvents)
    {
      var i := 0;
      while i < |newEvents|
        invariant 0 <= i <= |newEvents|
        invariant Valid()
        invariant MarkExpiries(stats.State(), newEvents[i..]) == MarkExpiries(old(stats.State()), newEvents)
      {
        assert newEvents[i..][1..] == newEvents[i + 1..];
        var e := newEvents[i];
        if e.Expired? {
          stats.Mark(e.methodName, ExpiryCategory(e.tier));
        }
        i := i + 1;
      }
      assert newEvents[i..] == [];
    }

    /** The periodic `_checkInvalid()` of the local store, with its `expired` events relayed to the stats. */
    method CheckInvalid(now: real, order: seq<Key>)
      requires Valid() && Enumerates(order, local.mainCache)
      modifies local, stats
      ensures Valid()
      ensures var r := Sweep(SweepState(old(local.mainCache), old(local.fallbackCache), old(local.events)), order, now, local.capacity);
        && local.mainCache == r.main && local.fallbackCache == r.fallback && local.events == r.events
        && |old(local.events)| <= |r.events|
        && stats.State() == MarkExpiries(old(stats.State()), r.events[|old(local.events)|..])
      ensures local.bgMap == old(local.bgMap) && local.bgTimer == old(local.bgTimer)
    {
      ghost var st := SweepState(local.mainCache, local.fallbackCache, local.events);
      var before := |local.events|;
      local.CheckInvalid(now, order);
      SweepReportsExpired(st, order, now, local.capacity);
      RelayExpiries(local.events[before..]);
    }

    /** One background pass of the local store, with each invoked refresh closure marking `background` and `update`. */
    method BackgroundPass(startTime: real, order: seq<Key>, steps: seq<BgStep<V>>, endTime: real) returns (nextDelay: real)
      requires Valid() && Enumerates(order, local.bgMap) && |steps| == |order|
      modifies local, stats
      ensures Valid()
      ensures var c := BackgroundCycle(old(local.mainCache), old(local.bgMap), old(local.events), order, steps, options, endTime - startTime);
        && Cycle(local.mainCache, local.bgMap, local.events, c.invoked, nextDelay) == c
        && stats.State() == MarkRefreshes(old(stats.State()), c.invoked)
      ensures local.fallbackCache == old(local.fallbackCache) && local.bgTimer == Some(nextDelay)
    {
      var invoked;
      nextDelay, invoked := local.UpdateBackground(startTime, order, steps, endTime);
      RelayRefreshes(invoked);
    }

    /** The marks of the refresh closures a pass invoked, in order. */
    method RelayRefreshes(invoked: seq<Refresher>)
      requires Valid()
      modifies stats
      ensures Valid()
      ensures stats.State() == MarkRefreshes(old(stats.State()), invoked)
    {
      var i := 0;
      while i < |invoked|
        invariant 0 <= i <= |invoked|
        invariant Valid()
        invariant MarkRefreshes(stats.State(), invoked[i..]) == MarkRefreshes(old(stats.State()), invoked)
      {
        assert invoked[i..][1..] == invoked[i + 1..];
        MarkRefresh(invoked[i].methodName);
        i := i + 1;
      }
      assert invoked[i..] == [];
    }
  }
}
