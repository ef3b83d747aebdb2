/**
 * Whole calls through the layer, composed from its steps: identical calls
 * that arrive together share one upstream call, and a waiter's timeout that
 * lets a second owner in while the first upstream call is still running.
 */
module Scenarios {
  import opened CacheTypes
  import opened Schema
  import opened Stats
  import opened Layer

  /** Options the scenarios run under: validated, no remote tier, no fallback-first shortcut. */
  predicate Direct(o: Options) {
    && ValidOptions(o) && o.remoteCache == NoRemote && !o.fallbackFirst
    && (o.fallback ==> o.fallbackMax == o.fallbackMax.Floor as real)
  }

  /** The tickets `0, 1, ..., n - 1`. */
  function Tickets(n: nat): (ts: seq<nat>)
    ensures |ts| == n && forall j :: 0 <= j < n ==> ts[j] == j
  {
    if n == 0 then [] else Tickets(n - 1) + [n - 1]
  }

  /**
   * `n` identical calls arrive on an empty cache before the upstream call
   * returns `v`: the first becomes the owner, the others wait. When the call
   * returns, every caller gets `v`; the counters show one `miss`, one `update`
   * and `n - 1` `wait`; and the next identical call is a local hit.
   */
  method ConcurrentIdenticalCalls<V>(o: Options, key: Key, name: Method, n: nat, v: V, now: real, r: real)
    returns (replies: seq<Reply<V>>, misses: nat, updates: nat, waits: nat, next: Option<V>)
    requires Direct(o) && n >= 1
    ensures |replies| == n && forall i :: 0 <= i < n ==> replies[i] == Value(v)
    ensures misses == 1 && updates == 1 && waits == n - 1
    ensures next == Some(v)
  {
    var layer := Open(o, key, name, now, r);
    var tickets := Gather(layer, key, name, n - 1, now, r);
    misses := Count(layer.stats.totalStats, Miss);
    updates := Count(layer.stats.totalStats, Update);
    waits := Count(layer.stats.totalStats, Wait);
    replies, next := Close(layer, key, name, tickets, v, now, r);
  }

  /** A new layer, and the first call on it: it misses and becomes the owner, marking `miss` and `update`. */
  method Open<V>(o: Options, key: Key, name: Method, now: real, r: real) returns (layer: CacheLayer<V>)
    requires Direct(o)
    ensures fresh(layer) && fresh(layer.local) && fresh(layer.stats)
    ensures layer.Valid() && !layer.options.fallbackFirst && key !in layer.local.mainCache
    ensures layer.ControlState() == Control(map[key := []], 0, [], [], [], [])
    ensures Count(layer.stats.totalStats, Miss) == 1 && Count(layer.stats.totalStats, Update) == 1
    ensures Count(layer.stats.totalStats, Wait) == 0 && Count(layer.stats.totalStats, FailedWait) == 0
  {
    layer := new CacheLayer<V>(o);
    var owner := Arrive(layer, key, name, now, r);
  }

  /** The owner's upstream call returns `v`: the owner and every waiter get `v`, and a later lookup hits the hot store. */
  method Close<V>(layer: CacheLayer<V>, key: Key, name: Method, tickets: seq<nat>, v: V, now: real, r: real)
    returns (replies: seq<Reply<V>>, next: Option<V>)
    requires layer.Valid() && layer.ControlState().registry == map[key := tickets] && layer.deliveries == []
    modifies layer, layer.local, layer.stats
    ensures |replies| == |tickets| + 1 && forall i :: 0 <= i < |replies| ==> replies[i] == Value(v)
    ensures next == Some(v)
  {
    var first := Succeed(layer, key, name, tickets, v, now, r);
    var rest := Release(layer, key, name, tickets, v);
    replies := [first] + rest;
    next := layer.LookupLocal(key, name, now);
  }

  /** The owner's upstream call returns `v`: it is cached and every waiter's deferred is resolved with it. */
  method Succeed<V>(layer: CacheLayer<V>, key: Key, name: Method, tickets: seq<nat>, v: V, now: real, r: real)
    returns (reply: Reply<V>)
    requires layer.Valid() && layer.ControlState().registry == map[key := tickets] && layer.deliveries == []
    modifies layer, layer.local
    ensures layer.Valid() && reply == Value(v)
    ensures layer.deliveries == Deliveries(tickets, Resolve(v))
    ensures key in layer.local.mainCache && layer.local.mainCache[key].value == v
  {
    reply := layer.OwnerSucceeded(key, name, v, now, r);
    assert layer.deliveries == [] + Deliveries(tickets, Resolve(v));
  }

  /**
   * A waiter that times out releases the whole registration of its key, so
   * the next identical call becomes a second owner and issues a second
   * upstream call while the first one is still running.
   */
  method TimeoutAdmitsSecondOwner<V>(o: Options, key: Key, name: Method, now: real, r: real)
    returns (second: Step<V>, timedOut: Reply<V>, third: Step<V>, misses: nat, failedWaits: nat)
    requires Direct(o)
    ensures second == Waiter(0) && timedOut == Raise(TimeoutError) && third == Owner
    ensures misses == 2 && failedWaits == 1
  {
    var layer := Open(o, key, name, now, r);
    second, timedOut := WaitThenTimeOut(layer, key, name, now, r);
    third := Arrive(layer, key, name, now, r);
    misses := Count(layer.stats.totalStats, Miss);
    failedWaits := Count(layer.stats.totalStats, FailedWait);
  }

  /** A second call joins the owner's registration as waiter 0, then its wait times out, releasing the registration. */
  method WaitThenTimeOut<V>(layer: CacheLayer<V>, key: Key, name: Method, now: real, r: real)
    returns (second: Step<V>, timedOut: Reply<V>)
    requires layer.Valid() && !layer.options.fallbackFirst && key !in layer.local.mainCache
    requires layer.ControlState() == Control(map[key := []], 0, [], [], [], [])
    modifies layer, layer.local, layer.stats
    ensures layer.Valid() && key !in layer.local.mainCache && layer.concurrentControl == map[]
    ensures second == Waiter(0) && timedOut == Raise(TimeoutError)
    ensures Count(layer.stats.totalStats, Miss) == Count(old(layer.stats.totalStats), Miss)
    ensures Count(layer.stats.totalStats, FailedWait) == Count(old(layer.stats.totalStats), FailedWait) + 1
  {
    var ticket := Join(layer, key, name, now, r);
    second := Waiter(ticket);
    timedOut := layer.WaiterTimedOut(key, name, ticket);
  }

  /** `m` more identical calls arrive while the owner's upstream call runs: each joins the waiting list and marks `wait`. */
  method Gather<V>(layer: CacheLayer<V>, key: Key, name: Method, m: nat, now: real, r: real) returns (tickets: seq<nat>)
    requires layer.Valid() && !layer.options.fallbackFirst && key !in layer.local.mainCache
    requires layer.ControlState() == Control(map[key := []], 0, [], [], [], [])
    modifies layer, layer.local, layer.stats
    ensures layer.Valid() && key !in layer.local.mainCache
    ensures tickets == Tickets(m)
    ensures layer.ControlState() == Control(map[key := tickets], m, [], [], [], [])
    ensures Count(layer.stats.totalStats, Miss) == Count(old(layer.stats.totalStats), Miss)
    ensures Count(layer.stats.totalStats, Update) == Count(old(layer.stats.totalStats), Update)
    ensures Count(layer.stats.totalStats, Wait) == Count(old(layer.stats.totalStats), Wait) + m
  {
    tickets := [];
    while |tickets| < m
      invariant |tickets| <= m
      invariant layer.Valid()
      invariant key !in layer.local.mainCache
      invariant tickets == Tickets(|tickets|)
      invariant layer.ControlState() == Control(map[key := tickets], |tickets|, [], [], [], [])
      invariant Count(layer.stats.totalStats, Miss) == Count(old(layer.stats.totalStats), Miss)
      invariant Count(layer.stats.totalStats, Update) == Count(old(layer.stats.totalStats), Update)
      invariant Count(layer.stats.totalStats, Wait) == Count(old(layer.stats.totalStats), Wait) + |tickets|
    {
      var ticket := Join(layer, key, name, now, r);
      tickets := tickets + [ticket];
    }
  }

  /** One more identical call while `key` is registered: it takes the next ticket and marks `wait`. */
  method Join<V>(layer: CacheLayer<V>, key: Key, name: Method, now: real, r: real) returns (ticket: nat)
    requires layer.Valid() && !layer.options.fallbackFirst && key !in layer.local.mainCache
    requires key in layer.concurrentControl
    modifies layer, layer.local, layer.stats
    ensures layer.Valid() && key !in layer.local.mainCache
    ensures ticket == old(layer.nextTicket)
    ensures layer.ControlState() == old(layer.ControlState()).(
      registry := old(layer.concurrentControl)[key := old(layer.concurrentControl)[key] + [ticket]],
      nextTicket := ticket + 1)
    ensures Count(layer.stats.totalStats, Miss) == Count(old(layer.stats.totalStats), Miss)
    ensures Count(layer.stats.totalStats, Update) == Count(old(layer.stats.totalStats), Update)
    ensures Count(layer.stats.totalStats, FailedWait) == Count(old(layer.stats.totalStats), FailedWait)
    ensures Count(layer.stats.totalStats, Wait) == Count(old(layer.stats.totalStats), Wait) + 1
  {
    var step := Arrive(layer, key, name, now, r);
    ticket := step.ticket;
  }

  /** After the owner's success, each waiter in turn resumes with the value its deferred was resolved with. */
  method Release<V>(layer: CacheLayer<V>, key: Key, name: Method, tickets: seq<nat>, v: V) returns (replies: seq<Reply<V>>)
    requires layer.Valid() && layer.deliveries == Deliveries(tickets, Resolve(v))
    modifies layer, layer.stats
    ensures layer.Valid() && layer.local.mainCache == old(layer.local.mainCache)
    ensures |replies| == |tickets| && forall i :: 0 <= i < |replies| ==> replies[i] == Value(v)
  {
    replies := [];
    while |replies| < |tickets|
      invariant |replies| <= |tickets|
      invariant layer.Valid() && layer.deliveries == Deliveries(tickets, Resolve(v))
      invariant forall i :: 0 <= i < |replies| ==> replies[i] == Value(v)
    {
      var reply := Resume(layer, key, name, tickets, v, |replies|);
      replies := replies + [reply];
    }
  }

  /** The waiter holding `tickets[i]` resumes with the value every waiter was resolved with; nothing changes. */
  method Resume<V>(layer: CacheLayer<V>, key: Key, name: Method, tickets: seq<nat>, v: V, i: nat) returns (reply: Reply<V>)
    requires layer.Valid() && layer.deliveries == Deliveries(tickets, Resolve(v)) && i < |tickets|
    modifies layer, layer.stats
    ensures layer.Valid() && reply == Value(v)
    ensures layer.ControlState() == old(layer.ControlState())
  {
    assert [] + Deliveries(tickets, Resolve(v)) == layer.deliveries;
    SettledByNotify([], tickets, Resolve(v), tickets[i]);
    reply := layer.WaiterSettled(key, name, tickets[i]);
  }

  /** The synchronous prefix of one call with no hot entry: the lookup misses, then steps 3 and 4. */
  method Arrive<V>(layer: CacheLayer<V>, key: Key, name: Method, now: real, r: real) returns (step: Step<V>)
    requires layer.Valid() && !layer.options.fallbackFirst && key !in layer.local.mainCache
    modifies layer, layer.local, layer.stats
    ensures layer.Valid() && key !in layer.local.mainCache
    ensures var (c, ticket) := CheckState(old(layer.ControlState()), key);
      && layer.ControlState() == c
      && (ticket.Some? ==> step == Waiter(ticket.value) && layer.stats.State() == MarkState(old(layer.stats.State()), name, Wait))
      && (ticket.None? ==> step == Owner
                           && layer.stats.State() == MarkState(MarkState(old(layer.stats.State()), name, Miss), name, Update))
  {
    var hit := layer.LookupLocal(key, name, now);
    step := layer.LookupShared(key, name, now, r);
  }
}
