/**
 * LocalCache: the tiered local store.
 *
 * - the hot map `_mainCache` of entries `{value, timestamp, ttl, method}`;
 * - the stale fallback store, bounded by `fallbackMax` entries and aged by
 *   `fallbackTtl`, present only when the fallback option is on;
 * - the background-refresh registry `_needBgUpdateMap` of `{updateFunc, timestamp}`;
 * - the expiry sweep `_checkInvalid` and one background-refresh pass
 *   `_updateBackground`, each a loop over a JavaScript Map in insertion order.
 *
 * The clock is an input (`now`). The order in which a loop visits a Map is the
 * input `order`, which lists each key once. What the awaited refresh calls
 * deliver is the input `steps`. Emitted events are appended to `events`.
 *
 * Each loop is proved against a pure fold (Sweep, Pass) and the lemmas below
 * state what the fold does to each key.
 */
module Local {
  import opened CacheTypes
  import opened Schema

  /** `_defaultTtl`: the age limit of an entry stored with a zero ttl. */
  const DefaultEntryTtl: real := 60000.0

  /** The delay before the next pass when the registry is empty. */
  const EmptyRegistryDelay: real := 1000.0

  /** A hot entry. */
  datatype Entry<V> = Entry(value: V, timestamp: real, ttl: real, methodName: Method)

  type Store<V> = map<Key, Entry<V>>

  /**
   * The `updateFunc` closure the cache layer registers: it re-runs the
   * upstream call of `method` for `key` (the captured target and arguments).
   */
  datatype Refresher = Refresher(methodName: Method, key: Key)

  /** A registration for background refresh. */
  datatype BgEntry = BgEntry(updateFunc: Refresher, timestamp: real)

  type Registry = map<Key, BgEntry>

  /** A fallback entry `{value, method}`, with the time it was stored (for its age). */
  datatype Stale<V> = Stale(value: V, methodName: Method, storedAt: real)

  /** The fallback store; `order` lists its keys from least to most recently written. */
  datatype FallbackStore<V> = FallbackStore(entries: map<Key, Stale<V>>, order: seq<Key>)

  datatype Tier = LocalTier | FallbackTier

  /** The payload of `bg.stats`. */
  datatype BgStats = BgStats(cycleTime: real, delayTime: real, updateTime: real, updatedSize: nat)

  /** The events the store emits. */
  datatype Event =
    | Expired(key: Key, tier: Tier, methodName: Method)
    | BreakOff(key: Key)
    | BgStatsEvent(stats: BgStats)
    | ErrorEvent(err: Error)

  // ---------------------------------------------------------------------------
  // Hot store

  /** `wrapped.ttl || this._defaultTtl`. */
  function EffectiveTtl<V>(e: Entry<V>): real {
    if e.ttl == 0.0 then DefaultEntryTtl else e.ttl
  }

  /** The sweep's test: strictly older than the entry's ttl. */
  predicate IsExpired<V>(e: Entry<V>, now: real) {
    now - e.timestamp > EffectiveTtl(e)
  }

  /** `set(key, value, ttl, method)` at time `now`: the entry under `key` is replaced, nothing else changes. */
  function Put<V>(main: Store<V>, key: Key, value: V, ttl: real, methodName: Method, now: real): (r: Store<V>)
    ensures key in r && r[key] == Entry(value, now, ttl, methodName)
    ensures r.Keys == main.Keys + {key}
    ensures forall k :: k in main && k != key ==> r[k] == main[k]
  {
    main[key := Entry(value, now, ttl, methodName)]
  }

  /** The `{isCached, value}` answer of `get` on the hot store. */
  function Lookup<V>(main: Store<V>, key: Key): (r: Cached<V>)
    ensures r.Cached? <==> key in main
    ensures r.Cached? ==> r.value == main[key].value
  {
    if key in main then Cached(main[key].value) else NotCached
  }

  // ---------------------------------------------------------------------------
  // Background-refresh registry

  /** What `get` does to the registry: an existing registration gets timestamp `now`. */
  function Touch(reg: Registry, key: Key, now: real): (r: Registry)
    ensures r.Keys == reg.Keys
    ensures key in reg ==> r[key] == BgEntry(reg[key].updateFunc, now)
    ensures forall k :: k in reg && k != key ==> r[k] == reg[k]
  {
    if key in reg then reg[key := BgEntry(reg[key].updateFunc, now)] else reg
  }

  /** `needBackgroundUpdate(key, updateFunc)`: a registration is created only for an absent key. */
  function Register(reg: Registry, key: Key, f: Refresher, now: real): Registry {
    if key in reg then reg else reg[key := BgEntry(f, now)]
  }

  /**
   * Registration adds only an absent key, with the given closure and time,
   * and never touches another key; registering again keeps the first
   * registration's closure and timestamp.
   */
  lemma RegisterIdempotent(reg: Registry, key: Key, f: Refresher, g: Refresher, t: real, u: real)
    ensures Register(Register(reg, key, f, t), key, g, u) == Register(reg, key, f, t)
    ensures key in Register(reg, key, f, t) && Register(reg, key, f, t).Keys == reg.Keys + {key}
    ensures key !in reg ==> Register(reg, key, f, t)[key] == BgEntry(f, t)
    ensures key in reg ==> Register(reg, key, f, t)[key] == reg[key]
    ensures forall k :: k in reg && k != key ==> Register(reg, key, f, t)[k] == reg[k]
  {
  }

  // ---------------------------------------------------------------------------
  // Fallback store

  /** The fallback store's own invariant for capacity `max`. */
  ghost predicate ValidFallback<V>(fs: FallbackStore<V>, max: nat) {
    max > 0 && Enumerates(fs.order, fs.entries) && |fs.order| <= max
  }

  /** An entry is served while its age does not exceed `fallbackTtl`. */
  predicate FallbackLive<V>(fs: FallbackStore<V>, key: Key, now: real, fallbackTtl: real) {
    key in fs.entries && now - fs.entries[key].storedAt <= fallbackTtl
  }

  /** `s` without the element `k`. */
  function RemoveKey(s: seq<Key>, k: Key): (r: seq<Key>)
    ensures forall x :: x in r <==> x in s && x != k
    ensures |r| <= |s|
    ensures k !in s ==> r == s
  {
    if s == [] then []
    else if s[0] == k then RemoveKey(s[1..], k)
    else [s[0]] + RemoveKey(s[1..], k)
  }

  lemma {:induction false} RemoveKeyDistinct(s: seq<Key>, k: Key)
    requires Distinct(s)
    ensures Distinct(RemoveKey(s, k))
    ensures k in s ==> |RemoveKey(s, k)| == |s| - 1
  {
    if s != [] {
      DistinctTail(s);
      RemoveKeyDistinct(s[1..], k);
      var r := RemoveKey(s[1..], k);
      if s[0] != k {
        assert s[0] !in r;
        forall i, j | 0 <= i < j < |[s[0]] + r| ensures ([s[0]] + r)[i] != ([s[0]] + r)[j] {
          if i > 0 {
            assert ([s[0]] + r)[i] == r[i - 1];
          }
        }
      }
    }
  }

  /**
   * The fallback store's `set`: the key becomes the most recently written one;
   * a new key in a full store first evicts the least recently written entry.
   */
  function FallbackPut<V>(fs: FallbackStore<V>, key: Key, value: V, methodName: Method, now: real, max: nat): (r: FallbackStore<V>)
    requires ValidFallback(fs, max)
    ensures ValidFallback(r, max)
    ensures key in r.entries && r.entries[key] == Stale(value, methodName, now)
    ensures forall k :: k in r.entries && k != key ==> k in fs.entries && r.entries[k] == fs.entries[k]
    ensures key in fs.entries ==> r.entries.Keys == fs.entries.Keys
    ensures |fs.order| < max ==> r.entries.Keys == fs.entries.Keys + {key}
    ensures key !in fs.entries && |fs.order| == max
            ==> fs.order[0] in fs.entries && r.entries.Keys == (fs.entries.Keys - {fs.order[0]}) + {key}
    ensures |r.order| <= |fs.order| + 1
  {
    var s := Stale(value, methodName, now);
    if key in fs.entries then
      RemoveKeyDistinct(fs.order, key);
      DistinctSnoc(RemoveKey(fs.order, key), key);
      FallbackStore(fs.entries[key := s], RemoveKey(fs.order, key) + [key])
    else if |fs.order| == max then
      DistinctTail(fs.order);
      DistinctSnoc(fs.order[1..], key);
      FallbackStore((fs.entries - {fs.order[0]})[key := s], fs.order[1..] + [key])
    else
      DistinctSnoc(fs.order, key);
      FallbackStore(fs.entries[key := s], fs.order + [key])
  }

  /** The store never holds more than `max` entries. */
  lemma FallbackBounded<V>(fs: FallbackStore<V>, max: nat)
    requires ValidFallback(fs, max)
    ensures |fs.entries| <= max
  {
    EnumeratedSize(fs.order, fs.entries);
  }

  /** A value just written is served until `fallbackTtl` has passed, and not after. */
  lemma FallbackPutThenLive<V>(fs: FallbackStore<V>, key: Key, value: V, methodName: Method, now: real, max: nat,
                               later: real, fallbackTtl: real)
    requires ValidFallback(fs, max)
    ensures FallbackLive(FallbackPut(fs, key, value, methodName, now, max), key, later, fallbackTtl)
            <==> later - now <= fallbackTtl
  {
  }

  // ---------------------------------------------------------------------------
  // Expiry sweep, as a fold over the visiting order

  datatype SweepState<V> = SweepState(main: Store<V>, fallback: Option<FallbackStore<V>>, events: seq<Event>)

  ghost predicate SweepReady<V>(st: SweepState<V>, max: nat) {
    st.fallback.Some? ==> ValidFallback(st.fallback.value, max)
  }

  /** The sweep's step for one key: an expired entry moves to the fallback store (if any) and is reported. */
  function SweepKey<V>(st: SweepState<V>, key: Key, now: real, max: nat): (r: SweepState<V>)
    requires key in st.main && SweepReady(st, max)
    ensures SweepReady(r, max)
  {
    var e := st.main[key];
    if IsExpired(e, now) then
      SweepState(
        st.main - {key},
        if st.fallback.Some? then Some(FallbackPut(st.fallback.value, key, e.value, e.methodName, now, max)) else None,
        st.events + [Expired(key, LocalTier, e.methodName)])
    else st
  }

  /** The sweep: every key of `order`, in turn. */
  function Sweep<V>(st: SweepState<V>, order: seq<Key>, now: real, max: nat): (r: SweepState<V>)
    requires Distinct(order) && (forall k :: k in order ==> k in st.main) && SweepReady(st, max)
    ensures SweepReady(r, max)
    ensures r.fallback.Some? == st.fallback.Some?
    decreases |order|
  {
    if order == [] then st
    else
      DistinctTail(order);
      Sweep(SweepKey(st, order[0], now, max), order[1..], now, max)
  }

  /** The number of `expired` events for `key` from the hot tier. */
  function ExpiredCount(events: seq<Event>, key: Key): nat {
    if events == [] then 0
    else (if events[0].Expired? && events[0].key == key && events[0].tier == LocalTier then 1 else 0)
         + ExpiredCount(events[1..], key)
  }

  lemma {:induction false} ExpiredCountAppend(a: seq<Event>, b: seq<Event>, key: Key)
    ensures ExpiredCount(a + b, key) == ExpiredCount(a, key) + ExpiredCount(b, key)
  {
    if a != [] {
      assert (a + b)[1..] == a[1..] + b;
      ExpiredCountAppend(a[1..], b, key);
    } else {
      assert a + b == b;
    }
  }

  /**
   * The sweep removes exactly the entries of `order` strictly older than
   * their ttl and leaves every other entry as it was.
   */
  lemma {:induction false} SweepRemovesExpired<V>(st: SweepState<V>, order: seq<Key>, now: real, max: nat)
    requires Distinct(order) && (forall k :: k in order ==> k in st.main) && SweepReady(st, max)
    ensures var r := Sweep(st, order, now, max);
      && (forall k :: k in r.main <==> k in st.main && !(k in order && IsExpired(st.main[k], now)))
      && (forall k :: k in r.main ==> r.main[k] == st.main[k])
    decreases |order|
  {
    if order != [] {
      DistinctTail(order);
      SweepRemovesExpired(SweepKey(st, order[0], now, max), order[1..], now, max);
    }
  }

  /** The events of one sweep step: one hot-tier `expired` event for the key if it expired, none otherwise. */
  lemma SweepKeyEvents<V>(st: SweepState<V>, key: Key, now: real, max: nat)
    requires key in st.main && SweepReady(st, max)
    ensures var r := SweepKey(st, key, now, max);
      && |r.events| >= |st.events| && r.events[..|st.events|] == st.events
      && (forall k :: ExpiredCount(r.events[|st.events|..], k)
                      == if k == key && IsExpired(st.main[key], now) then 1 else 0)
  {
    var r := SweepKey(st, key, now, max);
    if IsExpired(st.main[key], now) {
      var e := Expired(key, LocalTier, st.main[key].methodName);
      assert r.events[|st.events|..] == [e];
      assert [e][1..] == [];
    } else {
      assert r.events[|st.events|..] == [];
    }
  }

  /**
   * The sweep only appends events, and it appends exactly one hot-tier
   * `expired` event per removed key and none for any other key.
   */
  lemma {:induction false} SweepReportsExpired<V>(st: SweepState<V>, order: seq<Key>, now: real, max: nat)
    requires Distinct(order) && (forall k :: k in order ==> k in st.main) && SweepReady(st, max)
    ensures var r := Sweep(st, order, now, max);
      && |r.events| >= |st.events| && r.events[..|st.events|] == st.events
      && (forall k :: ExpiredCount(r.events[|st.events|..], k)
                      == if k in order && IsExpired(st.main[k], now) then 1 else 0)
    decreases |order|
  {
    var r := Sweep(st, order, now, max);
    if order == [] {
      assert r.events[|st.events|..] == [];
    } else {
      DistinctTail(order);
      var k0 := order[0];
      var st1 := SweepKey(st, k0, now, max);
      SweepKeyEvents(st, k0, now, max);
      SweepReportsExpired(st1, order[1..], now, max);
      assert r == Sweep(st1, order[1..], now, max);
      var head, tail := st1.events[|st.events|..], r.events[|st1.events|..];
      assert r.events[|st.events|..] == head + tail;
      forall k
        ensures ExpiredCount(r.events[|st.events|..], k)
                == if k in order && IsExpired(st.main[k], now) then 1 else 0
      {
        ExpiredCountAppend(head, tail, k);
        if k != k0 && k in order[1..] {
          assert st1.main[k] == st.main[k];
        }
      }
    }
  }

  /** The number of keys of `order` whose hot entry has expired at `now`. */
  function ExpiredIn<V>(main: Store<V>, order: seq<Key>, now: real): (n: nat)
    ensures n <= |order|
    decreases |order|
  {
    if order == [] then 0
    else (if order[0] in main && IsExpired(main[order[0]], now) then 1 else 0) + ExpiredIn(main, order[1..], now)
  }

  /** Two hot maps that agree on every key of `order` have the same expired keys in it. */
  lemma {:induction false} ExpiredInFrame<V>(a: Store<V>, b: Store<V>, order: seq<Key>, now: real)
    requires forall k :: k in order ==> (k in a <==> k in b) && (k in a ==> a[k] == b[k])
    ensures ExpiredIn(a, order, now) == ExpiredIn(b, order, now)
    decreases |order|
  {
    if order != [] {
      assert order[0] in order;
      ExpiredInFrame(a, b, order[1..], now);
    }
  }

  /**
   * With fallback enabled and room for every entry that expires, each removed
   * entry is in the fallback store as `{value, method}` stored at `now`, and
   * every other fallback entry is one that was there before.
   */
  lemma {:induction false} SweepCopiesToFallback<V>(st: SweepState<V>, order: seq<Key>, now: real, max: nat)
    requires Distinct(order) && (forall k :: k in order ==> k in st.main) && SweepReady(st, max)
    requires st.fallback.Some? && |st.fallback.value.order| + ExpiredIn(st.main, order, now) <= max
    ensures var r := Sweep(st, order, now, max);
      && r.fallback.Some?
      && (forall k :: k in order && IsExpired(st.main[k], now) ==>
            k in r.fallback.value.entries
            && r.fallback.value.entries[k] == Stale(st.main[k].value, st.main[k].methodName, now))
      && (forall k :: k in r.fallback.value.entries && !(k in order && IsExpired(st.main[k], now)) ==>
            k in st.fallback.value.entries && r.fallback.value.entries[k] == st.fallback.value.entries[k])
      && (forall k :: k in st.fallback.value.entries && !(k in order && IsExpired(st.main[k], now)) ==>
            k in r.fallback.value.entries && r.fallback.value.entries[k] == st.fallback.value.entries[k])
    decreases |order|
  {
    if order != [] {
      DistinctTail(order);
      var k0 := order[0];
      var st1 := SweepKey(st, k0, now, max);
      ExpiredInFrame(st1.main, st.main, order[1..], now);
      SweepCopiesToFallback(st1, order[1..], now, max);
    }
  }

  /** Without a fallback store the sweep creates none. */
  lemma SweepWithoutFallback<V>(st: SweepState<V>, order: seq<Key>, now: real, max: nat)
    requires Distinct(order) && (forall k :: k in order ==> k in st.main) && SweepReady(st, max)
    requires st.fallback.None?
    ensures Sweep(st, order, now, max).fallback.None?
  {
  }

  // ---------------------------------------------------------------------------
  // Background-refresh pass, as a fold over the visiting order

  /** What the awaited `updateFunc()` delivered, with the clock when it returned. */
  datatype RefreshResult<V> = Refreshed(value: V, at: real) | RefreshFailed(err: Error)

  /** The input of the pass for one key: the clock at its silence check, and the refresh outcome. */
  datatype BgStep<V> = BgStep(at: real, result: RefreshResult<V>)

  /**
   * The state a pass threads through: the hot store, the registry, the events,
   * the number of successful refreshes, and the closures it invoked, in order.
   */
  datatype PassState<V> = PassState(main: Store<V>, registry: Registry, events: seq<Event>,
                                    updated: nat, invoked: seq<Refresher>)

  /** The pass's step for one key. */
  function PassKey<V>(s: PassState<V>, key: Key, step: BgStep<V>, silence: real): PassState<V>
    requires key in s.registry
  {
    var reg := s.registry[key];
    if step.at - reg.timestamp > silence then
      s.(registry := s.registry - {key}, events := s.events + [BreakOff(key)])
    else if key !in s.main then s
    else
      match step.result
      case Refreshed(v, t) =>
        var e := s.main[key];
        s.(main := s.main[key := Entry(v, t, e.ttl, e.methodName)],
           updated := s.updated + 1, invoked := s.invoked + [reg.updateFunc])
      case RefreshFailed(err) =>
        s.(events := s.events + [ErrorEvent(err)], invoked := s.invoked + [reg.updateFunc])
  }

  ghost predicate PassReady<V>(s: PassState<V>, order: seq<Key>, steps: seq<BgStep<V>>) {
    Distinct(order) && |steps| == |order| && (forall k :: k in order ==> k in s.registry)
  }

  /** A pass over a non-empty order is its first step followed by a pass over the rest. */
  lemma PassUnfold<V>(s: PassState<V>, order: seq<Key>, steps: seq<BgStep<V>>, silence: real)
    requires PassReady(s, order, steps) && order != []
    ensures PassReady(PassKey(s, order[0], steps[0], silence), order[1..], steps[1..])
    ensures Pass(s, order, steps, silence)
            == Pass(PassKey(s, order[0], steps[0], silence), order[1..], steps[1..], silence)
  {
    DistinctTail(order);
  }

  /** One pass: every key of `order`, in turn. */
  function Pass<V>(s: PassState<V>, order: seq<Key>, steps: seq<BgStep<V>>, silence: real): PassState<V>
    requires PassReady(s, order, steps)
    decreases |order|
  {
    if order == [] then s
    else
      DistinctTail(order);
      Pass(PassKey(s, order[0], steps[0], silence), order[1..], steps[1..], silence)
  }

  /** Two pass states that agree on `key` in the hot store and in the registry. */
  ghost predicate SameAt<V>(a: PassState<V>, b: PassState<V>, key: Key) {
    && (key in a.main <==> key in b.main) && (key in a.main ==> a.main[key] == b.main[key])
    && (key in a.registry <==> key in b.registry) && (key in a.registry ==> a.registry[key] == b.registry[key])
  }

  /** The step for one key leaves every other key as it was. */
  lemma PassKeyElsewhere<V>(s: PassState<V>, key: Key, step: BgStep<V>, silence: real, other: Key)
    requires key in s.registry && other != key
    ensures SameAt(PassKey(s, key, step, silence), s, other)
  {
  }

  /** The step for one key depends only on that key's hot entry and registration. */
  lemma PassKeyLocal<V>(a: PassState<V>, b: PassState<V>, key: Key, step: BgStep<V>, silence: real)
    requires key in a.registry && SameAt(a, b, key)
    ensures SameAt(PassKey(a, key, step, silence), PassKey(b, key, step, silence), key)
  {
  }

  /** A pass leaves the hot entry and the registration of a key it does not visit unchanged. */
  lemma {:induction false} PassSkipsKey<V>(s: PassState<V>, order: seq<Key>, steps: seq<BgStep<V>>, silence: real, key: Key)
    requires PassReady(s, order, steps) && key !in order
    ensures SameAt(Pass(s, order, steps, silence), s, key)
    decreases |order|
  {
    if order != [] {
      DistinctTail(order);
      PassKeyElsewhere(s, order[0], steps[0], silence, key);
      PassSkipsKey(PassKey(s, order[0], steps[0], silence), order[1..], steps[1..], silence, key);
    }
  }

  /**
   * A pass treats each key on its own: at the `i`-th key it visits, the
   * result is that of the single step for that key with observation `steps[i]`.
   */
  lemma {:induction false} PassAtKey<V>(s: PassState<V>, order: seq<Key>, steps: seq<BgStep<V>>, silence: real, i: nat)
    requires PassReady(s, order, steps) && i < |order|
    ensures SameAt(Pass(s, order, steps, silence), PassKey(s, order[i], steps[i], silence), order[i])
    decreases |order|
  {
    DistinctTail(order);
    var s1 := PassKey(s, order[0], steps[0], silence);
    if i == 0 {
      PassSkipsKey(s1, order[1..], steps[1..], silence, order[0]);
    } else {
      PassAtKey(s1, order[1..], steps[1..], silence, i - 1);
      assert order[1..][i - 1] == order[i] && steps[1..][i - 1] == steps[i];
      PassKeyElsewhere(s, order[0], steps[0], silence, order[i]);
      PassKeyLocal(s1, s, order[i], steps[i], silence);
    }
  }

  /**
   * The single step for one registered key:
   * silent longer than the threshold, it is deregistered and its hot entry kept;
   * otherwise, with a hot entry and a successful refresh, the entry takes the new
   * value and the refresh time and keeps its ttl and method;
   * with a failed refresh, or no hot entry, the key is left as it was.
   */
  lemma PassKeyEffect<V>(s: PassState<V>, key: Key, step: BgStep<V>, silence: real)
    requires key in s.registry
    ensures var r := PassKey(s, key, step, silence);
      var silent := step.at - s.registry[key].timestamp > silence;
      && (silent ==> key !in r.registry && r.main == s.main
                     && r.events == s.events + [BreakOff(key)]
                     && r.updated == s.updated && r.invoked == s.invoked)
      && (!silent ==> r.registry == s.registry)
      && (!silent && key in s.main ==> r.invoked == s.invoked + [s.registry[key].updateFunc])
      && (!silent && key in s.main && step.result.Refreshed? ==>
            r.main == s.main[key := Entry(step.result.value, step.result.at, s.main[key].ttl, s.main[key].methodName)]
            && r.updated == s.updated + 1 && r.events == s.events)
      && (!silent && key in s.main && step.result.RefreshFailed? ==>
            r.main == s.main && r.events == s.events + [ErrorEvent(step.result.err)]
            && r.updated == s.updated)
      && (!silent && key !in s.main ==> r == s)
  {
  }

  /**
   * Whether the step for `key` is a successful refresh, judged on the state
   * before the pass: the key is registered, not silent past the threshold,
   * hot, and its refresh returned a value.
   */
  predicate Refreshes<V>(main: Store<V>, registry: Registry, key: Key, step: BgStep<V>, silence: real) {
    && key in registry && !(step.at - registry[key].timestamp > silence)
    && key in main && step.result.Refreshed?
  }

  /** The number of keys of `order` whose step is a successful refresh. */
  function RefreshCount<V>(main: Store<V>, registry: Registry, order: seq<Key>, steps: seq<BgStep<V>>, silence: real): (n: nat)
    requires |steps| == |order|
    ensures n <= |order|
    decreases |order|
  {
    if order == [] then 0
    else (if Refreshes(main, registry, order[0], steps[0], silence) then 1 else 0)
         + RefreshCount(main, registry, order[1..], steps[1..], silence)
  }

  /** Two states that agree on every key of `order` count the same refreshes over it. */
  lemma {:induction false} RefreshCountFrame<V>(a: PassState<V>, b: PassState<V>, order: seq<Key>, steps: seq<BgStep<V>>,
                                                silence: real)
    requires |steps| == |order| && forall k :: k in order ==> SameAt(a, b, k)
    ensures RefreshCount(a.main, a.registry, order, steps, silence) == RefreshCount(b.main, b.registry, order, steps, silence)
    decreases |order|
  {
    if order != [] {
      assert SameAt(a, b, order[0]);
      RefreshCountFrame(a, b, order[1..], steps[1..], silence);
    }
  }

  /**
   * A pass counts exactly the successful refreshes: the visited keys that
   * were registered, not silent, hot, and whose refresh returned a value.
   */
  lemma {:induction false} PassUpdatedCount<V>(s: PassState<V>, order: seq<Key>, steps: seq<BgStep<V>>, silence: real)
    requires PassReady(s, order, steps)
    ensures Pass(s, order, steps, silence).updated == s.updated + RefreshCount(s.main, s.registry, order, steps, silence)
    decreases |order|
  {
    if order != [] {
      PassUnfold(s, order, steps, silence);
      var s1 := PassKey(s, order[0], steps[0], silence);
      PassUpdatedCount(s1, order[1..], steps[1..], silence);
      forall k | k in order[1..] ensures SameAt(s1, s, k) {
        PassKeyElsewhere(s, order[0], steps[0], silence, k);
      }
      RefreshCountFrame(s1, s, order[1..], steps[1..], silence);
      PassKeyEffect(s, order[0], steps[0], silence);
    }
  }

  /** The number of successful refreshes counted by a pass never exceeds the number of keys it visits. */
  lemma {:induction false} PassUpdatedBound<V>(s: PassState<V>, order: seq<Key>, steps: seq<BgStep<V>>, silence: real)
    requires PassReady(s, order, steps)
    ensures s.updated <= Pass(s, order, steps, silence).updated <= s.updated + |order|
    ensures Pass(s, order, steps, silence).registry.Keys <= s.registry.Keys
    decreases |order|
  {
    if order != [] {
      DistinctTail(order);
      PassUpdatedBound(PassKey(s, order[0], steps[0], silence), order[1..], steps[1..], silence);
    }
  }

  /** A pass neither adds nor removes hot entries. */
  lemma {:induction false} PassKeepsHotKeys<V>(s: PassState<V>, order: seq<Key>, steps: seq<BgStep<V>>, silence: real)
    requires PassReady(s, order, steps)
    ensures Pass(s, order, steps, silence).main.Keys == s.main.Keys
    decreases |order|
  {
    if order != [] {
      DistinctTail(order);
      PassKeepsHotKeys(PassKey(s, order[0], steps[0], silence), order[1..], steps[1..], silence);
    }
  }

  /** A pass only appends events, and invokes at most one closure per visited key. */
  lemma {:induction false} PassAppends<V>(s: PassState<V>, order: seq<Key>, steps: seq<BgStep<V>>, silence: real)
    requires PassReady(s, order, steps)
    ensures var r := Pass(s, order, steps, silence);
      && |s.events| <= |r.events| && r.events[..|s.events|] == s.events
      && |s.invoked| <= |r.invoked| <= |s.invoked| + |order| && r.invoked[..|s.invoked|] == s.invoked
    decreases |order|
  {
    if order != [] {
      DistinctTail(order);
      var s1 := PassKey(s, order[0], steps[0], silence);
      PassAppends(s1, order[1..], steps[1..], silence);
      var r := Pass(s, order, steps, silence);
      assert r.events[..|s.events|] == r.events[..|s1.events|][..|s.events|];
      assert r.invoked[..|s.invoked|] == r.invoked[..|s1.invoked|][..|s.invoked|];
    }
  }

  /** The pacing delay accumulated after `n` successful refreshes, one `bgUpdateDelay` each. */
  function TotalDelay(n: nat, bgUpdateDelay: real): (total: real)
    ensures bgUpdateDelay >= 0.0 ==> total >= 0.0
  {
    if n == 0 then 0.0 else TotalDelay(n - 1, bgUpdateDelay) + bgUpdateDelay
  }

  /** The accumulated delay is the product of the count and the delay. */
  lemma {:induction false} TotalDelayProduct(n: nat, bgUpdateDelay: real)
    ensures TotalDelay(n, bgUpdateDelay) == n as real * bgUpdateDelay
  {
    if n > 0 {
      TotalDelayProduct(n - 1, bgUpdateDelay);
      assert n as real * bgUpdateDelay == (n - 1) as real * bgUpdateDelay + bgUpdateDelay;
    }
  }

  /** The `bg.stats` payload of a pass that took `cycleTime`, of which `delayTime` was pacing, leaving `size` registrations. */
  function CycleStats(cycleTime: real, delayTime: real, size: nat): (st: BgStats)
    ensures st.delayTime + st.updateTime == st.cycleTime
  {
    BgStats(cycleTime, delayTime, cycleTime - delayTime, size)
  }

  /** The delay before the next pass: none if the cycle overran the pacing delay, else that delay. */
  function NextPassDelay(cycleTime: real, periodDelay: real): (d: real)
    ensures d == 0.0 || d == periodDelay
    ensures d == 0.0 <==> cycleTime > periodDelay || periodDelay == 0.0
  {
    if cycleTime > periodDelay then 0.0 else periodDelay
  }

  /** What one `_updateBackground()` call leaves: the hot map, the registry, the events, the closures invoked and the next delay. */
  datatype Cycle<V> = Cycle(main: Store<V>, registry: Registry, events: seq<Event>, invoked: seq<Refresher>, nextDelay: real)

  /**
   * One background pass over `registry` in the order `order`, taking
   * `cycleTime`: an empty registry only re-arms the timer; otherwise the
   * keys are visited, a `bg.stats` event closes the pass and the next delay
   * follows the pacing rule.
   */
  function BackgroundCycle<V>(main: Store<V>, registry: Registry, events: seq<Event>, order: seq<Key>,
                              steps: seq<BgStep<V>>, o: Options, cycleTime: real): Cycle<V>
    requires Enumerates(order, registry) && |steps| == |order|
  {
    if registry == map[] then Cycle(main, registry, events, [], EmptyRegistryDelay)
    else
      var r := Pass(PassState(main, registry, events, 0, []), order, steps, o.bgUpdateExpired);
      Cycle(r.main, r.registry, r.events + [BgStatsEvent(CycleStats(cycleTime, TotalDelay(r.updated, o.bgUpdateDelay), |r.registry|))],
            r.invoked, NextPassDelay(cycleTime, o.bgUpdatePeriodDelay))
  }

  /** With nothing registered, a pass only re-arms the timer after one second. */
  lemma BackgroundCycleIdle<V>(main: Store<V>, events: seq<Event>, o: Options, cycleTime: real)
    ensures var c := BackgroundCycle<V>(main, map[], events, [], [], o, cycleTime);
      c.main == main && c.registry == map[] && c.events == events && c.invoked == [] && c.nextDelay == 1000.0
  {
  }

  /**
   * A pass over a non-empty registry keeps the set of hot keys, only drops
   * registrations, invokes at most one closure per registration, and appends
   * to the events exactly one more than the visits produced; the next pass
   * follows at once when the cycle overran the period delay, else after it.
   */
  lemma BackgroundCycleActive<V>(main: Store<V>, registry: Registry, events: seq<Event>, order: seq<Key>,
                                 steps: seq<BgStep<V>>, o: Options, cycleTime: real)
    requires registry != map[] && Enumerates(order, registry) && |steps| == |order|
    ensures var c := BackgroundCycle(main, registry, events, order, steps, o, cycleTime);
      && c.main.Keys == main.Keys && c.registry.Keys <= registry.Keys
      && |c.events| > |events| && c.events[..|events|] == events
      && |c.invoked| <= |registry|
      && (c.nextDelay == 0.0 <==> cycleTime > o.bgUpdatePeriodDelay || o.bgUpdatePeriodDelay == 0.0)
      && (c.nextDelay != 0.0 ==> c.nextDelay == o.bgUpdatePeriodDelay)
  {
    var s := PassState(main, registry, events, 0, []);
    var r := Pass(s, order, steps, o.bgUpdateExpired);
    PassKeepsHotKeys(s, order, steps, o.bgUpdateExpired);
    PassUpdatedBound(s, order, steps, o.bgUpdateExpired);
    PassAppends(s, order, steps, o.bgUpdateExpired);
    EnumeratedSize(order, registry);
    var c := BackgroundCycle(main, registry, events, order, steps, o, cycleTime);
    assert c.events[..|events|] == r.events[..|events|];
  }

  /**
   * The last event of a pass over a non-empty registry is its `bg.stats`:
   * its parts add up to the cycle time, its pacing share is at most one delay
   * per registration (see TotalDelayProduct), and its size is what is left registered.
   */
  lemma BackgroundCycleStats<V>(main: Store<V>, registry: Registry, events: seq<Event>, order: seq<Key>,
                                steps: seq<BgStep<V>>, o: Options, cycleTime: real)
    requires registry != map[] && Enumerates(order, registry) && |steps| == |order|
    requires o.bgUpdateDelay >= 0.0
    ensures var c := BackgroundCycle(main, registry, events, order, steps, o, cycleTime);
      && c.events != []
      && (var last := c.events[|c.events| - 1];
          && last.BgStatsEvent?
          && last.stats.cycleTime == cycleTime
          && last.stats.delayTime + last.stats.updateTime == cycleTime
          && 0.0 <= last.stats.delayTime <= TotalDelay(|registry|, o.bgUpdateDelay)
          && last.stats.updatedSize == |c.registry|)
  {
    var s := PassState(main, registry, events, 0, []);
    var r := Pass(s, order, steps, o.bgUpdateExpired);
    PassUpdatedBound(s, order, steps, o.bgUpdateExpired);
    EnumeratedSize(order, registry);
    DelayMonotone(r.updated, |order|, o.bgUpdateDelay);
    var c := BackgroundCycle(main, registry, events, order, steps, o, cycleTime);
    var st := CycleStats(cycleTime, TotalDelay(r.updated, o.bgUpdateDelay), |r.registry|);
    assert c.events == r.events + [BgStatsEvent(st)];
  }

  /**
   * The pacing share of a pass's `bg.stats` is one `bgUpdateDelay` per
   * successful refresh of a visited, hot, not silent key.
   */
  lemma BackgroundCycleDelay<V>(main: Store<V>, registry: Registry, events: seq<Event>, order: seq<Key>,
                                steps: seq<BgStep<V>>, o: Options, cycleTime: real)
    requires registry != map[] && Enumerates(order, registry) && |steps| == |order|
    ensures var c := BackgroundCycle(main, registry, events, order, steps, o, cycleTime);
      && c.events != [] && c.events[|c.events| - 1].BgStatsEvent?
      && c.events[|c.events| - 1].stats.delayTime
         == TotalDelay(RefreshCount(main, registry, order, steps, o.bgUpdateExpired), o.bgUpdateDelay)
  {
    var s := PassState(main, registry, events, 0, []);
    BackgroundCycleLast(main, registry, events, order, steps, o, cycleTime);
    PassUpdatedCount(s, order, steps, o.bgUpdateExpired);
  }

  /** A pass over a non-empty registry appends its `bg.stats` to the events of the visits. */
  lemma BackgroundCycleLast<V>(main: Store<V>, registry: Registry, events: seq<Event>, order: seq<Key>,
                               steps: seq<BgStep<V>>, o: Options, cycleTime: real)
    requires registry != map[] && Enumerates(order, registry) && |steps| == |order|
    ensures PassReady(PassState(main, registry, events, 0, []), order, steps)
    ensures var r := Pass(PassState(main, registry, events, 0, []), order, steps, o.bgUpdateExpired);
      BackgroundCycle(main, registry, events, order, steps, o, cycleTime).events
      == r.events + [BgStatsEvent(CycleStats(cycleTime, TotalDelay(r.updated, o.bgUpdateDelay), |r.registry|))]
  {
  }

  /** More refreshes never accumulate less pacing delay. */
  lemma {:induction false} DelayMonotone(m: nat, n: nat, d: real)
    requires m <= n && d >= 0.0
    ensures TotalDelay(m, d) <= TotalDelay(n, d)
    decreases n
  {
    if m < n {
      DelayMonotone(m, n - 1, d);
    }
  }

  // ---------------------------------------------------------------------------
  // The store

  /** The mutable fields of a store, together. */
  datatype LocalState<V> = LocalState(main: Store<V>, registry: Registry, fallback: Option<FallbackStore<V>>,
                                      timer: Option<real>, events: seq<Event>)

  class LocalCache<V> {
    const options: Options
    /** `fallbackMax` as the integer capacity of the fallback store. */
    const capacity: nat
    var mainCache: Store<V>
    var bgMap: Registry
    var fallbackCache: Option<FallbackStore<V>>
    /** The delay of the last armed background timer; `None` until one is armed. */
    var bgTimer: Option<real>
    var events: seq<Event>

    /** The whole mutable state, for stating what an operation leaves unchanged. */
    function State(): LocalState<V>
      reads this
    {
      LocalState(mainCache, bgMap, fallbackCache, bgTimer, events)
    }

    ghost predicate Valid()
      reads this
    {
      && (fallbackCache.Some? <==> options.fallback)
      && (fallbackCache.Some? ==>
            capacity as real == options.fallbackMax && ValidFallback(fallbackCache.value, capacity))
    }

    /** A new store: empty hot map and registry; a fallback store only when the option is on. */
    constructor (options: Options)
      requires ValidOptions(options)
      requires options.fallback ==> options.fallbackMax == options.fallbackMax.Floor as real
      ensures Valid() && this.options == options
      ensures mainCache == map[] && bgMap == map[] && bgTimer == None && events == []
      ensures options.fallback ==> fallbackCache == Some(FallbackStore(map[], []))
      ensures !options.fallback ==> fallbackCache == None
    {
      this.options := options;
      capacity := if options.fallback then options.fallbackMax.Floor else 0;
      mainCache := map[];
      bgMap := map[];
      bgTimer := None;
      events := [];
      fallbackCache := if options.fallback then Some(FallbackStore(map[], [])) else None;
    }

    /** `has(key)`: exactly when `get(key)` reports the key as cached. */
    function Has(key: Key): (b: bool)
      reads this
      ensures b <==> Lookup(mainCache, key).Cached?
    {
      key in mainCache
    }

    /** `set(key, value, ttl, method)`. */
    method Set(key: Key, value: V, ttl: real, methodName: Method, now: real)
      requires Valid()
      modifies this
      ensures Valid()
      ensures mainCache == Put(old(mainCache), key, value, ttl, methodName, now)
      ensures bgMap == old(bgMap) && fallbackCache == old(fallbackCache)
      ensures bgTimer == old(bgTimer) && events == old(events)
    {
      mainCache := mainCache[key := Entry(value, now, ttl, methodName)];
    }

    /** `get(key)`: the hot value, refreshing an existing registration's timestamp. */
    method Get(key: Key, now: real) returns (r: Cached<V>)
      requires Valid()
      modifies this
      ensures Valid()
      ensures r == Lookup(mainCache, key)
      ensures bgMap == Touch(old(bgMap), key, now)
      ensures mainCache == old(mainCache) && fallbackCache == old(fallbackCache)
      ensures bgTimer == old(bgTimer) && events == old(events)
    {
      if key in bgMap {
        var updateFunc := bgMap[key].updateFunc;
        bgMap := bgMap[key := BgEntry(updateFunc, now)];
      }
      if key in mainCache {
        r := Cached(mainCache[key].value);
      } else {
        r := NotCached;
      }
    }

    /** `hasInFallback(key)`. */
    function HasInFallback(key: Key, now: real): (b: bool)
      reads this
      requires Valid()
      ensures !options.fallback ==> !b
      ensures b <==> options.fallback && FallbackLive(fallbackCache.value, key, now, options.fallbackTtl)
      ensures b <==> GetFromFallback(key, now).Cached?
    {
      fallbackCache.Some? && FallbackLive(fallbackCache.value, key, now, options.fallbackTtl)
    }

    /** `getFromFallback(key)`. */
    function GetFromFallback(key: Key, now: real): (r: Cached<V>)
      reads this
      requires Valid()
      ensures !options.fallback ==> r == NotCached
      ensures r.Cached? <==> options.fallback && FallbackLive(fallbackCache.value, key, now, options.fallbackTtl)
      ensures r.Cached? ==> key in fallbackCache.value.entries
                            && r.value == fallbackCache.value.entries[key].value
    {
      match fallbackCache
      case None => NotCached
      case Some(fs) =>
        if FallbackLive(fs, key, now, options.fallbackTtl) then Cached(fs.entries[key].value) else NotCached
    }

    /** `notInBackground(key)`. */
    function NotInBackground(key: Key): bool
      reads this
    {
      key !in bgMap
    }

    /** `emit(...)`: the event is appended to the log; nothing else changes. */
    method Emit(e: Event)
      modifies this
      ensures events == old(events) + [e]
      ensures mainCache == old(mainCache) && bgMap == old(bgMap)
      ensures fallbackCache == old(fallbackCache) && bgTimer == old(bgTimer)
    {
      events := events + [e];
    }

    /** `_resetBgUpdateTimer(delay)`: the next pass is armed after `delay`; nothing else changes. */
    method ResetBgUpdateTimer(delay: real)
      modifies this
      ensures bgTimer == Some(delay)
      ensures mainCache == old(mainCache) && bgMap == old(bgMap)
      ensures fallbackCache == old(fallbackCache) && events == old(events)
    {
      bgTimer := Some(delay);
    }

    /**
     * `needBackgroundUpdate(key, updateFunc)`: registers an absent key and
     * arms the background timer (delay 0) if none was ever armed.
     */
    method NeedBackgroundUpdate(key: Key, updateFunc: Refresher, now: real)
      requires Valid()
      modifies this
      ensures Valid()
      ensures bgMap == Register(old(bgMap), key, updateFunc, now)
      ensures bgTimer == if key !in old(bgMap) && old(bgTimer).None? then Some(0.0) else old(bgTimer)
      ensures mainCache == old(mainCache) && fallbackCache == old(fallbackCache) && events == old(events)
    {
      if key !in bgMap {
        bgMap := bgMap[key := BgEntry(updateFunc, now)];
        if bgTimer.None? {
          ResetBgUpdateTimer(0.0);
        }
      }
    }

    /** The sweep's body for one hot key. */
    method ExpireIfStale(key: Key, now: real)
      requires Valid() && key in mainCache
      modifies this
      ensures Valid()
      ensures SweepReady(SweepState(old(mainCache), old(fallbackCache), old(events)), capacity)
      ensures SweepState(mainCache, fallbackCache, events)
              == SweepKey(SweepState(old(mainCache), old(fallbackCache), old(events)), key, now, capacity)
      ensures bgMap == old(bgMap) && bgTimer == old(bgTimer)
    {
      var entry := mainCache[key];
      if now - entry.timestamp > (if entry.ttl == 0.0 then DefaultEntryTtl else entry.ttl) {
        if fallbackCache.Some? {
          fallbackCache := Some(FallbackPut(fallbackCache.value, key, entry.value, entry.methodName, now, capacity));
        }
        mainCache := mainCache - {key};
        events := events + [Expired(key, LocalTier, entry.methodName)];
      }
    }

    /** `_checkInvalid()` at time `now`, visiting the hot keys in `order`. */
    method CheckInvalid(now: real, order: seq<Key>)
      requires Valid()
      requires Enumerates(order, mainCache)
      modifies this
      ensures Valid()
      ensures SweepReady(SweepState(old(mainCache), old(fallbackCache), old(events)), capacity)
      ensures SweepState(mainCache, fallbackCache, events)
              == Sweep(SweepState(old(mainCache), old(fallbackCache), old(events)), order, now, capacity)
      ensures bgMap == old(bgMap) && bgTimer == old(bgTimer)
    {
      ghost var start := SweepState(mainCache, fallbackCache, events);
      var i := 0;
      while i < |order|
        invariant 0 <= i <= |order|
        invariant Valid() && bgMap == old(bgMap) && bgTimer == old(bgTimer)
        invariant forall j :: i <= j < |order| ==> order[j] in mainCache
        invariant Distinct(order[i..])
        invariant Sweep(SweepState(mainCache, fallbackCache, events), order[i..], now, capacity)
                  == Sweep(start, order, now, capacity)
      {
        ghost var cur := SweepState(mainCache, fallbackCache, events);
        DistinctTail(order[i..]);
        assert order[i..][1..] == order[i + 1..];
        assert Sweep(cur, order[i..], now, capacity)
               == Sweep(SweepKey(cur, order[i], now, capacity), order[i + 1..], now, capacity);
        ExpireIfStale(order[i], now);
        i := i + 1;
      }
    }

    /**
     * The pass's body for one registered key, with the count of successful
     * refreshes and the closures invoked so far.
     */
    method VisitRegistered(key: Key, step: BgStep<V>, updated: nat, invoked: seq<Refresher>)
      returns (updated': nat, invoked': seq<Refresher>)
      requires key in bgMap
      modifies this
      ensures fallbackCache == old(fallbackCache) && bgTimer == old(bgTimer)
      ensures mainCache.Keys == old(mainCache).Keys
      ensures updated' == updated || updated' == updated + 1
      ensures PassState(mainCache, bgMap, events, updated', invoked')
              == PassKey(PassState(old(mainCache), old(bgMap), old(events), updated, invoked),
                         key, step, options.bgUpdateExpired)
    {
      updated', invoked' := updated, invoked;
      var reg := bgMap[key];
      if step.at - reg.timestamp > options.bgUpdateExpired {
        bgMap := bgMap - {key};
        events := events + [BreakOff(key)];
      } else if key in mainCache {
        invoked' := invoked + [reg.updateFunc];
        match step.result
        case Refreshed(v, t) =>
          var e := mainCache[key];
          mainCache := mainCache[key := Entry(v, t, e.ttl, e.methodName)];
          updated' := updated + 1;
        case RefreshFailed(err) =>
          events := events + [ErrorEvent(err)];
      }
    }

    /**
     * The loop of `_updateBackground()`: visits the keys of `order` with the
     * observations `steps`, counting successful refreshes and accumulating
     * their pacing delay.
     */
    method VisitAll(order: seq<Key>, steps: seq<BgStep<V>>)
      returns (updated: nat, invoked: seq<Refresher>, totalDelay: real)
      requires PassReady(PassState(mainCache, bgMap, events, 0, []), order, steps)
      modifies this
      ensures fallbackCache == old(fallbackCache) && bgTimer == old(bgTimer)
      ensures var r := Pass(PassState(old(mainCache), old(bgMap), old(events), 0, []), order, steps, options.bgUpdateExpired);
        && mainCache == r.main && bgMap == r.registry && events == r.events && invoked == r.invoked
        && totalDelay == TotalDelay(r.updated, options.bgUpdateDelay)
    {
      ghost var start := PassState(mainCache, bgMap, events, 0, []);
      totalDelay := 0.0;
      updated := 0;
      invoked := [];
      var i := 0;
      while i < |order|
        invariant 0 <= i <= |order|
        invariant fallbackCache == old(fallbackCache) && bgTimer == old(bgTimer)
        invariant PassReady(PassState(mainCache, bgMap, events, updated, invoked), order[i..], steps[i..])
        invariant Pass(PassState(mainCache, bgMap, events, updated, invoked), order[i..], steps[i..], options.bgUpdateExpired)
                  == Pass(start, order, steps, options.bgUpdateExpired)
        invariant totalDelay == TotalDelay(updated, options.bgUpdateDelay)
      {
        ghost var cur := PassState(mainCache, bgMap, events, updated, invoked);
        PassUnfold(cur, order[i..], steps[i..], options.bgUpdateExpired);
        assert order[i..][1..] == order[i + 1..] && steps[i..][1..] == steps[i + 1..];
        var before := updated;
        updated, invoked := VisitRegistered(order[i], steps[i], updated, invoked);
        if updated > before {
          totalDelay := totalDelay + options.bgUpdateDelay;
        }
        i := i + 1;
      }
      assert order[i..] == [] && steps[i..] == [];
      assert PassState(mainCache, bgMap, events, updated, invoked) == Pass(start, order, steps, options.bgUpdateExpired);
    }

    /**
     * One `_updateBackground()` pass. It starts at `startTime` and ends at
     * `endTime`; `order` is the registry's key order and `steps[i]` what the
     * pass observes for `order[i]`. It returns the delay of the next pass
     * and the closures it invoked.
     */
    method UpdateBackground(startTime: real, order: seq<Key>, steps: seq<BgStep<V>>, endTime: real)
      returns (nextDelay: real, invoked: seq<Refresher>)
      requires Valid()
      requires Enumerates(order, bgMap) && |steps| == |order|
      modifies this
      ensures Valid() && fallbackCache == old(fallbackCache) && bgTimer == Some(nextDelay)
      ensures Cycle(mainCache, bgMap, events, invoked, nextDelay)
              == BackgroundCycle(old(mainCache), old(bgMap), old(events), order, steps, options, endTime - startTime)
    {
      if bgMap == map[] {
        nextDelay := EmptyRegistryDelay;
        invoked := [];
        ResetBgUpdateTimer(nextDelay);
      } else {
        nextDelay, invoked := RunPass(order, steps, endTime - startTime);
      }
    }

    /** The non-empty branch of `_updateBackground()`: the visits, the `bg.stats` event and the re-armed timer. */
    method RunPass(order: seq<Key>, steps: seq<BgStep<V>>, cycleTime: real)
      returns (nextDelay: real, invoked: seq<Refresher>)
      requires bgMap != map[]
      requires Enumerates(order, bgMap) && |steps| == |order|
      modifies this
      ensures fallbackCache == old(fallbackCache) && bgTimer == Some(nextDelay)
      ensures Cycle(mainCache, bgMap, events, invoked, nextDelay)
              == BackgroundCycle(old(mainCache), old(bgMap), old(events), order, steps, options, cycleTime)
    {
      var updated, totalDelay;
      updated, invoked, totalDelay := VisitAll(order, steps);
      Emit(BgStatsEvent(CycleStats(cycleTime, totalDelay, |bgMap|)));
      nextDelay := if cycleTime > options.bgUpdatePeriodDelay then 0.0 else options.bgUpdatePeriodDelay;
      ResetBgUpdateTimer(nextDelay);
    }
  }
}
