# cache-proxy-plus caching engine, modelled in Dafny

This project models the caching engine of cache-proxy-plus, a method-call
cache for Node.js, and proves properties of the model. It covers:

- the per-call lookup protocol of `CacheLayer.wrap`: local hot store, optional
  remote tier, fallback-first shortcut, per-key deduplication registry
  (`concurrentControl`), the real upstream call and the fallback rescue;
- the tiered local store `LocalCache`: hot map, bounded fallback store,
  background-refresh registry, expiry sweep and one background-refresh pass;
- the outcome counters `SimpleStats` (current, total and per-method scopes);
- the option schema: defaults, bounds and validation.

Modules, one per source file plus shared vocabulary:

| module | file | models |
|---|---|---|
| `CacheTypes` | cache_types.dfy | keys, method names, errors, `{isCached, value}`, Option/Result, Map iteration orders |
| `Schema` | schema.dfy | src/Schema.ts as a pure function `Attempt` from a partial record to a complete one or a rejection |
| `Stats` | stats.dfy | src/SimpleStats.ts: class `SimpleStats` proved against the pure `MarkState` / `ResetState` |
| `KeyPolicy` | key_policy.dfy | the pure parts of src/CacheLayer.ts: `makeKey`, the `clear` prefix, `getTtl`, `randomTtl` |
| `Local` | local_cache.dfy | src/LocalCache.ts: class `LocalCache`; its two loops are proved against the folds `Sweep` and `Pass` |
| `Layer` | cache_layer.dfy | src/CacheLayer.ts: class `CacheLayer`; `wrap` is split at its `await`s into steps |
| `Scenarios` | scenarios.dfy | whole calls composed from the layer's steps |

How the model handles what it cannot run:

- **Time and randomness.** `Date.now()` is a parameter `now`. `Math.random()` is a parameter `r` in [0, 1).
- **Map iteration order.** The order in which a loop visits a JavaScript Map is a parameter `order`. It lists each key once (`Enumerates`).
- **Awaits.** What an `await` delivers is an input to the step that resumes after it:
  - the remote tier's answer;
  - the upstream value or error;
  - a waiter's settlement or timeout;
  - each background refresh's outcome.
- **Waiters.** A deferred is a ticket number. Settling it appends a `Delivery` to a log, and a waiter resumes with the first delivery to its ticket.
- **Numbers.** All numbers are mathematical reals, not IEEE doubles.

JavaScript runs every mutation on one thread between suspension points.
Each step here is therefore an atomic state change.

The model follows the code in one place where the intended behaviour might
be read as narrower. A waiter whose wait times out releases the key's
**whole** registration with the timeout error (src/CacheLayer.ts:121-125),
not only its own wait. So every other waiter of that key is rejected too.
The next identical call then becomes a second owner and issues a second
upstream call while the first one is still running.
`Scenarios.TimeoutAdmitsSecondOwner` proves this sequence.

## Model

| member | source | states |
|---|---|---|
| Schema.FillMethodTtls | src/Schema.ts:37-45 | every `methodTtls` entry keeps its key; an undefined value becomes the per-entry default |
| Schema.Attempt | src/Schema.ts:25-66 | definition of `Joi.attempt` against the schema: the first out-of-bound option in schema order is rejected, otherwise defaults fill the missing fields (properties in the Attempt lemmas below) |
| Schema.AttemptAccepts | src/Schema.ts:25-66 | validation succeeds exactly when every supplied value is within its bound (`> 0` for ttl, checkPeriod, statsInterval, methodTtls values, fallbackTtl, fallbackMax, concurrency; `>= 0` for the three background delays, zero included; a supplied `subject` is a non-empty string, not `null`), and what it returns satisfies every bound |
| Schema.Checks | src/Schema.ts:27-63 | the eleven checked options, in schema order, each with whether its supplied value is within its bound |
| Schema.AttemptRejects | src/Schema.ts:27-63 | a record is acceptable exactly when every check passes; when check i fails and every earlier one passes, validation fails naming option i (for each of the eleven options) |
| Schema.AttemptFills | src/Schema.ts:25-66 | each supplied value is kept unchanged and each missing field takes its default: 60000, 1000, 60000, false, {}, null, false, 3600000, 10000, false, false, 100, 5000, 3600000, 10, null |
| Schema.AttemptMethodTtls | src/Schema.ts:37-45 | a supplied `methodTtls` entry keeps its value; an entry present but undefined becomes 60000 |
| Schema.AttemptOptions | src/Schema.ts:68-70 | absent options are validated as `{}` and give the default record |
| Schema.DefaultsTable | src/Schema.ts:68-70 | the default record is what `{}` and absent options give, and it is itself valid |
| Schema.ValidIsFixedPoint | src/Schema.ts:25-66 | every record within the bounds that has a subject is returned unchanged by validation; one whose subject is `null` is rejected at `subject`, since `Joi.string()` does not accept `null` |
| Schema.AttemptIdempotent | src/Schema.ts:68-70 | validating a validated record again returns it unchanged when it has a subject, and rejects it at `subject` when the subject is still `null` |
| Schema.ProxyRevalidation | src/CacheProxy.ts:10-16 | the options the proxy factory passes on (`subject` replaced by `subject \|\| className`) pass the cache layer's second validation unchanged, unless the resulting subject is empty (no subject and an empty class name), which is rejected at `subject` |
| Schema.WithSubject | src/CacheProxy.ts:13-16 | definition of the options handed to the cache layer: `subject \|\| className` (a `null` or empty subject is replaced) |
| Stats.EmptyCounters | src/SimpleStats.ts:24-40 | an empty record holds all thirteen categories, each at zero |
| Stats.InitialStateZero | src/SimpleStats.ts:12-14 | a fresh collector has every category at 0 in current and total, no per-method records, and satisfies the invariant |
| Stats.MarkState | src/SimpleStats.ts:51-57 | definition of `mark` on the three scopes, an unseen method starting from an empty record (properties in MarkCountsOne, MarkCountsMethod, MarkSum, MarkPreservesInv) |
| Stats.ResetState | src/SimpleStats.ts:42-49 | definition of `reset`: current and every per-method record emptied, total kept (properties in ResetZeroes, ResetPreservesInv) |
| Stats.MarkCountsOne | src/SimpleStats.ts:51-53 | `mark` raises `current[type]` and `total[type]` by exactly one and leaves every other category unchanged |
| Stats.MarkCountsMethod | src/SimpleStats.ts:55-56 | `mark` raises `methods[method][type]` by exactly one, changes no other per-method counter, and adds `method` to the recorded methods (an unseen method starts from zero) |
| Stats.ResetZeroes | src/SimpleStats.ts:42-49 | `reset` zeroes every current counter and every existing per-method counter, keeps the set of method names, and leaves total unchanged |
| Stats.MarkSum | src/SimpleStats.ts:51-57 | `mark` raises the sum over methods of category `c` by one exactly when `c` is the marked category |
| Stats.MarkPreservesInv | src/SimpleStats.ts:51-57 | `mark` preserves the invariant: every record complete, total >= current per category, and current = sum of the per-method counters per category |
| Stats.ResetPreservesInv | src/SimpleStats.ts:42-49 | `reset` preserves the same invariant |
| Stats.SimpleStats.constructor | src/SimpleStats.ts:9-22 | a new collector is in the initial state and satisfies the invariant |
| Stats.SimpleStats.Mark | src/SimpleStats.ts:51-57 | the in-place update of the three fields yields `MarkState` of the old state and keeps the invariant |
| Stats.SimpleStats.Reset | src/SimpleStats.ts:42-49 | the in-place reset yields `ResetState` of the old state and keeps the invariant |
| Stats.SimpleStats.ZeroMethodRecords | src/SimpleStats.ts:46-48 | the loop over the recorded methods leaves exactly the same method names, each with an empty record, and changes nothing else |
| Stats.SimpleStats.Get | src/SimpleStats.ts:59-65 | the snapshot holds the three scopes as values (a later mark or reset cannot alter it), with total >= current in every category |
| Stats.SimpleStats.Tick | src/SimpleStats.ts:16-21 | the periodic tick emits the snapshot taken before the reset, then leaves the reset state |
| KeyPolicy.StripNonWord | src/CacheLayer.ts:161 | removing non-word characters keeps only word characters, keeps each word character, and never lengthens the text |
| KeyPolicy.StripNonWordFilter | src/CacheLayer.ts:161 | removal is a filter: it distributes over concatenation, keeps a single word character and drops any other single character |
| KeyPolicy.StripNonWordWords | src/CacheLayer.ts:161 | a text of word characters only is left unchanged |
| KeyPolicy.StripNonWordIdempotent | src/CacheLayer.ts:161 | removing twice gives what removing once gives |
| KeyPolicy.MakeKey | src/CacheLayer.ts:160-163 | definition of `makeKey`: `${subject}:${method}:${hash}` with non-word characters removed from the digest (properties in KeyLayout and KeysSeparate) |
| KeyPolicy.KeyLayout | src/CacheLayer.ts:160-163 | every key starts with `subject:method:` (subject printed as `null` when absent) and its hash part holds no colon |
| KeyPolicy.KeysSeparate | src/CacheLayer.ts:160-163 | under one subject, the keys of two colon-free method names are equal if and only if the names are equal and the digests strip to the same text |
| KeyPolicy.ClearPrefix | src/CacheLayer.ts:169-172 | definition of the prefix `clear(method)` builds: `${subject}:${method}`, with no closing colon (see Findings) |
| KeyPolicy.ClearPrefixOvermatches | src/CacheLayer.ts:169-172 | the prefix `clear(method)` builds also prefixes the keys of another method whose name extends `method` (see Findings) |
| KeyPolicy.MethodKeyPrefixExact | src/CacheLayer.ts:169-172 | the prefix `subject:method:` prefixes a key of method `m` if and only if `m` is `method` (for colon-free names) |
| KeyPolicy.GetTtl | src/CacheLayer.ts:232-235 | definition of `getTtl`: `methodTtls[method] \|\| ttl`, a missing or zero entry falling back to `ttl` (properties in GetTtlValid) |
| KeyPolicy.RandomTtl | src/CacheLayer.ts:223-230 | definition of the write TTL: `getTtl` times `0.8 + 0.3 * random` with `randomTtl` on, `getTtl` itself otherwise (properties in RandomTtlBounds) |
| KeyPolicy.GetTtlValid | src/CacheLayer.ts:232-235 | under validated options the TTL of a method is positive: its `methodTtls` entry when it has one, else `ttl` |
| KeyPolicy.RandomTtlBounds | src/CacheLayer.ts:223-230 | the write TTL is positive; it equals `getTtl` when jitter is off and lies in [0.8, 1.1) x `getTtl` when it is on |
| Local.Put | src/LocalCache.ts:68-71 | `set` stores `{value, timestamp: now, ttl, method}` under the key, replacing any earlier entry, and changes no other key |
| Local.Lookup | src/LocalCache.ts:60-65 | `get` answers cached exactly when the key is in the hot store, and then with its value |
| Local.Touch | src/LocalCache.ts:55-58 | `get` sets the registration timestamp of an already registered key to `now`, adds no registration and changes no other key |
| Local.Register | src/LocalCache.ts:94-102 | definition of registration for background refresh: an absent key gets `{updateFunc, timestamp: now}`, a present one is left alone (properties in RegisterIdempotent) |
| Local.RegisterIdempotent | src/LocalCache.ts:94-102 | registration adds only an absent key, with the given closure and time; it never touches another key; registering again keeps the first closure and timestamp |
| Local.FallbackPut | src/LocalCache.ts:23-31 | a write to the fallback store stores `{value, method}` under the key, keeps every other surviving entry and never exceeds capacity `fallbackMax`; rewriting a present key keeps the key set; a new key is added, evicting nothing below capacity and exactly the oldest entry when the store is full |
| Local.FallbackBounded | src/LocalCache.ts:23-25 | the fallback store never holds more than `fallbackMax` entries |
| Local.FallbackPutThenLive | src/LocalCache.ts:23-26 | a value just written to the fallback store is served until `fallbackTtl` has passed, and not after |
| Local.SweepKey | src/LocalCache.ts:37-43 | definition of the sweep's step for one hot key: an expired entry leaves the hot map, goes to the fallback store if there is one, and is reported as `expired` |
| Local.Sweep | src/LocalCache.ts:35-48 | definition of the sweep as the step applied to each hot key in turn (properties in the Sweep lemmas below) |
| Local.SweepRemovesExpired | src/LocalCache.ts:35-48 | the sweep removes exactly the hot entries with `now - timestamp > (ttl or 60000)` (strict) and leaves every surviving entry unchanged |
| Local.SweepReportsExpired | src/LocalCache.ts:35-48 | the sweep only appends events, exactly one hot-tier `expired` event per removed key and none for any other key |
| Local.SweepCopiesToFallback | src/LocalCache.ts:37-41 | with fallback on and room in the fallback store for every entry that expires (whatever the number of hot entries visited), each removed entry is in the fallback store as `{value, method}` stored at `now`, and every other fallback entry is as before |
| Local.SweepWithoutFallback | src/LocalCache.ts:38-40 | with fallback off the sweep creates no fallback store |
| Local.PassKey | src/LocalCache.ts:119-142 | definition of the background pass's step for one registered key (properties in PassKeyEffect) |
| Local.Pass | src/LocalCache.ts:115-143 | definition of the pass as that step applied to each registered key in turn (properties in the Pass lemmas below) |
| Local.PassKeyEffect | src/LocalCache.ts:118-143 | for one registered key: silent longer than `bgUpdateExpired`, it is deregistered with a `bg.break.off` event and its hot entry kept; otherwise a successful refresh replaces the hot value with the refresh time as timestamp, keeping ttl and method; a failure emits `error` and changes nothing else; for a hot key that is not silent the refresh closure is invoked once, and only a success raises the refresh count; a key with no hot entry is left as it was |
| Local.PassAtKey | src/LocalCache.ts:118-143 | a whole pass treats each visited key as that single step would, whatever the other keys do (the pass continues after a failure) |
| Local.PassSkipsKey | src/LocalCache.ts:118-143 | a pass leaves the hot entry and registration of a key it does not visit unchanged |
| Local.RefreshCount | src/LocalCache.ts:118-143 | counts the keys of the visiting order that are registered, not silent past `bgUpdateExpired`, hot, and whose refresh returned a value; never more than the keys visited |
| Local.PassUpdatedCount | src/LocalCache.ts:118-143 | a pass's refresh count is exactly `RefreshCount` of the state before the pass |
| Local.PassUpdatedBound | src/LocalCache.ts:118-143 | a pass counts at most one successful refresh per visited key and only removes registrations |
| Local.PassKeepsHotKeys | src/LocalCache.ts:118-143 | a pass neither adds nor removes hot entries |
| Local.PassAppends | src/LocalCache.ts:118-143 | a pass only appends events, and invokes at most one refresh closure per visited key |
| Local.TotalDelayProduct | src/LocalCache.ts:136-137 | the accumulated pacing delay is `bgUpdateDelay` times the number of successful refreshes |
| Local.CycleStats | src/LocalCache.ts:145-152 | the definition of the `bg.stats` payload, with `updateTime` the part of the cycle not spent in pacing; what `delayTime` and `updatedSize` hold is stated by BackgroundCycleDelay and BackgroundCycleStats |
| Local.NextPassDelay | src/LocalCache.ts:154 | the next pass follows after 0 exactly when the cycle overran `bgUpdatePeriodDelay` (or that delay is 0), else after `bgUpdatePeriodDelay` |
| Local.BackgroundCycle | src/LocalCache.ts:109-155 | definition of one `_updateBackground()` call: the idle re-arm for an empty registry, else the pass, its `bg.stats` event and the next delay (properties in the BackgroundCycle lemmas) |
| Local.BackgroundCycleIdle | src/LocalCache.ts:110-113 | with an empty registry a pass changes nothing, invokes nothing and re-arms the timer after 1000 |
| Local.BackgroundCycleActive | src/LocalCache.ts:109-155 | a pass over a non-empty registry keeps the hot keys, only drops registrations, invokes at most one closure per registration, appends events, and follows the pacing rule for the next delay |
| Local.BackgroundCycleDelay | src/LocalCache.ts:134-148 | the pacing share `delayTime` of the `bg.stats` event is `bgUpdateDelay` times `RefreshCount`, the number of successful refreshes of visited, hot, not silent keys |
| Local.BackgroundCycleStats | src/LocalCache.ts:145-152 | the last event of a pass is its `bg.stats`, with the cycle time, parts adding up to it, a pacing share between 0 and one delay per registration, and `updatedSize` the registry size after the pass |
| Local.LocalCache.constructor | src/LocalCache.ts:16-33 | a new store has an empty hot map and registry, no armed timer, and a fallback store (empty, capacity `fallbackMax`) exactly when `fallback` is on |
| Local.LocalCache.NotInBackground | src/LocalCache.ts:90-92 | `notInBackground(key)` holds exactly when the key is not registered for background refresh |
| Local.LocalCache.Has | src/LocalCache.ts:50-52 | `has(key)` holds exactly when `get(key)` reports the key as cached |
| Local.LocalCache.Set | src/LocalCache.ts:68-71 | the hot map becomes `Put` of the old one; nothing else changes |
| Local.LocalCache.Get | src/LocalCache.ts:54-66 | returns `Lookup` of the hot map, touches an existing registration, and changes nothing else |
| Local.LocalCache.HasInFallback | src/LocalCache.ts:73-75 | true exactly when fallback is on and the fallback store holds the key with age at most `fallbackTtl`, that is exactly when `getFromFallback` returns a cached value |
| Local.LocalCache.GetFromFallback | src/LocalCache.ts:77-88 | cached exactly when fallback is on and the key's fallback entry is at most `fallbackTtl` old; not cached whenever fallback is off; a cached answer is the value the fallback store holds for the key |
| Local.LocalCache.ResetBgUpdateTimer | src/LocalCache.ts:104-107 | arms the next pass after `delay` and changes nothing else |
| Local.LocalCache.NeedBackgroundUpdate | src/LocalCache.ts:94-102 | registers an absent key only, arms the timer with delay 0 only if none was ever armed, and changes nothing else |
| Local.LocalCache.ExpireIfStale | src/LocalCache.ts:37-43 | the loop body for one key is the sweep's step for that key |
| Local.LocalCache.CheckInvalid | src/LocalCache.ts:35-48 | the loop over the hot keys leaves exactly the state of the fold `Sweep` (whose properties are the Sweep lemmas above) and keeps the registry and timer |
| Local.LocalCache.VisitRegistered | src/LocalCache.ts:119-142 | the loop body for one registered key is the pass's step for that key |
| Local.LocalCache.VisitAll | src/LocalCache.ts:115-143 | the loop leaves exactly the state of the fold `Pass` and accumulates `totalDelay` as `bgUpdateDelay` per successful refresh |
| Local.LocalCache.RunPass | src/LocalCache.ts:115-154 | the non-empty pass: visits, `bg.stats`, and the re-armed timer, as `BackgroundCycle` describes |
| Local.LocalCache.UpdateBackground | src/LocalCache.ts:109-155 | one `_updateBackground()` call leaves exactly the state `BackgroundCycle` gives (whose properties are the BackgroundCycle lemmas), keeps the fallback store, and arms the timer with the next delay |
| Layer.Deliveries | src/CacheLayer.ts:255-257 | one notification settles every waiter of the list, in list order, with the same settlement |
| Layer.CheckState | src/CacheLayer.ts:237-248 | definition of `checkConcurrent` on the registry of waiting lists and the ticket counter (properties in CheckConcurrentEffect) |
| Layer.NotifyState | src/CacheLayer.ts:250-259 | definition of `notifyWaiting`: the registration is removed and its waiters settled (properties in NotifySettlesAll, NotifyTwice) |
| Layer.CheckConcurrentEffect | src/CacheLayer.ts:237-248 | for an unregistered key the caller is the owner and the key is registered with an empty list; for a registered key the caller gets a fresh ticket appended at the end and is not the owner; other keys and settled deliveries are untouched |
| Layer.NotifySettlesAll | src/CacheLayer.ts:250-259 | notifying a registered key unregisters it and settles each waiter in list order with the same value or error; an unregistered key is a no-op; other keys are unchanged |
| Layer.NotifyTwice | src/CacheLayer.ts:250-259 | a second notification of the same key changes nothing |
| Layer.SettlementKept | src/CacheLayer.ts:255-257 | a deferred once settled keeps its settlement, whatever is settled afterwards |
| Layer.SettledByNotify | src/CacheLayer.ts:255-257 | a waiter reached by a notification, not settled before, resumes with that notification's settlement |
| Layer.ExpiryCategory | src/CacheLayer.ts:56-60 | the category an `expired` event is counted under: `expired` for the hot tier, `fallbackExpired` for the fallback store |
| Layer.MarkExpiriesCounts | src/CacheLayer.ts:56-60 | relaying the store's `expired` events raises total `expired` by exactly the number of hot-tier expiries |
| Layer.MarkExpiriesInv | src/CacheLayer.ts:56-60 | the relayed marks keep the stats invariant |
| Layer.MarkRefreshesCounts | src/CacheLayer.ts:263-265 | each invoked refresh closure raises total `background` and total `update` by one |
| Layer.MarkRefreshesInv | src/CacheLayer.ts:263-265 | the refresh marks keep the stats invariant |
| Layer.CacheLayer.constructor | src/CacheLayer.ts:24-38 | a new layer over validated options has empty stores, no registrations and fresh counters |
| Layer.CacheLayer.SetCache | src/CacheLayer.ts:206-221 | writes the hot entry with the jittered TTL; issues a remote write with the same TTL only when not local-only and a remote tier exists |
| Layer.CacheLayer.CheckConcurrent | src/CacheLayer.ts:237-248 | the in-place registry update and the returned ticket are those of `CheckState` (see CheckConcurrentEffect) |
| Layer.CacheLayer.NotifyWaiting | src/CacheLayer.ts:250-259 | the registration is removed and the loop settles its waiters one by one, leaving exactly `NotifyState` (see NotifySettlesAll) |
| Layer.CacheLayer.LookupLocal | src/CacheLayer.ts:74-79 | a hot hit returns the stored value, marks only `local`, and touches only the key's registration timestamp; a miss changes nothing |
| Layer.CacheLayer.LookupRemote | src/CacheLayer.ts:82-92 | run only when a remote tier exists; a remote hit returns that value, writes it to the hot store only (no remote write, no registration) and marks `remote`, so the next identical call is a hot hit; a miss changes nothing |
| Layer.CacheLayer.FallbackFirstHit | src/CacheLayer.ts:96-107 | returns the live fallback value, marks `fallbackFirst`, writes it to the hot store only, creates no registration and schedules one refresh |
| Layer.CacheLayer.LookupShared | src/CacheLayer.ts:96-132 | the fallback-first shortcut as above; otherwise `checkConcurrent`: a waiter marks `wait` and gets its ticket, an owner marks `miss` then `update`; no hot or fallback change |
| Layer.CacheLayer.CheckNeedBackground | src/CacheLayer.ts:261-269 | with `bgUpdate` on, an unregistered key is registered with a closure for its method; with it off nothing changes |
| Layer.CacheLayer.OwnerSucceeded | src/CacheLayer.ts:133-138 | the value is returned, written to the hot store (and the remote tier), every waiter is resolved with it; with `bgUpdate` on an unregistered key is registered for background refresh, and the refresh timer is armed at 0 if it never was |
| Layer.CacheLayer.OwnerFailed | src/CacheLayer.ts:139-156 | with `fallback` on and a live fallback entry: returns it, marks `fallback`, resolves the waiters with it; otherwise marks `failed`, rejects every waiter with the same error and rethrows it; the hot store is never written |
| Layer.CacheLayer.WaiterSettled | src/CacheLayer.ts:112-126 | a resolved waiter returns the delivered value and changes nothing; a rejected one marks `failedWait`, releases the key's current registration with that error, and rethrows |
| Layer.CacheLayer.WaiterTimedOut | src/CacheLayer.ts:121-126 | a waiter that times out marks `failedWait`, rejects the key's whole registration with the timeout error, and rethrows it |
| Layer.CacheLayer.StartJob | src/CacheLayer.ts:178-182 | a scheduled refresh starts: the oldest job leaves the queue and marks `background` then `update` |
| Layer.CacheLayer.JobSucceeded | src/CacheLayer.ts:182-183 | a refresh's value is written to the hot store with the jittered TTL and to the remote tier; nothing else changes |
| Layer.CacheLayer.JobFailed | src/CacheLayer.ts:184-189 | a failed refresh marks `failedBackground`, emits the error with `[Error CacheProxy UpdateBackground] ` before its message, and changes no store |
| Layer.CacheLayer.MarkRefresh | src/CacheLayer.ts:263-265 | a refresh closure marks `background`, then `update` |
| Layer.CacheLayer.RelayExpiries | src/CacheLayer.ts:56-60 | the loop marks `expired` (hot tier) or `fallbackExpired` for each expiry event, in order |
| Layer.CacheLayer.CheckInvalid | src/CacheLayer.ts:56-60 | a sweep of the local store with its new `expired` events relayed to the counters |
| Layer.CacheLayer.BackgroundPass | src/CacheLayer.ts:263-267 | a background pass of the local store, each invoked closure marking `background` and `update` |
| Layer.CacheLayer.RelayRefreshes | src/CacheLayer.ts:263-265 | the loop marks `background` and `update` once per invoked closure, in order |
| Scenarios.ConcurrentIdenticalCalls | src/CacheLayer.ts:63-158 | n identical calls on an empty cache, with the upstream call returning v: every call gets v, the counters show exactly 1 `miss`, 1 `update` and n - 1 `wait`, and the next identical call is a hot hit |
| Scenarios.TimeoutAdmitsSecondOwner | src/CacheLayer.ts:111-127 | a waiter's timeout releases the registration: the timed-out call throws the timeout error, the next identical call becomes a second owner, and the counters show 2 `miss` and 1 `failedWait` |

## Left out

- Timers and scheduling are left out. This covers `setTimeout`, `setInterval`, `unref`, `setImmediate`, the periodic re-arming of the sweep and the stats tick, and `pTimeout`. These are scheduler plumbing. Each timer firing is one call of the corresponding step. A timeout is an input event, so the wait and upstream-call timeouts using the unjittered `getTtl` is not modelled.
- The `p-queue` limit on concurrent upstream calls is a library property and is left out.
- The SHA-1 / base64 digest and `JSON.stringify` in `makeKey` are foreign calls. The digest is the parameter `digest`; only the removal of non-word characters and the key layout are modelled.
- Local.FallbackPut: this uses write order in place of lru-cache's recency. lru-cache also refreshes recency on `get`, and its internals are not part of this model.
- The fallback store's dispose callback (`fallbackExpired` events on eviction) is not modelled, because it belongs to lru-cache. The relay for such events is modelled in `Layer.ExpiryCategory`.
- Local.LocalCache.constructor: this requires an integral `fallbackMax` when fallback is on. lru-cache rejects other values, and that exception is not modelled. lru-cache is understood to reject a non-integral `ttl` in the same way, so a non-integral `fallbackTtl` with fallback on would throw there too. The model accepts any positive `fallbackTtl` and compares ages against it. lru-cache's source is not part of this model, so neither rule is confirmed here.
- `clear(method)` / `clear()` are modelled only as the prefix string. `fuzzyDelete` and `clear` are called on the local store but are not defined in src/LocalCache.ts.
- Two sweep details are simplified:
  - `Date.now()` inside the sweep is one `now` per sweep.
  - Entries added to a Map while a background pass awaits are not visited.
- Each background step is atomic. Calls that run while a pass awaits are not modelled; these include `get`s that touch registration timestamps.
- An exception in the background loop other than a failing `updateFunc` is not modelled.
- The EventEmitter relays `stats`, `bg.stats`, `bg.break.off` and `error` (src/CacheLayer.ts:40-55) are left out. Local events are kept as the log `events`, and scheduled-refresh errors as the log `errors`.
- A remote `get` or `set` failing is left out. This includes the `[Error CacheProxy UpdateRemoteCache]` relay. Remote writes are only logged.
- Layer.CacheLayer.Valid: this does not include the stats invariant. `Stats.SimpleStats.Mark` keeps it (`old(Valid()) ==> Valid()`), and `Stats.MarkPreservesInv`, `Layer.MarkExpiriesInv` and `Layer.MarkRefreshesInv` prove it. The layer's methods state their stats effect as `MarkState` terms.
- Some steps a caller composes are left to the caller:
  - whether step 2 runs;
  - the order in which waiters resume;
  - when a scheduled refresh starts.

  `Scenarios` shows two such compositions.
- Joi's type coercion and unknown-key handling are left out: numbers are checked only against their bounds, and a `subject` is either absent, `null` or a string. The `remoteCache instanceof RemoteCache` assertion (src/CacheLayer.ts:30-33) is left out too.
- Error values are the datatype `Error(message)`, which is always truthy. An upstream call that throws a falsy value is not modelled. For `0`, `''` or `false`, `err ? reject : resolve` (src/CacheLayer.ts:256) resolves the waiters with `null` while the owner rethrows. For `null` or `undefined`, reading `err.message` (src/CacheLayer.ts:152) throws first and the waiters are not notified.
- src/CacheProxy.ts (method interception) and src/RemoteCache.ts (an abstract interface) are not part of this model, except the subject substitution of src/CacheProxy.ts:13-16 (`Schema.WithSubject`). The remote tier is an oracle input.
- Numbers are reals, not IEEE doubles.
- KeyPolicy.GetTtl: `methodTtls` (src/CacheLayer.ts:232-235) is a plain object in the source, and so is `_methodStats` in `Stats.MarkState` (src/SimpleStats.ts:55-56). A lookup there also finds members inherited from `Object.prototype`. A wrapped async method named `toString`, `valueOf` or `hasOwnProperty` with no own entry therefore gets the inherited function as its TTL, and `mark` reads that function in place of a fresh counter record until the first `reset`. Both maps are modelled as own keys only, so the model gives such a method `ttl` and a fresh record.

## Findings

| source | as written | input that shows it | evidently intended | confidence | as-written member | corrected member |
|---|---|---|---|---|---|---|
| src/CacheLayer.ts:171 | `clear(method)` builds the prefix `subject:method` without a closing colon | `clear("doJob")` builds `null:doJob`. That also prefixes the key `null:doJobX:<hash>` of method `doJobX`, so a prefix delete reaches another method's entries | the prefix `subject:method:`, which selects exactly the keys of `method` | low: `fuzzyDelete` is not defined in the source, so prefix matching is assumed; not executed | KeyPolicy.ClearPrefixOvermatches | KeyPolicy.MethodKeyPrefixExact |
