/**
 * SimpleStats: outcome counters in three scopes — `current` (since the last
 * reset), `total` (cumulative, never reset) and per-method `current` counters.
 *
 * The pure functions MarkState and ResetState say what `mark` and `reset` do
 * to the whole counter state; the class SimpleStats updates its fields in
 * place and is proved against them. Inv is the invariant both preserve:
 * total >= current, and current is the sum of the per-method counters.
 */
module Stats {
  import opened CacheTypes

  /** The thirteen outcome categories of `_buildEmptyStats`. */
  datatype Category =
    | Local | Remote | Update | Miss | Expired | Wait | Failed | FailedWait
    | Background | FailedBackground | Fallback | FallbackFirst | FallbackExpired

  const AllCategories: set<Category> :=
    {Local, Remote, Update, Miss, Expired, Wait, Failed, FailedWait,
     Background, FailedBackground, Fallback, FallbackFirst, FallbackExpired}

  /** Every category is one of the thirteen. */
  lemma AllCategoriesComplete()
    ensures forall k: Category :: k in AllCategories
  {
    forall k: Category ensures k in AllCategories {
      match k
      case Local => case Remote => case Update => case Miss => case Expired =>
      case Wait => case Failed => case FailedWait => case Background =>
      case FailedBackground => case Fallback => case FallbackFirst => case FallbackExpired =>
    }
  }

  /** One record of counters, keyed by category. */
  type Counters = map<Category, nat>

  /** The counter of `k` in `c` (absent counts as zero). */
  function Count(c: Counters, k: Category): nat {
    if k in c then c[k] else 0
  }

  /** A record holding a counter for every category. */
  ghost predicate Full(c: Counters) {
    forall k: Category :: k in c
  }

  /** `_buildEmptyStats()`: every one of the thirteen categories at zero. */
  function EmptyCounters(): (c: Counters)
    ensures Full(c)
    ensures forall k :: c[k] == 0
  {
    AllCategoriesComplete();
    map k | k in AllCategories :: 0
  }

  /** The record `c` with the counter of `k` raised by one. */
  function Bump(c: Counters, k: Category): Counters {
    c[k := Count(c, k) + 1]
  }

  /** The whole state of a stats collector; `order` is the insertion order of the per-method records. */
  datatype StatsState = StatsState(
    current: Counters,
    total: Counters,
    methods: map<Method, Counters>,
    order: seq<Method>)

  /** The value of `get()`: independent copies of the three scopes. */
  datatype Snapshot = Snapshot(total: Counters, current: Counters, methods: map<Method, Counters>)

  function SnapshotOf(s: StatsState): Snapshot {
    Snapshot(s.total, s.current, s.methods)
  }

  /** The state of a fresh collector. */
  const InitialState: StatsState := StatsState(EmptyCounters(), EmptyCounters(), map[], [])

  /** The per-method counter of `k` for method `m` (an unseen method counts as zero). */
  function MethodCount(ms: map<Method, Counters>, m: Method, k: Category): nat {
    if m in ms then Count(ms[m], k) else 0
  }

  /** The sum over the methods listed in `order` of their counters of `k`. */
  function Sum(order: seq<Method>, ms: map<Method, Counters>, k: Category): nat {
    if order == [] then 0 else MethodCount(ms, order[0], k) + Sum(order[1..], ms, k)
  }

  /** The invariant of a collector. */
  ghost predicate Inv(s: StatsState) {
    && Full(s.current)
    && Full(s.total)
    && (forall m :: m in s.methods ==> Full(s.methods[m]))
    && Enumerates(s.order, s.methods)
    && (forall k :: s.total[k] >= s.current[k])
    && (forall k :: s.current[k] == Sum(s.order, s.methods, k))
  }

  /** `mark(method, type)`: one more event of `k` in the current, total and per-method scopes. */
  function MarkState(s: StatsState, m: Method, k: Category): StatsState {
    var before := if m in s.methods then s.methods[m] else EmptyCounters();
    StatsState(
      Bump(s.current, k),
      Bump(s.total, k),
      s.methods[m := Bump(before, k)],
      if m in s.methods then s.order else s.order + [m])
  }

  /** `reset()`: current and every existing per-method record back to zero; total is kept. */
  function ResetState(s: StatsState): StatsState {
    s.(current := EmptyCounters(), methods := map m | m in s.methods :: EmptyCounters())
  }

  /** A fresh collector has all thirteen categories at zero in current and total, and no methods. */
  lemma InitialStateZero()
    ensures Inv(InitialState)
    ensures forall k :: InitialState.current[k] == 0 && InitialState.total[k] == 0
    ensures InitialState.methods == map[]
  {
  }

  /** `mark` raises the current and total counters of `k` by one and changes no other one. */
  lemma MarkCountsOne(s: StatsState, m: Method, k: Category)
    ensures forall c :: Count(MarkState(s, m, k).current, c) == Count(s.current, c) + (if c == k then 1 else 0)
    ensures forall c :: Count(MarkState(s, m, k).total, c) == Count(s.total, c) + (if c == k then 1 else 0)
  {
  }

  /** `mark` raises the counter of `k` for `m` by one, changes no other per-method counter and records `m`. */
  lemma MarkCountsMethod(s: StatsState, m: Method, k: Category)
    ensures forall n, c :: MethodCount(MarkState(s, m, k).methods, n, c)
                           == MethodCount(s.methods, n, c) + (if n == m && c == k then 1 else 0)
    ensures MarkState(s, m, k).methods.Keys == s.methods.Keys + {m}
  {
    forall n, c
      ensures MethodCount(MarkState(s, m, k).methods, n, c)
              == MethodCount(s.methods, n, c) + (if n == m && c == k then 1 else 0)
    {
      MethodCountBump(s.methods, m, k, n, c);
    }
  }

  /** `reset` zeroes current and every per-method record, keeps the method names and leaves total alone. */
  lemma ResetZeroes(s: StatsState)
    requires Inv(s)
    ensures var t := ResetState(s);
      && t.total == s.total
      && t.methods.Keys == s.methods.Keys
      && t.order == s.order
      && (forall c :: t.current[c] == 0)
      && (forall n, c :: n in t.methods ==> t.methods[n][c] == 0)
  {
  }

  /** Changing the record of a method that `order` does not list leaves the sum unchanged. */
  lemma {:induction false} SumOutside(order: seq<Method>, ms: map<Method, Counters>, m: Method, x: Counters, k: Category)
    requires m !in order
    ensures Sum(order, ms[m := x], k) == Sum(order, ms, k)
  {
    if order != [] {
      SumOutside(order[1..], ms, m, x, k);
    }
  }

  /** Summing over one more method at the end adds that method's counter. */
  lemma {:induction false} SumSnoc(order: seq<Method>, ms: map<Method, Counters>, m: Method, k: Category)
    ensures Sum(order + [m], ms, k) == Sum(order, ms, k) + MethodCount(ms, m, k)
  {
    if order == [] {
      assert order + [m] == [m];
    } else {
      assert (order + [m])[1..] == order[1..] + [m];
      SumSnoc(order[1..], ms, m, k);
    }
  }

  /** Raising one counter of method `m` changes only that method's counter of that category, by one. */
  lemma MethodCountBump(ms: map<Method, Counters>, m: Method, c: Category, n: Method, k: Category)
    ensures MethodCount(ms[m := Bump(if m in ms then ms[m] else EmptyCounters(), c)], n, k)
            == MethodCount(ms, n, k) + (if n == m && k == c then 1 else 0)
  {
    var before := if m in ms then ms[m] else EmptyCounters();
    assert Count(before, k) == MethodCount(ms, m, k);
    assert Count(Bump(before, c), k) == Count(before, k) + (if k == c then 1 else 0);
  }

  /** Raising one counter of a listed method raises the sum of that category by one. */
  lemma {:induction false} SumBump(order: seq<Method>, ms: map<Method, Counters>, m: Method, c: Category, k: Category)
    requires Distinct(order) && m in order
    ensures Sum(order, ms[m := Bump(if m in ms then ms[m] else EmptyCounters(), c)], k)
            == Sum(order, ms, k) + (if k == c then 1 else 0)
  {
    var x := Bump(if m in ms then ms[m] else EmptyCounters(), c);
    var t := ms[m := x];
    DistinctTail(order);
    MethodCountBump(ms, m, c, order[0], k);
    assert Sum(order, t, k) == MethodCount(t, order[0], k) + Sum(order[1..], t, k);
    if order[0] == m {
      SumOutside(order[1..], ms, m, x, k);
    } else {
      TailHolds(order, m);
      SumBump(order[1..], ms, m, c, k);
    }
  }

  /** A listed element other than the head is listed in the tail. */
  lemma TailHolds(order: seq<Method>, m: Method)
    requires m in order && order[0] != m
    ensures m in order[1..]
  {
    assert order == [order[0]] + order[1..];
  }

  /** With every per-method record at zero, every sum is zero. */
  lemma {:induction false} SumZero(order: seq<Method>, ms: map<Method, Counters>, k: Category)
    requires forall m :: m in ms ==> ms[m] == EmptyCounters()
    ensures Sum(order, ms, k) == 0
  {
    if order != [] {
      SumZero(order[1..], ms, k);
    }
  }

  /** `mark` raises the sum over the methods of category `c` by one exactly when `c` is the marked one. */
  lemma {:induction false} MarkSum(s: StatsState, m: Method, k: Category, c: Category)
    requires Enumerates(s.order, s.methods)
    ensures var t := MarkState(s, m, k);
      Sum(t.order, t.methods, c) == Sum(s.order, s.methods, c) + (if c == k then 1 else 0)
  {
    var x := Bump(if m in s.methods then s.methods[m] else EmptyCounters(), k);
    if m in s.methods {
      SumBump(s.order, s.methods, m, k, c);
    } else {
      SumSnoc(s.order, s.methods[m := x], m, c);
      SumOutside(s.order, s.methods, m, x, c);
    }
  }

  /** `mark` keeps every record full and total >= current. */
  lemma MarkKeepsRecords(s: StatsState, m: Method, k: Category)
    requires Inv(s)
    ensures var t := MarkState(s, m, k);
      && Full(t.current) && Full(t.total)
      && (forall n :: n in t.methods ==> Full(t.methods[n]))
      && (forall c :: t.total[c] >= t.current[c])
  {
  }

  /** `mark` keeps `order` an enumeration of the per-method records. */
  lemma MarkKeepsOrder(s: StatsState, m: Method, k: Category)
    requires Enumerates(s.order, s.methods)
    ensures Enumerates(MarkState(s, m, k).order, MarkState(s, m, k).methods)
  {
    if m !in s.methods {
      DistinctSnoc(s.order, m);
    }
  }

  /** `mark` preserves total >= current and current = sum of the per-method counters. */
  lemma {:induction false} MarkPreservesInv(s: StatsState, m: Method, k: Category)
    requires Inv(s)
    ensures Inv(MarkState(s, m, k))
  {
    var t := MarkState(s, m, k);
    MarkKeepsRecords(s, m, k);
    MarkKeepsOrder(s, m, k);
    forall c
      ensures t.current[c] == Sum(t.order, t.methods, c)
    {
      MarkSum(s, m, k, c);
    }
  }

  /** `reset` preserves the invariant. */
  lemma {:induction false} ResetPreservesInv(s: StatsState)
    requires Inv(s)
    ensures Inv(ResetState(s))
  {
    var t := ResetState(s);
    forall c
      ensures t.current[c] == Sum(t.order, t.methods, c)
    {
      SumZero(t.order, t.methods, c);
    }
  }

  /** The collector itself, with the three scopes as fields updated in place. */
  class SimpleStats {
    var currentStats: Counters
    var totalStats: Counters
    var methodStats: map<Method, Counters>
    var methodOrder: seq<Method>
    const statsInterval: real

    function State(): StatsState
      reads this
    {
      StatsState(currentStats, totalStats, methodStats, methodOrder)
    }

    ghost predicate Valid()
      reads this
    {
      Inv(State())
    }

    constructor (statsInterval: real)
      ensures Valid()
      ensures State() == InitialState
      ensures this.statsInterval == statsInterval
    {
      this.statsInterval := statsInterval;
      currentStats := EmptyCounters();
      totalStats := EmptyCounters();
      methodStats := map[];
      methodOrder := [];
      InitialStateZero();
    }

    /** `mark(method, type)`. */
    method Mark(m: Method, k: Category)
      modifies this
      ensures old(Valid()) ==> Valid()
      ensures State() == MarkState(old(State()), m, k)
    {
      if Valid() { MarkPreservesInv(State(), m, k); }
      currentStats := Bump(currentStats, k);
      totalStats := Bump(totalStats, k);
      var record := if m in methodStats then methodStats[m] else EmptyCounters();
      if m !in methodStats {
        methodOrder := methodOrder + [m];
      }
      methodStats := methodStats[m := Bump(record, k)];
    }

    /** `reset()`: the per-method records are reset one by one, in insertion order. */
    method Reset()
      requires Valid()
      modifies this
      ensures Valid()
      ensures State() == ResetState(old(State()))
    {
      ghost var before := State();
      ResetPreservesInv(before);
      currentStats := EmptyCounters();
      ZeroMethodRecords();
      assert State() == ResetState(before);
    }

    /** The loop of `reset()`: every per-method record, in insertion order, back to zero. */
    method ZeroMethodRecords()
      requires forall m :: m in methodStats <==> m in methodOrder
      modifies this
      ensures methodStats == map m | m in old(methodStats) :: EmptyCounters()
      ensures currentStats == old(currentStats) && totalStats == old(totalStats) && methodOrder == old(methodOrder)
    {
      var i := 0;
      while i < |methodOrder|
        invariant 0 <= i <= |methodOrder|
        invariant methodOrder == old(methodOrder) && totalStats == old(totalStats) && currentStats == old(currentStats)
        invariant methodStats.Keys == old(methodStats).Keys
        invariant forall j :: 0 <= j < i ==> methodStats[methodOrder[j]] == EmptyCounters()
        invariant forall m :: m in methodStats && m !in methodOrder[..i] ==> methodStats[m] == old(methodStats)[m]
      {
        methodStats := methodStats[methodOrder[i] := EmptyCounters()];
        i := i + 1;
      }
      assert forall m :: m in methodStats ==> m in methodOrder[..i];
    }

    /** `get()`: copies of the three scopes. */
    method Get() returns (s: Snapshot)
      requires Valid()
      ensures s.total == totalStats && s.current == currentStats && s.methods == methodStats
      ensures forall k :: s.total[k] >= s.current[k]
    {
      s := Snapshot(totalStats, currentStats, methodStats);
    }

    /** The periodic tick: take the snapshot, then reset; the snapshot is what gets emitted. */
    method Tick() returns (s: Snapshot)
      requires Valid()
      modifies this
      ensures Valid()
      ensures s == SnapshotOf(old(State()))
      ensures State() == ResetState(old(State()))
    {
      s := Get();
      Reset();
    }
  }
}
