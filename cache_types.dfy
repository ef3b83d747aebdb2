/**
 * Shared vocabulary of the caching engine: keys, method names, errors,
 * the `{isCached, value}` lookup wrapper and the Option/Result wrappers.
 */
module CacheTypes {

  /** A cache key, `subject:method:hash`. */
  type Key = string

  /** The name of a proxied method. */
  type Method = string

  datatype Option<+T> = None | Some(value: T) {
    function GetOr(default: T): T {
      match this
      case Some(v) => v
      case None => default
    }
  }

  datatype Result<+R, +E> = Success(value: R) | Failure(error: E)

  /** A thrown JavaScript error, reduced to its message. */
  datatype Error = Error(message: string)

  /** The message of the timeout error raised by a waiter or an upstream call. */
  const TimeoutMessage: string := "CacheProxy - Timeout while waiting in concurrent"

  const TimeoutError: Error := Error(TimeoutMessage)

  /** The `{isCached, value}` object returned by the local store's lookups. */
  datatype Cached<+V> = Cached(value: V) | NotCached

  /** A sequence with no repeated element. */
  ghost predicate Distinct<T>(s: seq<T>) {
    forall i, j :: 0 <= i < j < |s| ==> s[i] != s[j]
  }

  /** `order` lists every key of `m` exactly once: the iteration order of a JavaScript Map. */
  ghost predicate Enumerates<K(!new), W>(order: seq<K>, m: map<K, W>) {
    Distinct(order) && (forall k :: k in order <==> k in m)
  }

  /** Dropping the head of a sequence with no repeats leaves one with no repeats, without the head. */
  lemma DistinctTail<T>(s: seq<T>)
    requires Distinct(s) && s != []
    ensures Distinct(s[1..])
    ensures s[0] !in s[1..]
  {
    forall i, j | 0 <= i < j < |s[1..]| ensures s[1..][i] != s[1..][j] {
      assert s[1..][i] == s[i + 1] && s[1..][j] == s[j + 1];
    }
    forall i | 0 <= i < |s[1..]| ensures s[1..][i] != s[0] {
      assert s[1..][i] == s[i + 1];
    }
  }

  /** Appending an element the sequence lacks keeps it free of repeats. */
  lemma DistinctSnoc<T>(s: seq<T>, x: T)
    requires Distinct(s) && x !in s
    ensures Distinct(s + [x])
  {
    forall i, j | 0 <= i < j < |s + [x]| ensures (s + [x])[i] != (s + [x])[j] {
      if j == |s| {
        assert (s + [x])[i] == s[i];
      }
    }
  }

  /** A map enumerated by a sequence has as many keys as the sequence has elements. */
  lemma {:induction false} EnumeratedSize<K(!new), W>(order: seq<K>, m: map<K, W>)
    requires Enumerates(order, m)
    ensures |m| == |order|
  {
    if order == [] {
      assert m == map[];
    } else {
      DistinctTail(order);
      var rest := m - {order[0]};
      assert Enumerates(order[1..], rest);
      EnumeratedSize(order[1..], rest);
    }
  }
}
