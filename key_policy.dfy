/**
 * Key and TTL policy of the cache layer: the `subject:method:hash` key, the
 * prefix `clear(method)` builds, the per-method TTL and its optional jitter.
 *
 * The SHA-1/base64 digest of the serialised arguments is an input (`digest`);
 * only the removal of non-word characters and the key's layout are modelled.
 * `Math.random()` is the input `r`, a real in [0, 1).
 */
module KeyPolicy {
  import opened CacheTypes
  import opened Schema

  /** A character matched by `\w`. */
  predicate IsWordChar(c: char) {
    ('a' <= c <= 'z') || ('A' <= c <= 'Z') || ('0' <= c <= '9') || c == '_'
  }

  /** `.replace(/\W/g, '')`: the characters of `s` that are word characters, in order. */
  function StripNonWord(s: string): (r: string)
    ensures |r| <= |s|
    ensures forall i :: 0 <= i < |r| ==> IsWordChar(r[i])
    ensures forall i :: 0 <= i < |s| && IsWordChar(s[i]) ==> s[i] in r
  {
    if s == [] then []
    else if IsWordChar(s[0]) then [s[0]] + StripNonWord(s[1..])
    else StripNonWord(s[1..])
  }

  /**
   * `StripNonWord` is a filter: it distributes over concatenation, keeps a
   * single word character and drops any other single character.
   */
  lemma {:induction false} StripNonWordFilter(a: string, b: string)
    ensures StripNonWord(a + b) == StripNonWord(a) + StripNonWord(b)
    ensures |a| == 1 ==> StripNonWord(a) == if IsWordChar(a[0]) then a else []
    decreases |a|
  {
    if a == [] {
      assert a + b == b;
    } else {
      assert (a + b)[1..] == a[1..] + b;
      StripNonWordFilter(a[1..], b);
      if |a| == 1 {
        assert a[1..] == [];
      }
    }
  }

  /** Stripping twice strips once. */
  lemma {:induction false} StripNonWordIdempotent(s: string)
    ensures StripNonWord(StripNonWord(s)) == StripNonWord(s)
  {
    StripNonWordWords(StripNonWord(s));
  }

  /** A string of word characters only is left unchanged. */
  lemma {:induction false} StripNonWordWords(s: string)
    requires forall i :: 0 <= i < |s| ==> IsWordChar(s[i])
    ensures StripNonWord(s) == s
  {
    if s != [] {
      assert forall i :: 0 <= i < |s[1..]| ==> IsWordChar(s[1..][i]) by {
        forall i | 0 <= i < |s[1..]| ensures IsWordChar(s[1..][i]) { assert s[1..][i] == s[i + 1]; }
      }
      StripNonWordWords(s[1..]);
      assert [s[0]] + s[1..] == s;
    }
  }

  /** The subject as a template literal prints it: `null` when there is none. */
  function SubjectText(subject: Option<string>): string {
    if subject.None? then "null" else subject.value
  }

  /** `makeKey(args, method)` with the digest of the arguments given. */
  function MakeKey(subject: Option<string>, name: Method, digest: string): Key {
    SubjectText(subject) + ":" + name + ":" + StripNonWord(digest)
  }

  predicate IsPrefix(p: string, s: string) {
    |p| <= |s| && s[..|p|] == p
  }

  predicate ColonFree(s: string) {
    forall i :: 0 <= i < |s| ==> s[i] != ':'
  }

  /** Every key starts with `subject:method:`, and its hash part holds no colon. */
  lemma KeyLayout(subject: Option<string>, name: Method, digest: string)
    ensures var key := MakeKey(subject, name, digest);
      && IsPrefix(SubjectText(subject) + ":" + name + ":", key)
      && ColonFree(key[|SubjectText(subject)| + |name| + 2..])
  {
    var key := MakeKey(subject, name, digest);
    var head := SubjectText(subject) + ":" + name + ":";
    assert key == head + StripNonWord(digest);
    assert key[|head|..] == StripNonWord(digest);
  }

  /** The index of the first colon of `s`, or `|s|` when there is none. */
  function FirstColon(s: string): (i: nat)
    ensures i <= |s|
  {
    if s == [] || s[0] == ':' then 0 else 1 + FirstColon(s[1..])
  }

  /** In `m:t` with a colon-free `m`, the first colon ends `m`. */
  lemma {:induction false} FirstColonAfter(m: string, t: string)
    requires ColonFree(m)
    ensures FirstColon(m + ":" + t) == |m|
  {
    if m != [] {
      assert (m + ":" + t)[1..] == m[1..] + ":" + t;
      FirstColonAfter(m[1..], t);
    }
  }

  /** `m1:t1 == m2:t2` with colon-free `m1`, `m2` splits the same way on both sides. */
  lemma SplitAtColon(m1: string, t1: string, m2: string, t2: string)
    requires ColonFree(m1) && ColonFree(m2)
    requires m1 + ":" + t1 == m2 + ":" + t2
    ensures m1 == m2 && t1 == t2
  {
    FirstColonAfter(m1, t1);
    FirstColonAfter(m2, t2);
    var w := m1 + ":" + t1;
    assert m1 == w[..|m1|] && t1 == w[|m1| + 1..];
    assert m2 == w[..|m2|] && t2 == w[|m2| + 1..];
  }

  /** Under one subject, keys of two colon-free method names coincide only when the names do and the digests strip alike. */
  lemma {:induction false} KeysSeparate(subject: Option<string>, m1: Method, m2: Method, d1: string, d2: string)
    requires ColonFree(m1) && ColonFree(m2)
    ensures MakeKey(subject, m1, d1) == MakeKey(subject, m2, d2)
            <==> m1 == m2 && StripNonWord(d1) == StripNonWord(d2)
  {
    var s := SubjectText(subject);
    var k1, k2 := MakeKey(subject, m1, d1), MakeKey(subject, m2, d2);
    var h1, h2 := StripNonWord(d1), StripNonWord(d2);
    assert k1 == s + ":" + (m1 + ":" + h1) && k2 == s + ":" + (m2 + ":" + h2);
    if k1 == k2 {
      assert m1 + ":" + h1 == k1[|s| + 1..] == k2[|s| + 1..] == m2 + ":" + h2;
      SplitAtColon(m1, h1, m2, h2);
    }
  }

  /** `clear(method)` as written: the prefix `subject:method`, without the closing colon. */
  function ClearPrefix(subject: Option<string>, name: Method): string {
    SubjectText(subject) + ":" + name
  }

  /**
   * The prefix as written also matches keys of every method whose name
   * extends `method`: clearing `doJob` reaches the keys of `doJobX`.
   */
  lemma ClearPrefixOvermatches(subject: Option<string>, digest: string)
    ensures IsPrefix(ClearPrefix(subject, "doJob"), MakeKey(subject, "doJobX", digest))
  {
    var key := MakeKey(subject, "doJobX", digest);
    var p := ClearPrefix(subject, "doJob");
    assert key == p + "X:" + StripNonWord(digest);
    assert key[..|p|] == p;
  }

  /** The prefix that selects exactly the keys of one method: `subject:method:`. */
  function MethodKeyPrefix(subject: Option<string>, name: Method): string {
    SubjectText(subject) + ":" + name + ":"
  }

  /** For colon-free method names, `subject:method:` is a prefix of a key of `m` exactly when `m` is `method`. */
  lemma {:induction false} MethodKeyPrefixExact(subject: Option<string>, name: Method, m: Method, digest: string)
    requires ColonFree(name) && ColonFree(m)
    ensures IsPrefix(MethodKeyPrefix(subject, name), MakeKey(subject, m, digest)) <==> m == name
  {
    var s := SubjectText(subject);
    var p := MethodKeyPrefix(subject, name);
    var key := MakeKey(subject, m, digest);
    var h := StripNonWord(digest);
    var n := |s| + 1;
    assert key == s + ":" + (m + ":" + h);
    assert p == s + ":" + (name + ":");
    if m == name {
      assert key == p + h;
      assert key[..|p|] == p;
    } else if IsPrefix(p, key) {
      var rest := key[|p|..];
      assert key == p + rest;
      assert m + ":" + h == key[n..] == name + ":" + rest;
      SplitAtColon(m, h, name, rest);
    }
  }

  /** `getTtl(method)`: `methodTtls[method] || ttl`, where a zero entry counts as absent. */
  function GetTtl(o: Options, name: Method): real {
    if name in o.methodTtls && o.methodTtls[name] != 0.0 then o.methodTtls[name] else o.ttl
  }

  /** Under validated options the TTL of a method is positive: its own when it has one, else the global one. */
  lemma GetTtlValid(o: Options, name: Method)
    requires ValidOptions(o)
    ensures GetTtl(o, name) > 0.0
    ensures name in o.methodTtls ==> GetTtl(o, name) == o.methodTtls[name]
    ensures name !in o.methodTtls ==> GetTtl(o, name) == o.ttl
  {
  }

  /** `randomTtl(method)` with `Math.random()` given as `r`. */
  function RandomTtl(o: Options, name: Method, r: real): (ttl: real)
  {
    var age := GetTtl(o, name);
    if o.randomTtl then age * (0.8 + 0.3 * r) else age
  }

  /** Without jitter the write TTL is the method TTL; with it, it lies in [0.8, 1.1) times that TTL. */
  lemma RandomTtlBounds(o: Options, name: Method, r: real)
    requires ValidOptions(o)
    requires 0.0 <= r < 1.0
    ensures !o.randomTtl ==> RandomTtl(o, name, r) == GetTtl(o, name)
    ensures o.randomTtl ==>
      0.8 * GetTtl(o, name) <= RandomTtl(o, name, r) < 1.1 * GetTtl(o, name)
    ensures RandomTtl(o, name, r) > 0.0
  {
    var age := GetTtl(o, name);
    GetTtlValid(o, name);
    var ttl := RandomTtl(o, name, r);
    if o.randomTtl {
      JitterBounds(age, r, ttl);
    } else {
      assert ttl == age;
    }
  }

  /** The jitter factor 0.8 + 0.3r keeps a positive amount within [0.8, 1.1) times itself. */
  lemma JitterBounds(a: real, r: real, t: real)
    requires a > 0.0 && 0.0 <= r < 1.0
    requires t == a * (0.8 + 0.3 * r)
    ensures 0.8 * a <= t
    ensures t < 1.1 * a
  {
    ScaleBelow(a, r);
    var ar := a * r;
    assert t == 0.8 * a + 0.3 * ar;
  }

  /** A positive amount scaled by a factor in [0, 1) stays in [0, amount). */
  lemma ScaleBelow(a: real, r: real)
    requires a > 0.0 && 0.0 <= r < 1.0
    ensures 0.0 <= a * r < a
  {
    assert a - a * r == a * (1.0 - r);
    assert a * (1.0 - r) > 0.0;
  }
}
