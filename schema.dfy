/**
 * The option schema: defaults and bounds of every recognised option, and
 * `attemptOptionsSchema` as a pure validate-and-default function.
 *
 * Numbers are reals. A partial record leaves a field `None` when the caller
 * did not supply it; validation either rejects the first field (in schema
 * order) that breaks its bound or returns the complete record.
 */
module Schema {
  import opened CacheTypes

  /** The handle of a pluggable remote tier; `NoRemote` is `null`. */
  datatype RemoteTier = NoRemote | Remote(id: nat)

  /** The complete, validated options record. `subject == None` is `null`. */
  datatype Options = Options(
    ttl: real,
    checkPeriod: real,
    statsInterval: real,
    randomTtl: bool,
    methodTtls: map<Method, real>,
    subject: Option<string>,
    fallback: bool,
    fallbackTtl: real,
    fallbackMax: real,
    fallbackFirst: bool,
    bgUpdate: bool,
    bgUpdateDelay: real,
    bgUpdatePeriodDelay: real,
    bgUpdateExpired: real,
    concurrency: real,
    remoteCache: RemoteTier)

  /**
   * The options as a caller supplies them: every field may be absent, and so
   * may any value inside `methodTtls` (an entry that is present but undefined).
   * `subject` may also be supplied as an explicit `null` (`Some(None)`).
   */
  datatype PartialOptions = PartialOptions(
    ttl: Option<real>,
    checkPeriod: Option<real>,
    statsInterval: Option<real>,
    randomTtl: Option<bool>,
    methodTtls: Option<map<Method, Option<real>>>,
    subject: Option<Option<string>>,
    fallback: Option<bool>,
    fallbackTtl: Option<real>,
    fallbackMax: Option<real>,
    fallbackFirst: Option<bool>,
    bgUpdate: Option<bool>,
    bgUpdateDelay: Option<real>,
    bgUpdatePeriodDelay: Option<real>,
    bgUpdateExpired: Option<real>,
    concurrency: Option<real>,
    remoteCache: Option<RemoteTier>)

  /** The validation error: the name of the first option that breaks its bound. */
  datatype SchemaError = InvalidOption(name: string)

  const NoOptions: PartialOptions :=
    PartialOptions(None, None, None, None, None, None, None, None,
                   None, None, None, None, None, None, None, None)

  // Default values (Schema.ts), in milliseconds where they are durations.
  const DefaultTtl: real := 60000.0
  const DefaultCheckPeriod: real := 1000.0
  const DefaultStatsInterval: real := 60000.0
  const DefaultMethodTtl: real := 60000.0
  const DefaultFallbackTtl: real := 3600000.0
  const DefaultFallbackMax: real := 10000.0
  const DefaultBgUpdateDelay: real := 100.0
  const DefaultBgUpdatePeriodDelay: real := 5000.0
  const DefaultBgUpdateExpired: real := 3600000.0
  const DefaultConcurrency: real := 10.0

  /** A number option bounded by `greater(0)`: a supplied value must be strictly positive. */
  predicate PositiveOk(x: Option<real>) {
    x.None? || x.value > 0.0
  }

  /** A number option bounded by `min(0)`: a supplied value must be at least zero. */
  predicate NonNegativeOk(x: Option<real>) {
    x.None? || x.value >= 0.0
  }

  /** Every supplied value of `methodTtls` is strictly positive. */
  predicate MethodTtlsOk(mt: Option<map<Method, Option<real>>>) {
    mt.None? || forall m :: m in mt.value ==> PositiveOk(mt.value[m])
  }

  /** A `Joi.string()` option: a supplied value must be a non-empty string (not `null`). */
  predicate SubjectOk(x: Option<Option<string>>) {
    x.None? || (x.value.Some? && x.value.value != "")
  }

  /** The bounds of the schema, stated field by field. */
  predicate Acceptable(p: PartialOptions) {
    && PositiveOk(p.ttl)
    && PositiveOk(p.checkPeriod)
    && PositiveOk(p.statsInterval)
    && MethodTtlsOk(p.methodTtls)
    && SubjectOk(p.subject)
    && PositiveOk(p.fallbackTtl)
    && PositiveOk(p.fallbackMax)
    && NonNegativeOk(p.bgUpdateDelay)
    && NonNegativeOk(p.bgUpdatePeriodDelay)
    && NonNegativeOk(p.bgUpdateExpired)
    && PositiveOk(p.concurrency)
  }

  /** The invariant of a complete record: every bound holds. */
  predicate ValidOptions(o: Options) {
    && o.ttl > 0.0
    && o.checkPeriod > 0.0
    && o.statsInterval > 0.0
    && (forall m :: m in o.methodTtls ==> o.methodTtls[m] > 0.0)
    && (o.subject.None? || o.subject.value != "")
    && o.fallbackTtl > 0.0
    && o.fallbackMax > 0.0
    && o.bgUpdateDelay >= 0.0
    && o.bgUpdatePeriodDelay >= 0.0
    && o.bgUpdateExpired >= 0.0
    && o.concurrency > 0.0
  }

  /** The record the schema produces for an empty options object. */
  const Defaults: Options :=
    Options(DefaultTtl, DefaultCheckPeriod, DefaultStatsInterval, false, map[], None,
            false, DefaultFallbackTtl, DefaultFallbackMax, false, false,
            DefaultBgUpdateDelay, DefaultBgUpdatePeriodDelay, DefaultBgUpdateExpired,
            DefaultConcurrency, NoRemote)

  /** `methodTtls` with each undefined entry given the per-entry default. */
  function FillMethodTtls(mt: map<Method, Option<real>>): (r: map<Method, real>)
    ensures r.Keys == mt.Keys
    ensures forall m :: m in mt ==> r[m] == mt[m].GetOr(DefaultMethodTtl)
  {
    map m | m in mt :: mt[m].GetOr(DefaultMethodTtl)
  }

  /**
   * `Joi.attempt(options, optionsSchema)`: the first option (in schema order)
   * whose supplied value breaks its bound is rejected; otherwise every missing
   * field takes its default and every supplied field is kept.
   */
  function Attempt(p: PartialOptions): (r: Result<Options, SchemaError>)
  {
    if !PositiveOk(p.ttl) then Failure(InvalidOption("ttl"))
    else if !PositiveOk(p.checkPeriod) then Failure(InvalidOption("checkPeriod"))
    else if !PositiveOk(p.statsInterval) then Failure(InvalidOption("statsInterval"))
    else if !MethodTtlsOk(p.methodTtls) then Failure(InvalidOption("methodTtls"))
    else if !SubjectOk(p.subject) then Failure(InvalidOption("subject"))
    else if !PositiveOk(p.fallbackTtl) then Failure(InvalidOption("fallbackTtl"))
    else if !PositiveOk(p.fallbackMax) then Failure(InvalidOption("fallbackMax"))
    else if !NonNegativeOk(p.bgUpdateDelay) then Failure(InvalidOption("bgUpdateDelay"))
    else if !NonNegativeOk(p.bgUpdatePeriodDelay) then Failure(InvalidOption("bgUpdatePeriodDelay"))
    else if !NonNegativeOk(p.bgUpdateExpired) then Failure(InvalidOption("bgUpdateExpired"))
    else if !PositiveOk(p.concurrency) then Failure(InvalidOption("concurrency"))
    else
      Success(Options(
        p.ttl.GetOr(DefaultTtl),
        p.checkPeriod.GetOr(DefaultCheckPeriod),
        p.statsInterval.GetOr(DefaultStatsInterval),
        p.randomTtl.GetOr(false),
        FillMethodTtls(p.methodTtls.GetOr(map[])),
        if p.subject.Some? then p.subject.value else None,
        p.fallback.GetOr(false),
        p.fallbackTtl.GetOr(DefaultFallbackTtl),
        p.fallbackMax.GetOr(DefaultFallbackMax),
        p.fallbackFirst.GetOr(false),
        p.bgUpdate.GetOr(false),
        p.bgUpdateDelay.GetOr(DefaultBgUpdateDelay),
        p.bgUpdatePeriodDelay.GetOr(DefaultBgUpdatePeriodDelay),
        p.bgUpdateExpired.GetOr(DefaultBgUpdateExpired),
        p.concurrency.GetOr(DefaultConcurrency),
        p.remoteCache.GetOr(NoRemote)))
  }

  /** `attemptOptionsSchema(options)`: an absent options object is validated as `{}`. */
  function AttemptOptions(options: Option<PartialOptions>): (r: Result<Options, SchemaError>)
    ensures options.None? ==> r == Success(Defaults)
    ensures options.Some? ==> r == Attempt(options.value)
  {
    AttemptAccepts(NoOptions);
    AttemptFills(NoOptions);
    Attempt(options.GetOr(NoOptions))
  }

  /** The complete record, seen again as a partial one with every field supplied. */
  function AsPartial(o: Options): (p: PartialOptions)
  {
    PartialOptions(Some(o.ttl), Some(o.checkPeriod), Some(o.statsInterval), Some(o.randomTtl),
                   Some(map m | m in o.methodTtls :: Some(o.methodTtls[m])),
                   Some(o.subject), Some(o.fallback), Some(o.fallbackTtl), Some(o.fallbackMax),
                   Some(o.fallbackFirst), Some(o.bgUpdate), Some(o.bgUpdateDelay),
                   Some(o.bgUpdatePeriodDelay), Some(o.bgUpdateExpired), Some(o.concurrency),
                   Some(o.remoteCache))
  }

  /** Validation accepts exactly the partial records within every bound, and what it returns is valid. */
  lemma AttemptAccepts(p: PartialOptions)
    ensures Attempt(p).Success? <==> Acceptable(p)
    ensures Attempt(p).Success? ==> ValidOptions(Attempt(p).value)
  {
  }

  /** The bound of every checked option, paired with its name, in schema order. */
  function Checks(p: PartialOptions): (cs: seq<(string, bool)>)
    ensures |cs| == 11
  {
    [("ttl", PositiveOk(p.ttl)),
     ("checkPeriod", PositiveOk(p.checkPeriod)),
     ("statsInterval", PositiveOk(p.statsInterval)),
     ("methodTtls", MethodTtlsOk(p.methodTtls)),
     ("subject", SubjectOk(p.subject)),
     ("fallbackTtl", PositiveOk(p.fallbackTtl)),
     ("fallbackMax", PositiveOk(p.fallbackMax)),
     ("bgUpdateDelay", NonNegativeOk(p.bgUpdateDelay)),
     ("bgUpdatePeriodDelay", NonNegativeOk(p.bgUpdatePeriodDelay)),
     ("bgUpdateExpired", NonNegativeOk(p.bgUpdateExpired)),
     ("concurrency", PositiveOk(p.concurrency))]
  }

  /**
   * A record is acceptable exactly when every check passes, and a rejection
   * names the first option, in schema order, whose supplied value breaks its bound.
   */
  lemma AttemptRejects(p: PartialOptions)
    ensures Acceptable(p) <==> forall i :: 0 <= i < |Checks(p)| ==> Checks(p)[i].1
    ensures forall i :: 0 <= i < |Checks(p)| && !Checks(p)[i].1
                        && (forall j :: 0 <= j < i ==> Checks(p)[j].1)
                        ==> Attempt(p) == Failure(InvalidOption(Checks(p)[i].0))
  {
    var cs := Checks(p);
    if forall i :: 0 <= i < |cs| ==> cs[i].1 {
      assert cs[0].1 && cs[1].1 && cs[2].1 && cs[3].1 && cs[4].1 && cs[5].1;
      assert cs[6].1 && cs[7].1 && cs[8].1 && cs[9].1 && cs[10].1;
    }
    forall i | 0 <= i < |cs| && !cs[i].1 && (forall j :: 0 <= j < i ==> cs[j].1)
      ensures Attempt(p) == Failure(InvalidOption(cs[i].0))
    {
      PassedBefore(cs, i);
    }
  }

  /** Supplied values are kept unchanged, and defaults fill only the missing fields. */
  lemma AttemptFills(p: PartialOptions)
    requires Acceptable(p)
    ensures Attempt(p).Success?
    ensures var o := Attempt(p).value;
      && (p.ttl.Some? ==> o.ttl == p.ttl.value) && (p.ttl.None? ==> o.ttl == 60000.0)
      && (p.checkPeriod.Some? ==> o.checkPeriod == p.checkPeriod.value)
      && (p.checkPeriod.None? ==> o.checkPeriod == 1000.0)
      && (p.statsInterval.Some? ==> o.statsInterval == p.statsInterval.value)
      && (p.statsInterval.None? ==> o.statsInterval == 60000.0)
      && (p.randomTtl.Some? ==> o.randomTtl == p.randomTtl.value)
      && (p.randomTtl.None? ==> !o.randomTtl)
      && (p.methodTtls.None? ==> o.methodTtls == map[])
      && (p.methodTtls.Some? ==> o.methodTtls.Keys == p.methodTtls.value.Keys)
      && (p.subject.Some? ==> o.subject == p.subject.value)
      && (p.subject.None? ==> o.subject.None?)
      && (p.fallback.Some? ==> o.fallback == p.fallback.value)
      && (p.fallback.None? ==> !o.fallback)
      && (p.fallbackTtl.Some? ==> o.fallbackTtl == p.fallbackTtl.value)
      && (p.fallbackTtl.None? ==> o.fallbackTtl == 3600000.0)
      && (p.fallbackMax.Some? ==> o.fallbackMax == p.fallbackMax.value)
      && (p.fallbackMax.None? ==> o.fallbackMax == 10000.0)
      && (p.fallbackFirst.Some? ==> o.fallbackFirst == p.fallbackFirst.value)
      && (p.fallbackFirst.None? ==> !o.fallbackFirst)
      && (p.bgUpdate.Some? ==> o.bgUpdate == p.bgUpdate.value)
      && (p.bgUpdate.None? ==> !o.bgUpdate)
      && (p.bgUpdateDelay.Some? ==> o.bgUpdateDelay == p.bgUpdateDelay.value)
      && (p.bgUpdateDelay.None? ==> o.bgUpdateDelay == 100.0)
      && (p.bgUpdatePeriodDelay.Some? ==> o.bgUpdatePeriodDelay == p.bgUpdatePeriodDelay.value)
      && (p.bgUpdatePeriodDelay.None? ==> o.bgUpdatePeriodDelay == 5000.0)
      && (p.bgUpdateExpired.Some? ==> o.bgUpdateExpired == p.bgUpdateExpired.value)
      && (p.bgUpdateExpired.None? ==> o.bgUpdateExpired == 3600000.0)
      && (p.concurrency.Some? ==> o.concurrency == p.concurrency.value)
      && (p.concurrency.None? ==> o.concurrency == 10.0)
      && (p.remoteCache.Some? ==> o.remoteCache == p.remoteCache.value)
      && (p.remoteCache.None? ==> o.remoteCache == NoRemote)
  {
  }

  /** Each `methodTtls` entry keeps a supplied value and an undefined one becomes 60000. */
  lemma AttemptMethodTtls(p: PartialOptions, m: Method)
    requires Acceptable(p) && p.methodTtls.Some? && m in p.methodTtls.value
    ensures m in Attempt(p).value.methodTtls
    ensures p.methodTtls.value[m].Some? ==> Attempt(p).value.methodTtls[m] == p.methodTtls.value[m].value
    ensures p.methodTtls.value[m].None? ==> Attempt(p).value.methodTtls[m] == 60000.0
  {
  }

  /** Absent options give the default table. */
  lemma DefaultsTable()
    ensures AttemptOptions(None) == Success(Defaults)
    ensures Attempt(NoOptions) == Success(Defaults)
    ensures ValidOptions(Defaults)
  {
  }

  /** Every check before the first failing one is spelled out, one index at a time. */
  lemma PassedBefore(cs: seq<(string, bool)>, i: nat)
    requires |cs| == 11 && i < 11
    requires forall j :: 0 <= j < i ==> cs[j].1
    ensures i > 0 ==> cs[0].1
    ensures i > 1 ==> cs[1].1
    ensures i > 2 ==> cs[2].1
    ensures i > 3 ==> cs[3].1
    ensures i > 4 ==> cs[4].1
    ensures i > 5 ==> cs[5].1
    ensures i > 6 ==> cs[6].1
    ensures i > 7 ==> cs[7].1
    ensures i > 8 ==> cs[8].1
    ensures i > 9 ==> cs[9].1
  {
  }

  /**
   * Validating an already validated record again returns it unchanged when it
   * has a subject. A record whose subject is still `null` is sent back as
   * `subject: null`, which `Joi.string()` rejects.
   */
  lemma {:induction false} AttemptIdempotent(p: PartialOptions)
    requires Attempt(p).Success?
    ensures Attempt(AsPartial(Attempt(p).value))
            == if Attempt(p).value.subject.Some? then Attempt(p) else Failure(InvalidOption("subject"))
  {
    AttemptAccepts(p);
    ValidIsFixedPoint(Attempt(p).value);
  }

  /**
   * A valid record with a subject is a fixed point of validation; one whose
   * subject is `null` is rejected at `subject`.
   */
  lemma ValidIsFixedPoint(o: Options)
    requires ValidOptions(o)
    ensures Attempt(AsPartial(o)) == if o.subject.Some? then Success(o) else Failure(InvalidOption("subject"))
  {
    var p := AsPartial(o);
    assert FillMethodTtls(p.methodTtls.value) == o.methodTtls;
  }

  /**
   * The options the proxy factory hands to the cache layer: the validated
   * options with `subject || name`, where `name` is the target's class name.
   */
  function WithSubject(o: Options, name: string): Options {
    o.(subject := if o.subject.Some? && o.subject.value != "" then o.subject else Some(name))
  }

  /**
   * The cache layer's second validation of the proxy factory's options keeps
   * them unchanged, unless the subject is still empty: no subject was supplied
   * and the target's class name is empty.
   */
  lemma {:induction false} ProxyRevalidation(p: PartialOptions, name: string)
    requires Attempt(p).Success?
    ensures var o := WithSubject(Attempt(p).value, name);
      Attempt(AsPartial(o)) == if o.subject.value != "" then Success(o) else Failure(InvalidOption("subject"))
  {
    var o := WithSubject(Attempt(p).value, name);
    AttemptAccepts(p);
    var q := AsPartial(o);
    assert FillMethodTtls(q.methodTtls.value) == o.methodTtls;
  }
}
